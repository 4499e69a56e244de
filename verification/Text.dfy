/** ASCII text, as far as the modelled code looks into strings. */
module Text {
  predicate IsSpace(c: char) { c == ' ' || c == '\t' || c == '\n' || c == '\r' || c == '\U{0B}' || c == '\U{0C}' }

  predicate IsDigit(c: char) { '0' <= c <= '9' }

  predicate IsUpper(c: char) { 'A' <= c <= 'Z' }

  predicate IsLower(c: char) { 'a' <= c <= 'z' }

  function UpperChar(c: char): char { if IsLower(c) then (c as int - 32) as char else c }

  function LowerChar(c: char): char { if IsUpper(c) then (c as int + 32) as char else c }

  function Upper(s: string): string { seq(|s|, i requires 0 <= i < |s| => UpperChar(s[i])) }

  function Lower(s: string): string { seq(|s|, i requires 0 <= i < |s| => LowerChar(s[i])) }

  /** normaliseStationCode (stations.ts). */
  function NormaliseStationCode(code: string): string { Upper(Trim(code)) }

  function TrimStart(s: string): string {
    if s != [] && IsSpace(s[0]) then TrimStart(s[1..]) else s
  }

  function TrimEnd(s: string): string {
    if s != [] && IsSpace(s[|s| - 1]) then TrimEnd(s[..|s| - 1]) else s
  }

  function Trim(s: string): string { TrimEnd(TrimStart(s)) }

  predicate Trimmed(s: string) {
    s == [] || (!IsSpace(s[0]) && !IsSpace(s[|s| - 1]))
  }

  lemma {:induction false} TrimStartTrims(s: string)
    ensures TrimStart(s) == [] || !IsSpace(TrimStart(s)[0])
    decreases |s|
  {
    if s != [] && IsSpace(s[0]) { TrimStartTrims(s[1..]); }
  }

  lemma {:induction false} TrimEndTrims(s: string)
    ensures TrimEnd(s) == [] || (!IsSpace(TrimEnd(s)[|TrimEnd(s)| - 1]) && TrimEnd(s)[0] == s[0])
    ensures TrimEnd(s) <= s
    decreases |s|
  {
    if s != [] && IsSpace(s[|s| - 1]) { TrimEndTrims(s[..|s| - 1]); }
  }

  lemma TrimTrims(s: string)
    ensures Trimmed(Trim(s))
  {
    TrimStartTrims(s);
    TrimEndTrims(TrimStart(s));
  }

  lemma TrimShortens(s: string)
    ensures |Trim(s)| <= |s|
  {
    TrimStartShortens(s);
    TrimEndTrims(TrimStart(s));
  }

  lemma {:induction false} TrimStartShortens(s: string)
    ensures |TrimStart(s)| <= |s|
    decreases |s|
  {
    if s != [] && IsSpace(s[0]) { TrimStartShortens(s[1..]); }
  }

  lemma TrimFixed(s: string)
    requires Trimmed(s)
    ensures Trim(s) == s
  {}

  ghost predicate Blank(s: string) { forall c :: c in s ==> IsSpace(c) }

  lemma BlankParts(a: string, b: string)
    requires Blank(a) && Blank(b)
    ensures Blank(a + b)
  {}

  lemma BlankOne(c: char)
    requires IsSpace(c)
    ensures Blank([c])
  {}

  lemma {:induction false} TrimStartStrips(s: string) returns (blanks: string)
    ensures s == blanks + TrimStart(s) && Blank(blanks)
    decreases |s|
  {
    blanks := [];
    if s != [] && IsSpace(s[0]) {
      hide Blank;
      var rest := TrimStartStrips(s[1..]);
      blanks := [s[0]] + rest;
      assert s == [s[0]] + s[1..] == [s[0]] + (rest + TrimStart(s)) == blanks + TrimStart(s);
      BlankParts([s[0]], rest) by { BlankOne(s[0]); }
    }
  }

  lemma {:induction false} TrimEndStrips(s: string) returns (blanks: string)
    ensures s == TrimEnd(s) + blanks && Blank(blanks)
    decreases |s|
  {
    blanks := [];
    if s != [] && IsSpace(s[|s| - 1]) {
      hide Blank;
      var rest := TrimEndStrips(s[..|s| - 1]);
      blanks := rest + [s[|s| - 1]];
      assert s == s[..|s| - 1] + [s[|s| - 1]] == TrimEnd(s) + rest + [s[|s| - 1]] == TrimEnd(s) + blanks;
      BlankParts(rest, [s[|s| - 1]]) by { BlankOne(s[|s| - 1]); }
    }
  }

  /** Trim takes blanks from both ends, all of them and nothing else. */
  lemma TrimStripsBlanks(s: string) returns (before: string, after: string)
    ensures s == before + Trim(s) + after && Blank(before) && Blank(after) && Trimmed(Trim(s))
  {
    before := TrimStartStrips(s);
    after := TrimEndStrips(TrimStart(s));
    assert s == before + (Trim(s) + after);
    TrimTrims(s);
  }

  lemma {:induction false} TrimStartSkips(blanks: string, s: string)
    requires Blank(blanks)
    ensures TrimStart(blanks + s) == TrimStart(s)
    decreases |blanks|
  {
    if blanks == [] {
      assert blanks + s == s;
    } else {
      assert blanks == [blanks[0]] + blanks[1..] && (blanks + s)[1..] == blanks[1..] + s;
      TrimStartSkips(blanks[1..], s);
    }
  }

  lemma {:induction false} TrimEndSkips(s: string, blanks: string)
    requires Blank(blanks)
    ensures TrimEnd(s + blanks) == TrimEnd(s)
    decreases |blanks|
  {
    if blanks == [] {
      assert s + blanks == s;
    } else {
      var n := |blanks| - 1;
      assert blanks == blanks[..n] + [blanks[n]] && (s + blanks)[..|s + blanks| - 1] == s + blanks[..n];
      TrimEndSkips(s, blanks[..n]);
    }
  }

  /** Blanks around a text make no difference to what Trim leaves. */
  lemma TrimIgnoresBlanks(before: string, s: string, after: string)
    requires Blank(before) && Blank(after) && Trimmed(s)
    ensures Trim(before + s + after) == s
  {
    assert before + s + after == before + (s + after);
    TrimStartSkips(before, s + after);
    if s == [] {
      TrimStartSkips(after, []);
      assert s + after == after == after + [];
    } else {
      TrimEndSkips(s, after);
    }
  }

  /** The letters are those of ASCII, 65 to 90 and 97 to 122; the cases of one are 32 apart, and nothing
      else changes case. */
  lemma CasesPair(c: char)
    ensures IsUpper(c) <==> 65 <= c as int <= 90
    ensures IsLower(c) <==> 97 <= c as int <= 122
    ensures UpperChar(c) as int == (if 97 <= c as int <= 122 then c as int - 32 else c as int)
    ensures LowerChar(c) as int == (if 65 <= c as int <= 90 then c as int + 32 else c as int)
  {}

  /** Text order by code unit: negative, zero or positive. */
  function Compare(a: string, b: string): int {
    if a == [] then (if b == [] then 0 else -1)
    else if b == [] then 1
    else if a[0] < b[0] then -1
    else if a[0] > b[0] then 1
    else Compare(a[1..], b[1..])
  }

  lemma {:induction false} CompareFlips(a: string, b: string)
    ensures Compare(a, b) == -Compare(b, a)
    ensures Compare(a, b) == 0 <==> a == b
    decreases |a|
  {
    if a != [] && b != [] && a[0] == b[0] {
      CompareFlips(a[1..], b[1..]);
      assert a == [a[0]] + a[1..] && b == [b[0]] + b[1..];
    }
  }

  lemma {:induction false} CompareTransitive(a: string, b: string, c: string)
    requires Compare(a, b) <= 0 && Compare(b, c) <= 0
    ensures Compare(a, c) <= 0
    decreases |a|
  {
    if a != [] && b != [] && c != [] && a[0] == b[0] == c[0] {
      CompareTransitive(a[1..], b[1..], c[1..]);
    }
  }
}
