/**
 `Array.prototype.sort` with a comparator (section 23.1.3.30 of ECMA-262): a stable sort.  The
 insertion sort below is one such; `StableSortIsUnique` shows that every other returns the same.
 */
module Sorting {
  /** A comparator that orders by some key: negative before, zero tied, positive after. */
  ghost predicate WeakOrder<T(!new)>(cmp: (T, T) -> int) {
    && (forall a, b :: cmp(a, b) < 0 <==> cmp(b, a) > 0)
    && (forall a, b, c :: cmp(a, b) <= 0 && cmp(b, c) <= 0 ==> cmp(a, c) <= 0)
  }

  /** `(a, b) => a - b`. */
  function ByTime(a: int, b: int): int { a - b }

  lemma ByTimeIsWeakOrder()
    ensures WeakOrder(ByTime)
  {}

  function Insert<T>(x: T, s: seq<T>, cmp: (T, T) -> int): seq<T> {
    if s == [] then [x]
    else if cmp(x, s[0]) <= 0 then [x] + s
    else [s[0]] + Insert(x, s[1..], cmp)
  }

  function SortBy<T>(s: seq<T>, cmp: (T, T) -> int): seq<T> {
    if s == [] then [] else Insert(s[0], SortBy(s[1..], cmp), cmp)
  }

  ghost predicate SortedBy<T>(s: seq<T>, cmp: (T, T) -> int) {
    forall i, j :: 0 <= i < j < |s| ==> cmp(s[i], s[j]) <= 0
  }

  /** The elements tied with `x`, in order. */
  function Tied<T>(s: seq<T>, x: T, cmp: (T, T) -> int): seq<T> {
    if s == [] then [] else (if cmp(x, s[0]) == 0 then [s[0]] else []) + Tied(s[1..], x, cmp)
  }

  lemma {:induction false} InsertPermutes<T>(x: T, s: seq<T>, cmp: (T, T) -> int)
    ensures multiset(Insert(x, s, cmp)) == multiset(s) + multiset{x}
    decreases |s|
  {
    if s != [] {
      assert s == [s[0]] + s[1..];
      InsertPermutes(x, s[1..], cmp);
    }
  }

  lemma {:induction false} SortPermutes<T>(s: seq<T>, cmp: (T, T) -> int)
    ensures multiset(SortBy(s, cmp)) == multiset(s)
    ensures |SortBy(s, cmp)| == |s|
    ensures forall x :: x in SortBy(s, cmp) <==> x in s
    decreases |s|
  {
    if s != [] {
      assert s == [s[0]] + s[1..];
      SortPermutes(s[1..], cmp);
      InsertPermutes(s[0], SortBy(s[1..], cmp), cmp);
    }
    assert |SortBy(s, cmp)| == |multiset(SortBy(s, cmp))| == |multiset(s)| == |s|;
    forall x
      ensures x in SortBy(s, cmp) <==> x in s
    {
      assert x in multiset(SortBy(s, cmp)) <==> x in multiset(s);
    }
  }

  lemma {:induction false} InsertMembers<T>(x: T, s: seq<T>, cmp: (T, T) -> int)
    ensures forall y :: y in Insert(x, s, cmp) ==> y == x || y in s
    decreases |s|
  {
    if s != [] { InsertMembers(x, s[1..], cmp); }
  }

  lemma SortedCons<T>(x: T, s: seq<T>, cmp: (T, T) -> int)
    requires SortedBy(s, cmp) && forall y :: y in s ==> cmp(x, y) <= 0
    ensures SortedBy([x] + s, cmp)
  {}

  lemma {:induction false} InsertSorts<T(!new)>(x: T, s: seq<T>, cmp: (T, T) -> int)
    requires WeakOrder(cmp) && SortedBy(s, cmp)
    ensures SortedBy(Insert(x, s, cmp), cmp)
    decreases |s|
  {
    if s != [] && cmp(x, s[0]) > 0 {
      InsertSorts(x, s[1..], cmp);
      InsertMembers(x, s[1..], cmp);
      SortedCons(s[0], Insert(x, s[1..], cmp), cmp);
    } else if s != [] {
      forall y | y in s ensures cmp(x, y) <= 0 { assert cmp(x, s[0]) <= 0 && (y == s[0] || cmp(s[0], y) <= 0); }
      SortedCons(x, s, cmp);
    }
  }

  lemma {:induction false} SortSorts<T(!new)>(s: seq<T>, cmp: (T, T) -> int)
    requires WeakOrder(cmp)
    ensures SortedBy(SortBy(s, cmp), cmp)
    decreases |s|
  {
    if s != [] {
      SortSorts(s[1..], cmp);
      InsertSorts(s[0], SortBy(s[1..], cmp), cmp);
    }
  }

  function IfTied<T>(x: T, y: T, cmp: (T, T) -> int): seq<T> {
    if cmp(y, x) == 0 then [x] else []
  }

  lemma TiedCons<T>(x: T, s: seq<T>, y: T, cmp: (T, T) -> int)
    ensures Tied([x] + s, y, cmp) == IfTied(x, y, cmp) + Tied(s, y, cmp)
  {
    assert ([x] + s)[1..] == s;
  }

  lemma {:induction false} InsertTied<T(!new)>(x: T, s: seq<T>, y: T, cmp: (T, T) -> int)
    requires forall z :: cmp(x, z) > 0 && cmp(y, x) == 0 ==> cmp(y, z) != 0
    ensures Tied(Insert(x, s, cmp), y, cmp) == IfTied(x, y, cmp) + Tied(s, y, cmp)
    decreases |s|
  {
    if s == [] || cmp(x, s[0]) <= 0 {
      TiedCons(x, s, y, cmp);
      assert Insert(x, s, cmp) == [x] + s;
    } else {
      var z, rest := s[0], s[1..];
      InsertTied(x, rest, y, cmp);
      TiedCons(z, Insert(x, rest, cmp), y, cmp);
      TiedCons(z, rest, y, cmp);
      assert s == [z] + rest;
      assert IfTied(x, y, cmp) == [] || IfTied(z, y, cmp) == [];
      assert IfTied(z, y, cmp) + (IfTied(x, y, cmp) + Tied(rest, y, cmp))
          == IfTied(x, y, cmp) + (IfTied(z, y, cmp) + Tied(rest, y, cmp));
    }
  }

  lemma TieOnce<T(!new)>(x: T, y: T, z: T, cmp: (T, T) -> int)
    requires WeakOrder(cmp)
    ensures cmp(x, z) > 0 && cmp(y, x) == 0 ==> cmp(y, z) != 0
  {
    if cmp(y, x) == 0 { assert cmp(x, y) <= 0; }
  }

  /** Elements that tie keep the order they came in. */
  lemma {:induction false} SortIsStable<T(!new)>(s: seq<T>, y: T, cmp: (T, T) -> int)
    requires WeakOrder(cmp)
    ensures Tied(SortBy(s, cmp), y, cmp) == Tied(s, y, cmp)
    decreases |s|
  {
    if s != [] {
      SortIsStable(s[1..], y, cmp);
      forall z
        ensures cmp(s[0], z) > 0 && cmp(y, s[0]) == 0 ==> cmp(y, z) != 0
      {
        TieOnce(s[0], y, z, cmp);
      }
      InsertTied(s[0], SortBy(s[1..], cmp), y, cmp);
    }
  }

  lemma {:induction false} TiedNone<T(!new)>(s: seq<T>, x: T, cmp: (T, T) -> int)
    requires forall y :: y in s ==> cmp(x, y) != 0
    ensures Tied(s, x, cmp) == []
    decreases |s|
  {
    if s != [] {
      TiedNone(s[1..], x, cmp);
    }
  }

  lemma {:induction false} TiedMember<T(!new)>(s: seq<T>, x: T, cmp: (T, T) -> int)
    ensures forall y :: y in Tied(s, x, cmp) ==> y in s && cmp(x, y) == 0
    decreases |s|
  {
    if s != [] {
      TiedMember(s[1..], x, cmp);
    }
  }

  /** Two sorted sequences that agree on every tie are the same sequence. */
  lemma {:induction false} SortedByTies<T(!new)>(s: seq<T>, t: seq<T>, cmp: (T, T) -> int)
    requires WeakOrder(cmp) && SortedBy(s, cmp) && SortedBy(t, cmp)
    requires forall x :: Tied(s, x, cmp) == Tied(t, x, cmp)
    ensures s == t
    decreases |s|
  {
    if t != [] { TiedSelf(t, cmp); }
    if s != [] {
      HeadsAgree(s, t, cmp);
      forall x
        ensures Tied(s[1..], x, cmp) == Tied(t[1..], x, cmp)
      {
        var h := if cmp(x, s[0]) == 0 then [s[0]] else [];
        assert Tied(s, x, cmp) == h + Tied(s[1..], x, cmp) && Tied(t, x, cmp) == h + Tied(t[1..], x, cmp);
        assert (h + Tied(s[1..], x, cmp))[|h|..] == (h + Tied(t[1..], x, cmp))[|h|..];
      }
      SortedByTies(s[1..], t[1..], cmp);
    }
  }

  lemma TiedSelf<T(!new)>(t: seq<T>, cmp: (T, T) -> int)
    requires WeakOrder(cmp) && t != []
    ensures Tied(t, t[0], cmp) != []
  {
    assert cmp(t[0], t[0]) == 0;
  }

  lemma HeadsAgree<T(!new)>(s: seq<T>, t: seq<T>, cmp: (T, T) -> int)
    requires WeakOrder(cmp) && SortedBy(s, cmp) && SortedBy(t, cmp) && s != []
    requires forall x :: Tied(s, x, cmp) == Tied(t, x, cmp)
    ensures t != [] && s[0] == t[0]
  {
    var x := s[0];
    assert cmp(x, x) == 0;
    assert Tied(s, x, cmp)[0] == x;
    TiedMember(t, x, cmp);
    assert x in Tied(t, x, cmp);
    var y := t[0];
    assert cmp(y, y) == 0;
    assert Tied(t, y, cmp)[0] == y;
    TiedMember(s, y, cmp);
    assert y in Tied(s, y, cmp);
    assert cmp(x, y) <= 0 && cmp(y, x) <= 0;
    assert Tied(t, x, cmp)[0] == y;
  }

  /** Any stable sort by a weak order returns what SortBy returns. */
  lemma StableSortIsUnique<T(!new)>(s: seq<T>, t: seq<T>, cmp: (T, T) -> int)
    requires WeakOrder(cmp) && SortedBy(t, cmp)
    requires forall x :: Tied(t, x, cmp) == Tied(s, x, cmp)
    ensures t == SortBy(s, cmp)
  {
    SortSorts(s, cmp);
    forall x
      ensures Tied(t, x, cmp) == Tied(SortBy(s, cmp), x, cmp)
    {
      SortIsStable(s, x, cmp);
    }
    SortedByTies(t, SortBy(s, cmp), cmp);
  }
}
