/** Places in a list, for saying what a filter keeps and what a count counts. */
module Places {
  /** `at` lists in order the places below `n` at which `holds`. */
  ghost predicate Lists(at: seq<nat>, n: nat, holds: nat -> bool) {
    && (forall i :: 0 <= i < |at| ==> at[i] < n && holds(at[i]))
    && (forall i, j :: 0 <= i < j < |at| ==> at[i] < at[j])
    && (forall p: nat :: p < n && holds(p) ==> p in at)
  }

  ghost function Where(n: nat, holds: nat -> bool): set<nat> { set p: nat | p < n && holds(p) }

  lemma OneMore(at: seq<nat>, n: nat, holds: nat -> bool)
    requires Lists(at, n, holds)
    ensures Lists(if holds(n) then at + [n] else at, n + 1, holds)
  {
    var longer := if holds(n) then at + [n] else at;
    forall p: nat | p < n + 1 && holds(p) ensures p in longer {
      if p == n { assert longer[|at|] == n; } else { assert p in at; }
    }
  }

  /** Only the places below `n` matter. */
  lemma Agree(at: seq<nat>, n: nat, f: nat -> bool, g: nat -> bool)
    requires Lists(at, n, f) && forall p: nat :: p < n ==> f(p) == g(p)
    ensures Lists(at, n, g)
  {}

  lemma {:induction false} WhereOneMore(n: nat, holds: nat -> bool)
    ensures |Where(n + 1, holds)| == |Where(n, holds)| + (if holds(n) then 1 else 0)
  {
    assert Where(n + 1, holds) == Where(n, holds) + (if holds(n) then {n} else {});
  }

  lemma WhereAgrees(n: nat, f: nat -> bool, g: nat -> bool)
    requires forall p: nat :: p < n ==> f(p) == g(p)
    ensures Where(n, f) == Where(n, g)
  {}

  /** `t` holds what stands in `s` at the places `at`. */
  ghost predicate Picks<T>(t: seq<T>, s: seq<T>, at: seq<nat>) {
    |t| == |at| && forall i :: 0 <= i < |at| ==> at[i] < |s| && t[i] == s[at[i]]
  }

  lemma PicksOneMore<T>(t: seq<T>, s: seq<T>, at: seq<nat>)
    requires s != [] && Picks(t, s[..|s| - 1], at)
    ensures Picks(t, s, at) && Picks(t + [s[|s| - 1]], s, at + [|s| - 1])
  {
    forall i | 0 <= i < |at| ensures at[i] < |s| && t[i] == s[at[i]] {
      assert s[..|s| - 1][at[i]] == s[at[i]];
    }
  }

  /** A filter over a list goes on with the list's last element. */
  lemma FilterOneMore<T>(t: seq<T>, s: seq<T>, at: seq<nat>, f: nat -> bool, g: nat -> bool)
    requires s != [] && Lists(at, |s| - 1, f) && Picks(t, s[..|s| - 1], at)
    requires forall p: nat :: p < |s| - 1 ==> f(p) == g(p)
    ensures g(|s| - 1) ==> Lists(at + [|s| - 1], |s|, g) && Picks(t + [s[|s| - 1]], s, at + [|s| - 1])
    ensures !g(|s| - 1) ==> Lists(at, |s|, g) && Picks(t, s, at)
  {
    hide Lists, Picks;
    Agree(at, |s| - 1, f, g);
    OneMore(at, |s| - 1, g);
    PicksOneMore(t, s, at);
  }
}
