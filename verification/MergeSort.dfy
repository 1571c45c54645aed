/**
 The bottom-up merge sort of the link macros, as a function on sequences: merging neighbouring runs, passes that double
 the length of the runs, and the proof that the result is the stable sorting of the input.
 */
module MergeSort {

  function Min(a: nat, b: nat): nat {
    if a < b then a else b
  }

  /** The innermost loop: an element of the first run goes first when the comparison does not put it after. */
  function Merge<T>(p: seq<T>, q: seq<T>, cmp: (T, T) -> int): (m: seq<T>)
    ensures |m| == |p| + |q|
    decreases |p| + |q|
  {
    if p == [] then q
    else if q == [] then p
    else if cmp(p[0], q[0]) <= 0 then [p[0]] + Merge(p[1..], q, cmp)
    else [q[0]] + Merge(p, q[1..], cmp)
  }

  /** One pass over the list: every two neighbouring runs of k elements are merged. */
  function Pass<T>(s: seq<T>, k: nat, cmp: (T, T) -> int): (t: seq<T>)
    requires k > 0
    ensures |t| == |s|
    decreases |s|
  {
    if s == [] then []
    else
      var a, b := Min(k, |s|), Min(2 * k, |s|);
      Merge(s[..a], s[a..b], cmp) + Pass(s[b..], k, cmp)
  }

  /** The number of merges of a pass. */
  function Merges(n: nat, k: nat): nat
    requires k > 0
  {
    if n == 0 then 0 else 1 + Merges(n - Min(2 * k, n), k)
  }

  lemma {:induction false} OneMergeIff(n: nat, k: nat)
    requires k > 0
    ensures Merges(n, k) <= 1 <==> n <= 2 * k
  {
    if n > 2 * k {
      assert Merges(n, k) == 1 + Merges(n - 2 * k, k);
    }
  }

  /** The outermost loop: passes until one of them made at most one merge. */
  function Passes<T>(s: seq<T>, k: nat, cmp: (T, T) -> int): (t: seq<T>)
    requires k > 0
    ensures |t| == |s|
    decreases if |s| > k then |s| - k else 0
  {
    var t := Pass(s, k, cmp);
    if |s| <= 2 * k then t else Passes(t, 2 * k, cmp)
  }

  function Sorted<T>(s: seq<T>, cmp: (T, T) -> int): seq<T> {
    Passes(s, 1, cmp)
  }

  // ---- the elements stay the same

  lemma {:induction false} HeadAndTail<T>(s: seq<T>)
    requires s != []
    ensures multiset(s) == multiset([s[0]]) + multiset(s[1..])
  {
    assert s == [s[0]] + s[1..];
  }

  lemma {:induction false} MergeElements<T>(p: seq<T>, q: seq<T>, cmp: (T, T) -> int)
    ensures multiset(Merge(p, q, cmp)) == multiset(p) + multiset(q)
    decreases |p| + |q|
  {
    if p == [] || q == [] {
    } else if cmp(p[0], q[0]) <= 0 {
      MergeElements(p[1..], q, cmp);
      HeadAndTail(p);
    } else {
      MergeElements(p, q[1..], cmp);
      HeadAndTail(q);
    }
  }

  lemma {:induction false} ThreeParts<T>(s: seq<T>, a: nat, b: nat)
    requires a <= b <= |s|
    ensures multiset(s) == multiset(s[..a]) + multiset(s[a..b]) + multiset(s[b..])
  {
    assert s == s[..a] + s[a..b] + s[b..];
  }

  lemma {:induction false} PassElements<T>(s: seq<T>, k: nat, cmp: (T, T) -> int)
    requires k > 0
    ensures multiset(Pass(s, k, cmp)) == multiset(s)
    decreases |s|
  {
    if s == [] {
    } else {
      var a, b := Min(k, |s|), Min(2 * k, |s|);
      MergeElements(s[..a], s[a..b], cmp);
      PassElements(s[b..], k, cmp);
      ThreeParts(s, a, b);
    }
  }

  lemma {:induction false} PassesElements<T>(s: seq<T>, k: nat, cmp: (T, T) -> int)
    requires k > 0
    ensures multiset(Passes(s, k, cmp)) == multiset(s)
    decreases if |s| > k then |s| - k else 0
  {
    PassElements(s, k, cmp);
    if |s| > 2 * k {
      PassesElements(Pass(s, k, cmp), 2 * k, cmp);
    }
  }

  /** Sorting permutes, whatever the comparison does. */
  lemma {:induction false} SortedElements<T>(s: seq<T>, cmp: (T, T) -> int)
    ensures multiset(Sorted(s, cmp)) == multiset(s)
  {
    PassesElements(s, 1, cmp);
  }

  lemma {:induction false} SameElements<T>(s: seq<T>, t: seq<T>, x: T)
    requires multiset(s) == multiset(t)
    ensures x in s <==> x in t
  {
    assert x in multiset(s) <==> x in multiset(t);
  }

  // ---- the order

  ghost predicate Compares<T>(cmp: (T, T) -> int, x: T, y: T) {
    cmp(x, y) <= 0 || cmp(y, x) <= 0
  }

  ghost predicate Chains<T>(cmp: (T, T) -> int, x: T, y: T, z: T) {
    cmp(x, y) <= 0 && cmp(y, z) <= 0 ==> cmp(x, z) <= 0
  }

  /** The comparison is a total preorder on a set. */
  ghost predicate Preorder<T>(u: set<T>, cmp: (T, T) -> int) {
    && (forall x, y {:trigger Compares(cmp, x, y)} :: x in u && y in u ==> Compares(cmp, x, y))
    && (forall x, y, z {:trigger Chains(cmp, x, y, z)} :: x in u && y in u && z in u ==> Chains(cmp, x, y, z))
  }

  /** The stable order: by the comparison, and between equal elements by rank. */
  ghost predicate Precedes<T>(cmp: (T, T) -> int, rank: T -> nat, x: T, y: T) {
    cmp(x, y) <= 0 && (cmp(y, x) <= 0 ==> rank(x) < rank(y))
  }

  ghost predicate InOrder<T>(s: seq<T>, cmp: (T, T) -> int, rank: T -> nat, i: nat, j: nat) {
    i < j < |s| ==> Precedes(cmp, rank, s[i], s[j])
  }

  ghost predicate Ordered<T>(s: seq<T>, cmp: (T, T) -> int, rank: T -> nat) {
    forall i: nat, j: nat {:trigger InOrder(s, cmp, rank, i, j)} :: InOrder(s, cmp, rank, i, j)
  }

  ghost predicate LowerRanks<T>(s: seq<T>, t: seq<T>, rank: T -> nat) {
    forall x, y :: x in s && y in t ==> rank(x) < rank(y)
  }

  ghost predicate Within<T>(s: seq<T>, u: set<T>) {
    forall x :: x in s ==> x in u
  }

  lemma {:induction false} OrderedTail<T>(s: seq<T>, cmp: (T, T) -> int, rank: T -> nat)
    requires Ordered(s, cmp, rank) && s != []
    ensures Ordered(s[1..], cmp, rank)
    ensures forall x :: x in s[1..] ==> Precedes(cmp, rank, s[0], x)
  {
    forall i: nat, j: nat ensures InOrder(s[1..], cmp, rank, i, j) {
      assert InOrder(s, cmp, rank, i + 1, j + 1);
    }
    forall x | x in s[1..] ensures Precedes(cmp, rank, s[0], x) {
      var j: nat :| j < |s| - 1 && s[1..][j] == x;
      assert InOrder(s, cmp, rank, 0, j + 1);
    }
  }

  lemma {:induction false} OrderedCons<T>(h: T, t: seq<T>, cmp: (T, T) -> int, rank: T -> nat)
    requires Ordered(t, cmp, rank) && forall x :: x in t ==> Precedes(cmp, rank, h, x)
    ensures Ordered([h] + t, cmp, rank)
  {
    forall i: nat, j: nat ensures InOrder([h] + t, cmp, rank, i, j) {
      if 0 < i < j {
        assert InOrder(t, cmp, rank, i - 1, j - 1);
      }
    }
  }

  lemma {:induction false} MergeMembers<T>(p: seq<T>, q: seq<T>, cmp: (T, T) -> int, x: T)
    ensures x in Merge(p, q, cmp) <==> x in p || x in q
  {
    MergeElements(p, q, cmp);
    assert x in multiset(Merge(p, q, cmp)) <==> x in multiset(p) || x in multiset(q);
  }

  /** Merging keeps the stable order of two runs, the first of which stood before the second. */
  lemma {:induction false} MergeOrdered<T>(p: seq<T>, q: seq<T>, cmp: (T, T) -> int, rank: T -> nat, u: set<T>)
    requires Preorder(u, cmp) && Within(p, u) && Within(q, u)
    requires Ordered(p, cmp, rank) && Ordered(q, cmp, rank) && LowerRanks(p, q, rank)
    ensures Ordered(Merge(p, q, cmp), cmp, rank)
    decreases |p| + |q|
  {
    if p == [] || q == [] {
    } else if cmp(p[0], q[0]) <= 0 {
      var rest := Merge(p[1..], q, cmp);
      OrderedTail(p, cmp, rank);
      OrderedTail(q, cmp, rank);
      MergeOrdered(p[1..], q, cmp, rank, u);
      forall x | x in rest ensures Precedes(cmp, rank, p[0], x) {
        MergeMembers(p[1..], q, cmp, x);
        if x !in p[1..] {
          assert x == q[0] || x in q[1..];
          assert Chains(cmp, p[0], q[0], x);
        }
      }
      OrderedCons(p[0], rest, cmp, rank);
    } else {
      var rest := Merge(p, q[1..], cmp);
      OrderedTail(p, cmp, rank);
      OrderedTail(q, cmp, rank);
      MergeOrdered(p, q[1..], cmp, rank, u);
      forall x | x in rest ensures Precedes(cmp, rank, q[0], x) {
        MergeMembers(p, q[1..], cmp, x);
        if x !in q[1..] {
          assert x == p[0] || x in p[1..];
          assert Compares(cmp, p[0], q[0]);
          assert Chains(cmp, q[0], p[0], x) && Chains(cmp, p[0], x, q[0]);
        }
      }
      OrderedCons(q[0], rest, cmp, rank);
    }
  }

  /** The list is made of runs of k elements in the stable order, each of lower ranks than all that follow. */
  ghost predicate Runs<T>(s: seq<T>, k: nat, cmp: (T, T) -> int, rank: T -> nat)
    requires k > 0
    decreases |s|
  {
    s == [] ||
    var a := Min(k, |s|);
    Ordered(s[..a], cmp, rank) && LowerRanks(s[..a], s[a..], rank) && Runs(s[a..], k, cmp, rank)
  }

  lemma {:induction false} RestParts<T>(s: seq<T>, a: nat, b: nat)
    requires a <= b <= |s|
    ensures s[a..][..b - a] == s[a..b] && s[a..][b - a..] == s[b..] && s[..b] == s[..a] + s[a..b]
    ensures forall x :: x in s[a..b] || x in s[b..] ==> x in s[a..]
  {
    assert s[a..] == s[a..b] + s[b..];
  }

  lemma {:induction false} TwoRuns<T>(s: seq<T>, k: nat, cmp: (T, T) -> int, rank: T -> nat)
    requires k > 0 && s != [] && Runs(s, k, cmp, rank)
    ensures var a, b := Min(k, |s|), Min(2 * k, |s|);
            && Ordered(s[..a], cmp, rank) && Ordered(s[a..b], cmp, rank)
            && LowerRanks(s[..a], s[a..b], rank) && LowerRanks(s[..b], s[b..], rank) && Runs(s[b..], k, cmp, rank)
  {
    var a, b := Min(k, |s|), Min(2 * k, |s|);
    RestParts(s, a, b);
    if s[a..] == [] {
      assert s[a..b] == [] && s[b..] == [];
    } else {
      assert Min(k, |s[a..]|) == b - a;
    }
  }

  lemma {:induction false} AppendParts<T>(m: seq<T>, t: seq<T>)
    ensures (m + t)[..|m|] == m && (m + t)[|m|..] == t
  {
  }

  /** A pass doubles the length of the runs. */
  lemma {:induction false} PassDoublesRuns<T>(s: seq<T>, k: nat, cmp: (T, T) -> int, rank: T -> nat, u: set<T>)
    requires k > 0 && Preorder(u, cmp) && Within(s, u) && Runs(s, k, cmp, rank)
    ensures Runs(Pass(s, k, cmp), 2 * k, cmp, rank)
    decreases |s|
  {
    if s == [] {
    } else {
      var a, b := Min(k, |s|), Min(2 * k, |s|);
      var m, rest := Merge(s[..a], s[a..b], cmp), Pass(s[b..], k, cmp);
      TwoRuns(s, k, cmp, rank);
      MergeOrdered(s[..a], s[a..b], cmp, rank, u);
      PassDoublesRuns(s[b..], k, cmp, rank, u);
      PassElements(s[b..], k, cmp);
      RestParts(s, a, b);
      forall x, y | x in m && y in rest ensures rank(x) < rank(y) {
        MergeMembers(s[..a], s[a..b], cmp, x);
        SameElements(s[b..], rest, y);
      }
      AppendParts(m, rest);
    }
  }

  lemma {:induction false} PassesOrdered<T>(s: seq<T>, k: nat, cmp: (T, T) -> int, rank: T -> nat, u: set<T>)
    requires k > 0 && Preorder(u, cmp) && Within(s, u) && Runs(s, k, cmp, rank)
    ensures Ordered(Passes(s, k, cmp), cmp, rank)
    decreases if |s| > k then |s| - k else 0
  {
    var t := Pass(s, k, cmp);
    PassDoublesRuns(s, k, cmp, rank, u);
    if |s| <= 2 * k {
      assert t[..|t|] == t;
    } else {
      PassElements(s, k, cmp);
      forall x | x in t ensures x in u {
        SameElements(s, t, x);
      }
      PassesOrdered(t, 2 * k, cmp, rank, u);
    }
  }

  lemma {:induction false} SingletonRuns<T>(s: seq<T>, cmp: (T, T) -> int, rank: T -> nat)
    requires forall i, j :: 0 <= i < j < |s| ==> rank(s[i]) < rank(s[j])
    ensures Runs(s, 1, cmp, rank)
    decreases |s|
  {
    if s == [] {
    } else {
      SingletonRuns(s[1..], cmp, rank);
      forall i: nat, j: nat ensures InOrder(s[..1], cmp, rank, i, j) {
      }
    }
  }

  /** For a comparison that is a total preorder, sorting gives the stable order: elements that compare equal keep the
      order in which they stood. */
  lemma {:induction false} SortedIsStable<T>(s: seq<T>, cmp: (T, T) -> int, rank: T -> nat, u: set<T>)
    requires Preorder(u, cmp) && Within(s, u)
    requires forall i, j :: 0 <= i < j < |s| ==> rank(s[i]) < rank(s[j])
    ensures Ordered(Sorted(s, cmp), cmp, rank)
  {
    SingletonRuns(s, cmp, rank);
    PassesOrdered(s, 1, cmp, rank, u);
  }
}
