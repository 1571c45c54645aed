/**
 HASH_SRT: the merge sort on the links of the list of all elements. The buckets are not touched.
 */
module HashSort {
  import opened HashBuckets
  import opened HashLinks
  import opened HashTable
  import opened MergeSort
  import opened OrderedMap

  /** An element of the list that a pass has built: its back link is right, and the link of all but the last. */
  ghost predicate DonePlace(done: seq<Elem>, es: set<Elem>, i: nat)
    reads es`next, es`prev
  {
    i < |done| ==> done[i] in es && done[i].prev == At(done, i - 1) && (i + 1 < |done| ==> done[i].next == done[i + 1])
  }

  ghost predicate Done(done: seq<Elem>, es: set<Elem>)
    reads es`next, es`prev
  {
    Distinct(done) && forall i: nat {:trigger DonePlace(done, es, i)} :: DonePlace(done, es, i)
  }

  /** An element that the pass has still to take: its link is the old one. */
  ghost predicate WaitPlace(s: seq<Elem>, es: set<Elem>, i: nat)
    reads es`next
  {
    i < |s| ==> s[i] in es && s[i].next == At(s, i + 1)
  }

  ghost predicate Wait(s: seq<Elem>, es: set<Elem>)
    reads es`next
  {
    Distinct(s) && forall i: nat {:trigger WaitPlace(s, es, i)} :: WaitPlace(s, es, i)
  }

  /** The ends of the list built so far. */
  predicate Ends(list: Elem?, tail: Elem?, done: seq<Elem>) {
    list == At(done, 0) && tail == At(done, |done| - 1)
  }

  /** The last statements of the merge loop: an element goes to the end of the list. */
  method Take(e: Elem, list: Elem?, tail: Elem?, ghost done: seq<Elem>, ghost es: set<Elem>) returns (first: Elem?)
    requires Done(done, es) && e !in es && Ends(list, tail, done)
    modifies es`next, e`prev
    ensures Done(done + [e], es + {e}) && Ends(first, e, done + [e])
    ensures forall x :: x in es && x !in done ==> x.next == old(x.next)
  {
    ghost var n := |done|;
    forall i: nat ensures i < n ==> done[i] != e {
      assert DonePlace(done, es, i);
    }
    assert n > 0 ==> DonePlace(done, es, n - 1);
    if tail != null {
      tail.next := e;
      first := list;
    } else {
      first := e;
    }
    e.prev := tail;
    DistinctAppend(done, e);
    forall i: nat ensures DonePlace(done + [e], es + {e}, i) {
      assert old(DonePlace(done, es, i)) && (n > 0 ==> Apart(done, i, n - 1));
    }
  }

  lemma {:induction false} MergeStep(s: seq<Elem>, i: nat, a: nat, j: nat, b: nat, cmp: (Elem, Elem) -> int)
    requires i <= a <= j <= b <= |s| && (i < a || j < b)
    ensures if i < a && (j == b || cmp(s[i], s[j]) <= 0)
            then Merge(s[i..a], s[j..b], cmp) == [s[i]] + Merge(s[i + 1..a], s[j..b], cmp)
            else j < b && Merge(s[i..a], s[j..b], cmp) == [s[j]] + Merge(s[i..a], s[j + 1..b], cmp)
  {
    if i < a {
      assert s[i..a][0] == s[i] && s[i..a][1..] == s[i + 1..a];
      assert s[i..a] == [s[i]] + s[i + 1..a];
    }
    if j < b {
      assert s[j..b][0] == s[j] && s[j..b][1..] == s[j + 1..b];
      assert s[j..b] == [s[j]] + s[j + 1..b];
    }
  }

  /** The choice of the next element, and the step past it. */
  method Choose(p: Elem?, q: Elem?, psize: nat, qsize: nat, cmp: (Elem, Elem) -> int)
    returns (fromFirst: bool, e: Elem, p1: Elem?, q1: Elem?, psize1: nat, qsize1: nat)
    requires psize > 0 ==> p != null
    requires psize > 0 || (qsize > 0 && q != null)
    ensures fromFirst <==> psize > 0 && (qsize == 0 || q == null || cmp(p, q) <= 0)
    ensures fromFirst ==> e == p && p1 == p.next && psize1 == psize - 1 && q1 == q && qsize1 == qsize
    ensures !fromFirst ==> q != null && qsize > 0 && e == q && q1 == q.next && qsize1 == qsize - 1 && p1 == p && psize1 == psize
  {
    p1, q1, psize1, qsize1 := p, q, psize, qsize;
    if psize == 0 {
      fromFirst, e, q1, qsize1 := false, q, q.next, qsize - 1;
    } else if qsize == 0 || q == null {
      fromFirst, e, p1, psize1 := true, p, p.next, psize - 1;
    } else if cmp(p, q) <= 0 {
      fromFirst, e, p1, psize1 := true, p, p.next, psize - 1;
    } else {
      fromFirst, e, q1, qsize1 := false, q, q.next, qsize - 1;
    }
  }

  /** The innermost loop: the first elements of the rest of the list, and the up to insize elements after them. */
  method MergeRuns(first: Elem?, second: Elem?, run: nat, insize: nat, cmp: (Elem, Elem) -> int, list0: Elem?, tail0: Elem?,
                   ghost s: seq<Elem>, ghost done0: seq<Elem>, ghost ds: set<Elem>, ghost es: set<Elem>)
    returns (list: Elem?, tail: Elem?, rest: Elem?, ghost done: seq<Elem>, ghost gone: set<Elem>, ghost left: set<Elem>)
    requires Wait(s, es) && Done(done0, ds) && ds !! es && Ends(list0, tail0, done0)
    requires 0 < run <= |s| && first == s[0] && second == At(s, run)
    modifies ds`next, es`next, es`prev
    ensures gone + left == ds + es && gone !! left && ds <= gone
    ensures var b := Min(run + insize, |s|);
            && done == done0 + Merge(s[..run], s[run..b], cmp) && rest == At(s, b)
            && Done(done, gone) && Ends(list, tail, done) && Wait(s[b..], left)
  {
    hide Merge, Done;
    var p, q: Elem? := first, second;
    var psize, qsize := run, insize;
    list, tail, done, gone, left := list0, tail0, done0, ds, es;
    ghost var b := Min(run + insize, |s|);
    ghost var i: nat, j: nat := 0, run;
    assert s[0..run] == s[..run];
    while psize > 0 || (qsize > 0 && q != null)
      invariant i <= run <= j <= b && psize == run - i && qsize == run + insize - j
      invariant (i < run ==> p == s[i]) && q == At(s, j)
      invariant done + Merge(s[i..run], s[j..b], cmp) == done0 + Merge(s[..run], s[run..b], cmp)
      invariant gone + left == ds + es && gone !! left && ds <= gone
      invariant Done(done, gone) && Ends(list, tail, done)
      invariant forall k: nat {:trigger WaitPlace(s, left, k)} :: (i <= k < run || j <= k) ==> WaitPlace(s, left, k)
      decreases run - i + b - j
    {
      assert (i < run ==> WaitPlace(s, left, i)) && WaitPlace(s, left, j);
      MergeStep(s, i, run, j, b, cmp);
      var fromFirst, e, p1, q1, psize1, qsize1 := Choose(p, q, psize, qsize, cmp);
      ghost var at := if fromFirst then i else j;
      ghost var i1, j1 := if fromFirst then i + 1 else i, if fromFirst then j else j + 1;
      label L:
      list := Take(e, list, tail, done, gone);
      AppendFirst(done, e, Merge(s[i1..run], s[j1..b], cmp));
      forall k: nat | i1 <= k < run || j1 <= k ensures WaitPlace(s, left - {e}, k) {
        assert old@L(WaitPlace(s, left, k)) && Apart(s, at, k) && Apart(s, k, at);
      }
      tail, p, q, psize, qsize, i, j := e, p1, q1, psize1, qsize1, i1, j1;
      done, gone, left := done + [e], gone + {e}, left - {e};
    }
    assert s[run..run] == [] && s[b..b] == [];
    WaitSlice(s, left, b);
    rest := q;
  }

  lemma {:induction false} AppendFirst(s: seq<Elem>, e: Elem, t: seq<Elem>)
    ensures s + ([e] + t) == (s + [e]) + t
  {
  }

  lemma {:induction false} WaitSlice(s: seq<Elem>, es: set<Elem>, b: nat)
    requires b <= |s| && Distinct(s)
    requires forall k: nat {:trigger WaitPlace(s, es, k)} :: b <= k ==> WaitPlace(s, es, k)
    ensures Wait(s[b..], es)
  {
    forall i: nat ensures WaitPlace(s[b..], es, i) {
      assert WaitPlace(s, es, b + i);
    }
    forall i: nat, j: nat ensures Apart(s[b..], i, j) {
      assert Apart(s, b + i, b + j);
    }
  }

  /** The loop that steps over one run. */
  method StepOver(p: Elem, insize: nat, ghost s: seq<Elem>, ghost es: set<Elem>) returns (q: Elem?, psize: nat)
    requires insize > 0 && s != [] && p == s[0] && Wait(s, es)
    ensures psize == Min(insize, |s|) && q == At(s, psize)
  {
    q, psize := p, 0;
    var i := 0;
    while i < insize
      invariant i <= insize && i < |s| && psize == i && q == s[i]
      decreases insize - i
    {
      assert WaitPlace(s, es, i);
      psize := psize + 1;
      q := q.next;
      if q == null {
        break;
      }
      i := i + 1;
    }
  }

  /** The body of the loop of a pass: two neighbouring runs of up to insize elements are merged. */
  method MergeBlock(p: Elem, insize: nat, cmp: (Elem, Elem) -> int, list0: Elem?, tail0: Elem?,
                    ghost s: seq<Elem>, ghost done0: seq<Elem>, ghost ds: set<Elem>, ghost es: set<Elem>)
    returns (list: Elem?, tail: Elem?, rest: Elem?, ghost done: seq<Elem>, ghost gone: set<Elem>, ghost left: set<Elem>)
    requires insize > 0 && s != [] && p == s[0]
    requires Wait(s, es) && Done(done0, ds) && ds !! es && Ends(list0, tail0, done0)
    modifies ds`next, es`next, es`prev
    ensures gone + left == ds + es && gone !! left && Done(done, gone) && Ends(list, tail, done)
    ensures var s1 := s[Min(2 * insize, |s|)..];
            && rest == At(s1, 0) && Wait(s1, left) && Merges(|s|, insize) == 1 + Merges(|s1|, insize)
            && done + Pass(s1, insize, cmp) == done0 + Pass(s, insize, cmp)
  {
    var q, psize := StepOver(p, insize, s, es);
    ghost var b := Min(2 * insize, |s|);
    AppendRuns(done0, Merge(s[..psize], s[psize..b], cmp), Pass(s[b..], insize, cmp));
    list, tail, rest, done, gone, left := MergeRuns(p, q, psize, insize, cmp, list0, tail0, s, done0, ds, es);
  }

  lemma {:induction false} AppendRuns(a: seq<Elem>, b: seq<Elem>, c: seq<Elem>)
    ensures a + (b + c) == (a + b) + c
  {
  }

  /** One pass of the sort. */
  method PassLinks(head: Elem, insize: nat, cmp: (Elem, Elem) -> int, ghost s: seq<Elem>, ghost es: set<Elem>)
    returns (list: Elem, tail: Elem, nmerges: nat)
    requires insize > 0 && s != [] && head == s[0] && Wait(s, es)
    modifies es`next, es`prev
    ensures var t := Pass(s, insize, cmp);
            Done(t, es) && Wait(t, es) && list == t[0] && tail == t[|t| - 1]
    ensures nmerges == Merges(|s|, insize)
  {
    var p, first, last: Elem? := head, null, null;
    nmerges := 0;
    ghost var t, total := Pass(s, insize, cmp), Merges(|s|, insize);
    ghost var done: seq<Elem>, rest: seq<Elem>, gone: set<Elem>, left: set<Elem> := [], s, {}, es;
    while p != null
      invariant p == At(rest, 0) && Ends(first, last, done)
      invariant gone + left == es && gone !! left
      invariant Wait(rest, left) && Done(done, gone)
      invariant done + Pass(rest, insize, cmp) == t
      invariant nmerges + Merges(|rest|, insize) == total
      decreases |rest|
    {
      nmerges := nmerges + 1;
      first, last, p, done, gone, left := MergeBlock(p, insize, cmp, first, last, rest, done, gone, left);
      rest := rest[Min(2 * insize, |rest|)..];
    }
    assert done + [] == done;
    list, tail := first, last;
    EndPass(tail, done, gone, es);
  }

  /** The statement after a pass, which ends the list. */
  method EndPass(tail: Elem, ghost done: seq<Elem>, ghost gone: set<Elem>, ghost es: set<Elem>)
    requires Done(done, gone) && done != [] && tail == done[|done| - 1] && gone <= es
    modifies es`next
    ensures Done(done, es) && Wait(done, es)
  {
    ghost var n := |done|;
    assert DonePlace(done, gone, n - 1);
    tail.next := null;
    forall i: nat ensures DonePlace(done, es, i) && WaitPlace(done, es, i) {
      assert old(DonePlace(done, gone, i)) && Apart(done, i, n - 1);
    }
  }

  /** All passes. */
  method SortLinks(head: Elem, cmp: (Elem, Elem) -> int, ghost s: seq<Elem>, ghost es: set<Elem>) returns (list: Elem, tail: Elem)
    requires s != [] && head == s[0] && Wait(s, es) && Done(s, es)
    modifies es`next, es`prev
    ensures var t := Sorted(s, cmp);
            Done(t, es) && Wait(t, es) && list == t[0] && tail == t[|t| - 1]
  {
    var insize, looping := 1, true;
    list, tail := head, head;
    ghost var cur := s;
    while looping
      invariant insize > 0 && |cur| == |s| && list == cur[0] && Wait(cur, es)
      invariant looping ==> Passes(cur, insize, cmp) == Sorted(s, cmp)
      invariant !looping ==> cur == Sorted(s, cmp) && Done(cur, es) && tail == cur[|cur| - 1]
      decreases looping, if |s| > insize then |s| - insize else 0
    {
      var nmerges;
      list, tail, nmerges := PassLinks(list, insize, cmp, cur, es);
      OneMergeIff(|cur|, insize);
      cur := Pass(cur, insize, cmp);
      if nmerges <= 1 {
        looping := false;
      }
      insize := insize * 2;
    }
  }

  /** The place of an element in a list. */
  ghost function RankIn(s: seq<Elem>): Elem -> nat {
    (e: Elem) => if e in s then (var i: nat :| i < |s| && s[i] == e; i) else 0
  }

  lemma {:induction false} RanksIncrease(s: seq<Elem>, i: nat, j: nat)
    requires Distinct(s) && i < j < |s|
    ensures RankIn(s)(s[i]) == i && RankIn(s)(s[j]) == j
  {
    assert Apart(s, RankIn(s)(s[i]), i) && Apart(s, i, RankIn(s)(s[i]));
    assert Apart(s, RankIn(s)(s[j]), j) && Apart(s, j, RankIn(s)(s[j]));
  }

  /** The loops of HASH_SRT on the list of the table, and its new ends. */
  method SortOrder(t: Table, cmp: (Elem, Elem) -> int)
    requires t.OrderOk() && t.EntriesOk() && t.head != null
    modifies t`head, t`tail, t`order, t`contents, t.elems`next, t.elems`prev
    ensures t.OrderOk() && t.EntriesOk() && t.head != null && t.order == Sorted(old(t.order), cmp)
  {
    ghost var s := t.order;
    SortedElements(s, cmp);
    forall i: nat ensures WaitPlace(s, t.elems, i) && DonePlace(s, t.elems, i) {
      assert OrderLinks(s, t.elems, i);
    }
    t.head, t.tail := SortLinks(t.head, cmp, s, t.elems);
    Reorder(t, Sorted(s, cmp));
  }

  /** HASH_SRT. The comparison does not change while the table is sorted, so it is a function of the two elements. */
  method Sort(t: Table, cmp: (Elem, Elem) -> int)
    requires t.Valid()
    modifies t`head, t`tail, t`order, t`contents, t.elems`next, t.elems`prev
    ensures t.Valid() && t.order == Sorted(old(t.order), cmp) && t.chains == old(t.chains)
    ensures multiset(t.order) == multiset(old(t.order))
    ensures Preorder(t.elems, cmp) ==> Ordered(t.order, cmp, RankIn(old(t.order)))
  {
    SortedElements(t.order, cmp);
    forall i: nat | i < |t.order| ensures t.order[i] in t.elems {
      assert OrderLinks(t.order, t.elems, i);
    }
    SortIsStable(t.order, t.elems, cmp);
    if t.head != null {
      SortOrder(t, cmp);
    }
  }

  /** The abstract state after the elements have been put in another order. */
  ghost method Reorder(t: Table, s: seq<Elem>)
    requires t.EntriesOk() && s != [] && Done(s, t.elems) && Wait(s, t.elems) && t.head == s[0] && t.tail == s[|s| - 1]
    requires multiset(s) == multiset(t.order)
    modifies t`order, t`contents
    ensures t.OrderOk() && t.EntriesOk() && t.order == s
  {
    ghost var was := t.order;
    SameLength(was, s);
    t.order := s;
    t.contents := seq(|s|, i requires 0 <= i < |s| reads s => Entry(s[i].key, s[i].data));
    forall i: nat ensures OrderLinks(s, t.elems, i) {
      assert WaitPlace(s, t.elems, i) && DonePlace(s, t.elems, i);
    }
    forall i: nat | i < |s| ensures t.EntryOk(i) {
      assert WaitPlace(s, t.elems, i);
      SameElements(was, s, s[i]);
      var j: nat :| j < |was| && was[j] == s[i];
      assert old(t.EntryOk(j));
    }
    forall e | e in t.elems ensures t.Placed(e) {
      assert old(t.Placed(e));
      SameElements(was, s, e);
    }
  }

  lemma {:induction false} SameLength(s: seq<Elem>, t: seq<Elem>)
    requires multiset(s) == multiset(t)
    ensures |s| == |t|
  {
    assert |multiset(s)| == |s| && |multiset(t)| == |t|;
  }

  lemma {:induction false} SortIsStable(s: seq<Elem>, es: set<Elem>, cmp: (Elem, Elem) -> int)
    requires Distinct(s) && forall i: nat {:trigger s[i]} :: i < |s| ==> s[i] in es
    ensures Preorder(es, cmp) ==> Ordered(Sorted(s, cmp), cmp, RankIn(s))
  {
    if Preorder(es, cmp) {
      forall x | x in s ensures x in es {
        var i: nat :| i < |s| && s[i] == x;
      }
      forall i, j | 0 <= i < j < |s| ensures RankIn(s)(s[i]) < RankIn(s)(s[j]) {
        RanksIncrease(s, i, j);
      }
      SortedIsStable(s, cmp, RankIn(s), es);
    }
  }
}
