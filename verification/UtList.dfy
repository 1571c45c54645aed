/**
 The list macros of utlist.h on the links of elements: doubly linked lists, whose head points back at the tail, and
 singly linked lists.
 */
module UtList {
  import opened HashLinks
  import opened HashSort
  import opened MergeSort
  import opened OrderedMap
  import opened Sequences

  /** The element at place i of a doubly linked list: the back link of the first one is the last one. */
  ghost predicate DlPlace(order: seq<Elem>, es: set<Elem>, i: nat)
    reads es`next, es`prev
  {
    i < |order| ==>
      && order[i] in es && order[i].next == At(order, i + 1)
      && order[i].prev == if i == 0 then order[|order| - 1] else order[i - 1]
  }

  class DList {
    var head: Elem?
    ghost var order: seq<Elem>
    ghost var elems: set<Elem>

    constructor ()
      ensures Valid() && order == [] && elems == {}
    {
      head, order, elems := null, [], {};
    }

    ghost predicate Valid()
      reads this, elems`next, elems`prev
    {
      && (forall i: nat {:trigger DlPlace(order, elems, i)} :: DlPlace(order, elems, i))
      && Distinct(order) && head == At(order, 0)
    }

    /** DL_APPEND2. */
    method Append(add: Elem)
      requires Valid() && add !in elems
      modifies this, elems`next, elems`prev, add`next, add`prev
      ensures Valid() && order == old(order) + [add] && elems == old(elems) + {add}
    {
      ghost var was, n := order, |order|;
      forall i: nat ensures i < n ==> was[i] != add {
        assert DlPlace(was, elems, i);
      }
      assert n > 0 ==> DlPlace(was, elems, n - 1) && DlPlace(was, elems, 0);
      if head != null {
        add.prev := head.prev;
        head.prev.next := add;
        head.prev := add;
        add.next := null;
      } else {
        head := add;
        head.prev := head;
        head.next := null;
      }
      order, elems := order + [add], elems + {add};
      DistinctAppend(was, add);
      forall i: nat ensures DlPlace(order, elems, i) {
        assert old(DlPlace(order, elems, i)) && (n > 0 ==> Apart(was, i, n - 1) && Apart(was, 0, i));
      }
    }

    /** DL_DELETE2. */
    method Delete(del: Elem, ghost p: nat)
      requires Valid() && p < |order| && order[p] == del
      modifies this, elems`next, elems`prev
      ensures Valid() && order == RemoveAt(old(order), p) && elems == old(elems) - {del}
    {
      ghost var was, n := order, |order|;
      assert DlPlace(was, elems, p) && DlPlace(was, elems, p + 1) && DlPlace(was, elems, 0);
      assert p > 0 ==> DlPlace(was, elems, p - 1) && Apart(was, p - 1, p) && Apart(was, 0, p);
      assert Apart(was, p, n - 1) && Apart(was, 0, n - 1);
      if del.prev == del {
        head := null;
      } else if del == head {
        del.next.prev := del.prev;
        head := del.next;
      } else {
        del.prev.next := del.next;
        if del.next != null {
          del.next.prev := del.prev;
        } else {
          head.prev := del.prev;
        }
      }
      order, elems := RemoveAt(was, p), elems - {del};
      DistinctRemove(was, p);
      forall i: nat ensures DlPlace(order, elems, i) {
        ghost var j := if i < p then i else i + 1;
        assert old(DlPlace(order, elems, j));
        assert Apart(was, j, p) && Apart(was, p, j) && Apart(was, 0, j);
        assert p > 0 ==> Apart(was, j, p - 1) && Apart(was, p - 1, j);
        assert Apart(was, j, p + 1) && Apart(was, p + 1, j);
      }
    }

    /** DL_SORT2: as HASH_SRT, but every pass points the head back at the tail. */
    method Sort(cmp: (Elem, Elem) -> int)
      requires Valid()
      modifies this`head, this`order, elems`next, elems`prev
      ensures Valid() && order == Sorted(old(order), cmp)
      ensures multiset(order) == multiset(old(order))
      ensures Preorder(elems, cmp) ==> Ordered(order, cmp, RankIn(old(order)))
    {
      SortedElements(order, cmp);
      forall i: nat ensures WaitPlace(order, elems, i) {
        assert DlPlace(order, elems, i);
      }
      forall i: nat | i < |order| ensures order[i] in elems {
        assert DlPlace(order, elems, i);
      }
      SortIsStable(order, elems, cmp);
      if head != null {
        head := DlPasses(head, cmp, order, elems);
        order := Sorted(order, cmp);
      }
    }
  }

  /** The pass loop of DL_SORT2. */
  method DlPasses(head: Elem, cmp: (Elem, Elem) -> int, ghost s: seq<Elem>, ghost es: set<Elem>) returns (list: Elem)
    requires s != [] && head == s[0] && Wait(s, es)
    modifies es`next, es`prev
    ensures var t := Sorted(s, cmp);
            Distinct(t) && list == t[0] && forall i: nat {:trigger DlPlace(t, es, i)} :: DlPlace(t, es, i)
  {
    var insize, looping := 1, true;
    list := head;
    ghost var cur := s;
    while looping
      invariant insize > 0 && |cur| == |s| && list == cur[0] && Wait(cur, es)
      invariant looping ==> Passes(cur, insize, cmp) == Sorted(s, cmp)
      invariant !looping ==> cur == Sorted(s, cmp) && forall i: nat {:trigger DlPlace(cur, es, i)} :: DlPlace(cur, es, i)
      decreases looping, if |s| > insize then |s| - insize else 0
    {
      var tail, nmerges;
      list, tail, nmerges := PassLinks(list, insize, cmp, cur, es);
      OneMergeIff(|cur|, insize);
      cur := Pass(cur, insize, cmp);
      TieBack(list, tail, cur, es);
      if nmerges <= 1 {
        looping := false;
      }
      insize := insize * 2;
    }
  }

  method TieBack(list: Elem, tail: Elem, ghost t: seq<Elem>, ghost es: set<Elem>)
    requires Done(t, es) && Wait(t, es) && t != [] && list == t[0] && tail == t[|t| - 1]
    modifies es`prev
    ensures Wait(t, es) && forall i: nat {:trigger DlPlace(t, es, i)} :: DlPlace(t, es, i)
  {
    assert DonePlace(t, es, 0);
    list.prev := tail;
    forall i: nat ensures DlPlace(t, es, i) && WaitPlace(t, es, i) {
      assert old(DonePlace(t, es, i)) && old(WaitPlace(t, es, i)) && Apart(t, 0, i);
    }
  }

  /** A singly linked list: only the next links count. */
  class LList {
    var head: Elem?
    ghost var order: seq<Elem>
    ghost var elems: set<Elem>

    constructor ()
      ensures Valid() && order == [] && elems == {}
    {
      head, order, elems := null, [], {};
    }

    ghost predicate Valid()
      reads this, elems`next
    {
      Wait(order, elems) && head == At(order, 0)
    }

    /** LL_PREPEND2. */
    method Prepend(add: Elem)
      requires Valid() && add !in elems
      modifies this, add`next
      ensures Valid() && order == [add] + old(order) && elems == old(elems) + {add}
    {
      ghost var was := order;
      forall i: nat ensures i < |was| ==> was[i] != add {
        assert WaitPlace(was, elems, i);
      }
      add.next := head;
      head := add;
      order, elems := [add] + was, elems + {add};
      forall i: nat ensures WaitPlace(order, elems, i) {
        assert i > 0 ==> old(WaitPlace(order, elems, i - 1));
      }
      forall i: nat, j: nat ensures Apart(order, i, j) {
        assert 0 < i < j ==> Apart(was, i - 1, j - 1);
      }
    }

    /** LL_DELETE2: the element before the deleted one is searched for from the head. */
    method Delete(del: Elem, ghost p: nat)
      requires Valid() && p < |order| && order[p] == del
      modifies this, elems`next
      ensures Valid() && order == RemoveAt(old(order), p) && elems == old(elems) - {del}
    {
      ghost var was := order;
      assert WaitPlace(was, elems, p) && WaitPlace(was, elems, 0) && Apart(was, 0, p);
      if head == del {
        head := head.next;
      } else {
        var tmp := head;
        ghost var k: nat := 0;
        while tmp.next != null && tmp.next != del
          invariant k < p && tmp == was[k]
          decreases p - k
        {
          assert WaitPlace(was, elems, k) && Apart(was, k + 1, p);
          tmp := tmp.next;
          k := k + 1;
        }
        assert WaitPlace(was, elems, k) && Apart(was, k + 1, p);
        if tmp.next != null {
          tmp.next := del.next;
        }
      }
      order, elems := RemoveAt(was, p), elems - {del};
      DistinctRemove(was, p);
      forall i: nat ensures WaitPlace(order, elems, i) {
        ghost var j := if i < p then i else i + 1;
        assert old(WaitPlace(order, elems, j)) && Apart(was, j, p) && Apart(was, p, j);
        assert p > 0 ==> Apart(was, j, p - 1) && Apart(was, p - 1, j);
      }
    }

    /** LL_SORT2: the passes of DL_SORT2. The back links that the pass writes are no part of a singly linked list. */
    method Sort(cmp: (Elem, Elem) -> int)
      requires Valid()
      modifies this`head, this`order, elems`next, elems`prev
      ensures Valid() && order == Sorted(old(order), cmp)
      ensures multiset(order) == multiset(old(order))
      ensures Preorder(elems, cmp) ==> Ordered(order, cmp, RankIn(old(order)))
    {
      SortedElements(order, cmp);
      forall i: nat | i < |order| ensures order[i] in elems {
        assert WaitPlace(order, elems, i);
      }
      SortIsStable(order, elems, cmp);
      if head != null {
        head := LlPasses(head, cmp, order, elems);
        order := Sorted(order, cmp);
      }
    }
  }

  /** The pass loop of LL_SORT2. */
  method LlPasses(head: Elem, cmp: (Elem, Elem) -> int, ghost s: seq<Elem>, ghost es: set<Elem>) returns (list: Elem)
    requires s != [] && head == s[0] && Wait(s, es)
    modifies es`next, es`prev
    ensures Sorted(s, cmp) != [] && list == Sorted(s, cmp)[0] && Wait(Sorted(s, cmp), es)
  {
    var insize, looping := 1, true;
    list := head;
    ghost var cur := s;
    while looping
      invariant insize > 0 && |cur| == |s| && list == cur[0] && Wait(cur, es)
      invariant if looping then Passes(cur, insize, cmp) == Sorted(s, cmp) else cur == Sorted(s, cmp)
      decreases looping, if |s| > insize then |s| - insize else 0
    {
      var tail, nmerges;
      list, tail, nmerges := PassLinks(list, insize, cmp, cur, es);
      OneMergeIff(|cur|, insize);
      cur := Pass(cur, insize, cmp);
      if nmerges <= 1 {
        looping := false;
      }
      insize := insize * 2;
    }
  }
}
