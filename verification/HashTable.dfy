/**
 The hash table: a list of all elements in insertion order and one chain per bucket, threaded through the same
 elements, with the number of buckets doubling when a chain gets long. The table without elements has no buckets and a
 null head.
 */
module HashTable {
  import opened HashBuckets
  import opened HashLinks
  import opened OrderedMap
  import opened Sequences

  const INITIAL_NUM_BUCKETS: nat := 32
  const INITIAL_LOG2: nat := 5
  const CAPACITY_THRESH: nat := 10

  class Table {
    const hash: Key -> nat
    var head: Elem?
    var tail: Elem?
    var log2: nat
    var buckets: array<Bucket>
    var numItems: nat
    var ideal: nat
    var nonideal: nat
    var ineffExpands: nat
    var noexpand: bool
    /** All elements, in insertion order, and what they hold. */
    ghost var order: seq<Elem>
    ghost var elems: set<Elem>
    ghost var contents: seq<Entry>
    /** The bucket chains. */
    ghost var chains: seq<seq<Elem>>

    // ---- the invariant

    ghost predicate OrderOk()
      reads this`head, this`tail, this`order, this`elems, elems`next, elems`prev
    {
      && (forall i: nat {:trigger OrderLinks(order, elems, i)} :: OrderLinks(order, elems, i))
      && Distinct(order)
      && head == At(order, 0) && (order != [] ==> tail == At(order, |order| - 1))
    }

    ghost predicate EntryOk(i: nat)
      reads this`order, this`elems, this`contents, elems`data
    {
      i < |order| && i < |contents| ==>
        order[i] in elems && contents[i] == Entry(order[i].key, order[i].data) && order[i].hashv == hash(order[i].key)
    }

    ghost predicate Placed(e: Elem)
      reads this`order
    {
      e in order
    }

    ghost predicate EntriesOk()
      reads this`order, this`elems, this`contents, elems`data
    {
      && |contents| == |order|
      && (forall i: nat {:trigger EntryOk(i)} :: EntryOk(i))
      && (forall e {:trigger Placed(e)} :: e in elems ==> Placed(e))
    }

    /** The buckets hold the elements of a set, and count them. */
    ghost predicate BucketsOk(es: set<Elem>)
      reads this`chains, this`buckets, this`log2, buckets, es`hhNext, es`hhPrev
    {
      && buckets.Length == Pow2(log2)
      && HeadsOk(buckets, chains) && Linked(chains, es) && AllOnChain(chains, es) && CountsOk(buckets, chains)
    }

    /** What HASH_FSCK checks: bucket chains, back links, bucket counts and their sum, the list of all elements with its
        back links, tail and length. */
    ghost predicate Valid()
      reads this, buckets, elems
    {
      && OrderOk() && EntriesOk()
      && (head != null ==> BucketsOk(elems) && numItems == Total(chains) == |order|)
    }

    constructor (hash: Key -> nat)
      ensures Valid() && this.hash == hash && contents == [] && elems == {} && fresh(buckets)
    {
      this.hash := hash;
      head, tail, order, elems, contents, chains := null, null, [], {}, [], [];
      buckets := new Bucket[0];
    }

    // ---- the list of all elements

    method AppendToOrder(add: Elem)
      requires OrderOk() && add !in elems
      modifies this`head, this`tail, this`order, this`elems, elems`next, add`next, add`prev
      ensures OrderOk() && order == old(order) + [add] && elems == old(elems) + {add}
    {
      ghost var was, n := order, |order|;
      forall i: nat ensures i < n ==> was[i] != add {
        assert OrderLinks(order, elems, i);
      }
      assert n > 0 ==> OrderLinks(order, elems, n - 1);
      add.next := null;
      if head == null {
        head := add;
        add.prev := null;
        tail := add;
      } else {
        tail.next := add;
        add.prev := tail;
        tail := add;
      }
      order, elems := order + [add], elems + {add};
      DistinctAppend(was, add);
      forall i: nat ensures OrderLinks(order, elems, i) {
        assert old(OrderLinks(order, elems, i)) && (n > 0 ==> Apart(was, i, n - 1));
      }
    }

    method UnlinkFromOrder(del: Elem, ghost p: nat)
      requires OrderOk() && p < |order| && order[p] == del && |order| > 1
      modifies this`head, this`tail, this`order, this`elems, elems`next, elems`prev
      ensures OrderOk() && elems == old(elems) - {del} && order == RemoveAt(old(order), p)
    {
      ghost var was, n := order, |order|;
      assert OrderLinks(order, elems, p) && OrderLinks(order, elems, p + 1);
      assert p > 0 ==> OrderLinks(order, elems, p - 1);
      assert Apart(was, p, n - 1);
      if del == tail {
        tail := del.prev;
      }
      if del.prev != null {
        del.prev.next := del.next;
      } else {
        head := del.next;
      }
      if del.next != null {
        del.next.prev := del.prev;
      }
      order, elems := RemoveAt(order, p), elems - {del};
      DistinctRemove(was, p);
      forall i: nat ensures OrderLinks(order, elems, i) {
        ghost var j := if i < p then i else i + 1;
        assert old(OrderLinks(order, elems, j));
        assert Apart(was, j, p) && Apart(was, p, j);
        assert p > 0 ==> Apart(was, j, p - 1) && Apart(was, p - 1, j);
        assert Apart(was, j, p + 1) && Apart(was, p + 1, j);
      }
    }

    // ---- adding

    /** HASH_MAKE_TABLE. */
    method MakeTable()
      modifies this`log2, this`buckets, this`numItems, this`ideal, this`nonideal, this`ineffExpands, this`noexpand, this`chains
      ensures fresh(buckets) && BucketsOk({}) && numItems == Total(chains) == 0 && !noexpand && ineffExpands == 0
      ensures buckets.Length == 32
    {
      numItems, ideal, nonideal, ineffExpands, noexpand := 0, 0, 0, 0, false;
      log2 := INITIAL_LOG2;
      buckets := new Bucket[INITIAL_NUM_BUCKETS](_ => Bucket(null, 0, 0));
      chains := seq(INITIAL_NUM_BUCKETS, _ => []);
      ExcessOfEmpty(chains, 0);
      assert Pow2(5) == 32 by {
        assert Pow2(3) == 8 && Pow2(4) == 16;
      }
    }

    /** HASH_EXPAND_BUCKETS. The ideal chain length is the ceiling of items over new buckets; the table counts the items
        beyond it, and gives up expanding after two expansions in a row that left more than half of the items there. */
    method ExpandBuckets()
      requires BucketsOk(elems) && numItems == Total(chains) && numItems > 0
      modifies this`log2, this`buckets, this`ideal, this`nonideal, this`ineffExpands, this`noexpand, this`chains
      modifies elems`hhNext, elems`hhPrev
      ensures BucketsOk(elems) && numItems == Total(chains) && fresh(buckets)
      ensures buckets.Length == 2 * old(buckets.Length) && ideal == IdealLength(numItems, log2)
      ensures nonideal == Excess(chains, ideal)
      ensures ideal > 0 && TalliesOk(buckets, chains, ideal)
      ensures ineffExpands == if nonideal > numItems / 2 then old(ineffExpands) + 1 else 0
      ensures noexpand == (old(noexpand) || ineffExpands > 1)
    {
      hide Linked, HeadsOk, AllOnChain;
      assert Pow2(log2 + 1) == 2 * buckets.Length;
      ideal := ShiftRight(numItems, log2 + 1) + if BitAnd(numItems, buckets.Length * 2 - 1) != 0 then 1 else 0;
      IdealIsPositive(numItems, log2 + 1);
      var bs, out, after := Redistribute(buckets, ideal, chains, elems);
      TalliesCount(bs, after, ideal);
      nonideal := out;
      log2 := log2 + 1;
      buckets, chains := bs, after;
      NoteExpansion();
    }

    /** The end of it: an expansion that left more than half of the items beyond the ideal length is ineffective. */
    method NoteExpansion()
      modifies this`ineffExpands, this`noexpand
      ensures ineffExpands == if nonideal > numItems / 2 then old(ineffExpands) + 1 else 0
      ensures noexpand == (old(noexpand) || ineffExpands > 1)
    {
      ShiftByOne(numItems);
      ineffExpands := if nonideal > ShiftRight(numItems, 1) then ineffExpands + 1 else 0;
      if ineffExpands > 1 {
        noexpand := true;
      }
    }

    /** HASH_ADD_TO_BKT: the buckets double if the chain of the element gets ten long, or that times the delay factor of its
        bucket plus one, and expansion is still allowed. */
    method AddToBucket(add: Elem)
      requires add in elems && BucketsOk(elems - {add}) && numItems == Total(chains) + 1
      modifies this`log2, this`buckets, this`ideal, this`nonideal, this`ineffExpands, this`noexpand, this`chains
      modifies buckets, elems`hhNext, elems`hhPrev
      ensures BucketsOk(elems) && numItems == Total(chains)
      ensures var b := ToBucket(add.hashv, old(buckets.Length));
              if |old(chains)[b]| + 1 >= (old(buckets[b].expandMult) + 1) * 10 && !old(noexpand) then
                fresh(buckets) && buckets.Length == 2 * old(buckets.Length)
              else
                buckets == old(buckets) && noexpand == old(noexpand) && chains == old(chains)[b := old(chains)[b] + [add]]
    {
      ghost var es := elems - {add};
      var b := ToBucket(add.hashv, buckets.Length);
      assert CountOk(buckets, chains, b);
      buckets[b] := buckets[b].(count := buckets[b].count + 1);
      forall i: nat ensures HeadOk(buckets, chains, i) {
        assert old(HeadOk(buckets, chains, i));
      }
      ghost var after := chains[b := chains[b] + [add]];
      forall i: nat ensures CountOk(buckets, after, i) {
        assert old(CountOk(buckets, chains, i));
      }
      label L:
      LinkHead(buckets, b, add, chains, es);
      forall i: nat ensures CountOk(buckets, after, i) {
        assert old@L(CountOk(buckets, after, i));
      }
      OnChainAfterLink(chains, es, add, b);
      ExcessUpdate(chains, b, after[b], 0);
      chains := after;
      assert es + {add} == elems;
      if buckets[b].count >= (buckets[b].expandMult + 1) * CAPACITY_THRESH && !noexpand {
        ExpandBuckets();
      }
    }

    /** The part of HASH_ADD_KEYPTR that puts the element at the end of the list. */
    method Append(add: Elem)
      requires OrderOk() && EntriesOk() && add !in elems && add.hashv == hash(add.key)
      modifies this`head, this`tail, this`order, this`elems, this`contents, elems`next, add`next, add`prev
      ensures OrderOk() && EntriesOk()
      ensures order == old(order) + [add] && elems == old(elems) + {add}
      ensures contents == old(contents) + [Entry(add.key, add.data)]
    {
      AppendToOrder(add);
      contents := contents + [Entry(add.key, add.data)];
      forall i: nat ensures EntryOk(i) {
        assert old(EntryOk(i));
      }
      forall e | e in elems ensures Placed(e) {
        assert order[|order| - 1] == add;
        assert e != add ==> old(Placed(e));
      }
    }

    lemma {:induction false} NoElements()
      requires EntriesOk() && order == []
      ensures elems == {}
    {
      assert forall e :: e in elems ==> Placed(e);
    }

    /** The first branch of HASH_ADD_KEYPTR: the table is made for its first element. */
    method EnsureTable()
      requires Valid()
      modifies this`log2, this`buckets, this`numItems, this`ideal, this`nonideal, this`ineffExpands, this`noexpand, this`chains
      ensures OrderOk() && EntriesOk() && BucketsOk(elems) && numItems == Total(chains) == |order|
      ensures buckets == old(buckets) || fresh(buckets)
    {
      if head == null {
        NoElements();
        MakeTable();
      }
    }

    /** HASH_ADD_KEYPTR, with the allocation of the element that goes before it. */
    method AddKeyPtr(key: Key, data: int) returns (add: Elem)
      requires Valid()
      modifies this, buckets, elems
      ensures Valid() && fresh(add) && (buckets == old(buckets) || fresh(buckets))
      ensures order == old(order) + [add] && elems == old(elems) + {add}
      ensures contents == old(contents) + [Entry(key, data)]
    {
      add := new Elem(key, hash(key), data);
      EnsureTable();
      LinkElem(add);
    }

    /** The rest of it: the element goes to the end of the list and on its chain, and is counted. */
    method LinkElem(add: Elem)
      requires OrderOk() && EntriesOk() && BucketsOk(elems) && numItems == Total(chains) == |order|
      requires add !in elems && add.hashv == hash(add.key)
      modifies this, buckets, elems, add
      ensures Valid() && (buckets == old(buckets) || fresh(buckets)) && add.data == old(add.data)
      ensures order == old(order) + [add] && elems == old(elems) + {add}
      ensures contents == old(contents) + [Entry(add.key, add.data)]
    {
      Append(add);
      numItems := numItems + 1;
      assert elems - {add} == old(elems);
      AddToBucket(add);
    }

    // ---- finding and deleting

    lemma {:induction false} PlaceInOrder(e: Elem) returns (p: nat)
      requires EntriesOk() && e in elems
      ensures p < |order| && order[p] == e && contents[p] == Entry(e.key, e.data)
    {
      assert Placed(e);
      p :| 0 <= p < |order| && order[p] == e;
      assert EntryOk(p);
    }

    lemma {:induction false} AtPlace(p: nat)
      requires EntriesOk() && p < |order|
      ensures contents[p] == Entry(order[p].key, order[p].data)
    {
      assert EntryOk(p);
    }

    /** HASH_FIND: an element with the key if and only if there is one. */
    method Find(key: Key) returns (out: Elem?)
      requires Valid()
      ensures out == null <==> !HasKey(contents, key)
      ensures out != null ==> out in elems && out.key == key
    {
      out := null;
      if head != null {
        var b := ToBucket(hash(key), buckets.Length);
        assert HeadOk(buckets, chains, b);
        out := FindInBucket(buckets[b].hhHead, key, b, chains, elems);
        if out == null {
          forall i: nat ensures !AtKey(contents, key, i) {
            assert OrderLinks(order, elems, i) && EntryOk(i);
            if i < |order| && order[i].hashv == hash(key) {
              AbsentFromChain(chains, elems, order[i], key, b);
            }
          }
        } else {
          ghost var p := PlaceInOrder(out);
          assert AtKey(contents, key, p);
        }
      }
    }

    /** The list part of HASH_DELETE. */
    method Unlink(del: Elem, ghost p: nat)
      requires OrderOk() && EntriesOk() && p < |order| && order[p] == del && |order| > 1
      modifies this`head, this`tail, this`order, this`elems, this`contents, elems`next, elems`prev
      ensures OrderOk() && EntriesOk() && head != null
      ensures elems == old(elems) - {del} && order == RemoveAt(old(order), p)
      ensures contents == RemoveAt(old(contents), p)
    {
      ghost var was := order;
      DistinctRemove(was, p);
      UnlinkFromOrder(del, p);
      contents := RemoveAt(contents, p);
      forall i: nat ensures EntryOk(i) {
        assert old(EntryOk(if i < p then i else i + 1));
        assert OrderLinks(order, elems, i);
      }
      forall e | e in elems ensures Placed(e) {
        assert old(Placed(e));
        InRemoveAt(was, p, e);
      }
    }

    /** The bucket part of HASH_DELETE. */
    method DeleteFromBucket(del: Elem)
      requires BucketsOk(elems + {del}) && del !in elems && numItems == Total(chains)
      modifies this`chains, this`numItems, buckets, elems`hhNext, elems`hhPrev, del`hhNext, del`hhPrev
      ensures BucketsOk(elems) && numItems == Total(chains) == old(numItems) - 1
    {
      ghost var es := elems + {del};
      var b := ToBucket(del.hashv, buckets.Length);
      assert OnChain(chains, del);
      ghost var s: nat :| s < |chains[b]| && chains[b][s] == del;
      ghost var after := chains[b := RemoveAt(chains[b], s)];
      assert CountOk(buckets, chains, b);
      buckets[b] := buckets[b].(count := buckets[b].count - 1);
      forall i: nat ensures HeadOk(buckets, chains, i) {
        assert old(HeadOk(buckets, chains, i));
      }
      forall i: nat ensures CountOk(buckets, after, i) {
        assert old(CountOk(buckets, chains, i));
      }
      label L:
      UnlinkFromChain(buckets, b, del, s, chains, es);
      forall i: nat ensures CountOk(buckets, after, i) {
        assert old@L(CountOk(buckets, after, i));
      }
      OnChainAfterUnlink(chains, es, b, s);
      ExcessUpdate(chains, b, after[b], 0);
      chains := after;
      assert es - {del} == elems;
      numItems := numItems - 1;
    }

    /** HASH_DELETE. Deleting the last element frees the table. */
    method Delete(del: Elem, ghost p: nat)
      requires Valid() && p < |order| && order[p] == del
      modifies this, buckets, elems
      ensures Valid() && buckets == old(buckets)
      ensures elems == old(elems) - {del} && order == RemoveAt(old(order), p)
      ensures contents == RemoveAt(old(contents), p)
    {
      assert OrderLinks(order, elems, p);
      if del.prev == null && del.next == null {
        head := null;
        order, elems, contents := [], {}, [];
        assert elems == old(elems) - {del} by {
          assert old(forall e :: e in elems ==> Placed(e));
        }
      } else {
        Unlink(del, p);
        assert elems + {del} == old(elems);
        DeleteFromBucket(del);
      }
    }

    /** The loop of hash_clear over HASH_ITER, which deletes each element after reading its successor. */
    method Clear()
      requires Valid()
      modifies this, buckets, elems
      ensures Valid() && contents == [] && buckets == old(buckets) && head == null && elems == {}
    {
      var element, tmp := head, null;
      if head != null {
        assert OrderLinks(order, elems, 0);
        tmp := head.next;
      }
      while element != null
        invariant Valid() && buckets == old(buckets) && elems <= old(elems)
        invariant element == At(order, 0) && tmp == At(order, 1)
        decreases |order|
      {
        Delete(element, 0);
        element := tmp;
        assert OrderLinks(order, elems, 0);
        tmp := if tmp != null then tmp.next else null;
      }
      NoElements();
    }
  }
}
