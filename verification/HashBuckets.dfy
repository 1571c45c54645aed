/**
 The bucket chains of a hash table: pushing an element on a chain and taking one off, on an array of buckets.
 */
module HashBuckets {
  import opened HashLinks
  import opened OrderedMap
  import opened Sequences

  datatype Bucket = Bucket(hhHead: Elem?, count: nat, expandMult: nat)

  /** Place k of chain b: the links are right, and the element is on the chain that its hash value selects. */
  ghost predicate ChainPlace(chains: seq<seq<Elem>>, es: set<Elem>, b: nat, k: nat)
    reads es`hhNext, es`hhPrev
  {
    b < |chains| && k < |chains[b]| ==> ChainLinks(chains[b], es, k) && ToBucket(chains[b][k].hashv, |chains|) == b
  }

  ghost predicate Linked(chains: seq<seq<Elem>>, es: set<Elem>)
    reads es`hhNext, es`hhPrev
  {
    forall b: nat, k: nat {:trigger ChainPlace(chains, es, b, k)} :: ChainPlace(chains, es, b, k)
  }

  ghost predicate OnChain(chains: seq<seq<Elem>>, e: Elem) {
    |chains| > 0 && e in chains[ToBucket(e.hashv, |chains|)]
  }

  ghost predicate AllOnChain(chains: seq<seq<Elem>>, es: set<Elem>) {
    forall e {:trigger OnChain(chains, e)} :: e in es ==> OnChain(chains, e)
  }

  ghost predicate HeadOk(bs: array<Bucket>, chains: seq<seq<Elem>>, b: nat)
    reads bs
  {
    b < |chains| && b < bs.Length ==> bs[b].hhHead == At(chains[b], |chains[b]| - 1) && Distinct(chains[b])
  }

  ghost predicate HeadsOk(bs: array<Bucket>, chains: seq<seq<Elem>>)
    reads bs
  {
    |chains| == bs.Length && forall b: nat {:trigger HeadOk(bs, chains, b)} :: HeadOk(bs, chains, b)
  }

  ghost predicate SameButHead(x: Bucket, y: Bucket) {
    x.count == y.count && x.expandMult == y.expandMult
  }

  lemma {:induction false} NotOnChain(chains: seq<seq<Elem>>, es: set<Elem>, b: nat, add: Elem)
    requires Linked(chains, es) && add !in es && b < |chains|
    ensures add !in chains[b]
  {
    forall k: nat | k < |chains[b]| ensures chains[b][k] != add {
      assert ChainPlace(chains, es, b, k);
    }
  }

  /** The linking statements of HASH_ADD_TO_BKT and HASH_EXPAND_BUCKETS. */
  method LinkHead(bs: array<Bucket>, b: nat, add: Elem, ghost chains: seq<seq<Elem>>, ghost es: set<Elem>)
    requires Linked(chains, es) && HeadsOk(bs, chains)
    requires add !in es && b < bs.Length && b == ToBucket(add.hashv, bs.Length)
    modifies bs, es`hhPrev, add`hhNext, add`hhPrev
    ensures Linked(chains[b := chains[b] + [add]], es + {add})
    ensures HeadsOk(bs, chains[b := chains[b] + [add]])
    ensures forall i: nat :: i < bs.Length ==> SameButHead(bs[i], old(bs[i]))
  {
    ghost var chain, n := chains[b], |chains[b]|;
    assert HeadOk(bs, chains, b) && (n > 0 ==> ChainPlace(chains, es, b, n - 1));
    NotOnChain(chains, es, b, add);
    add.hhNext := bs[b].hhHead;
    add.hhPrev := null;
    if bs[b].hhHead != null {
      bs[b].hhHead.hhPrev := add;
    }
    bs[b] := bs[b].(hhHead := add);
    DistinctAppend(chain, add);
    ghost var after := chains[b := chain + [add]];
    forall i: nat ensures HeadOk(bs, after, i) {
      assert old(HeadOk(bs, chains, i));
    }
    forall i: nat, k: nat ensures ChainPlace(after, es + {add}, i, k) {
      assert old(ChainPlace(chains, es, i, k));
      assert n > 0 ==> Apart(chain, k, n - 1);
    }
  }

  /** The statements of HASH_DEL_IN_BKT that relink the neighbours. */
  method RelinkNeighbours(del: Elem, ghost b: nat, ghost s: nat, ghost chains: seq<seq<Elem>>, ghost es: set<Elem>)
    requires Linked(chains, es) && b < |chains| && s < |chains[b]| && chains[b][s] == del && Distinct(chains[b])
    modifies es`hhNext, es`hhPrev
    ensures Linked(chains[b := RemoveAt(chains[b], s)], es - {del})
  {
    ghost var chain := chains[b];
    assert ChainPlace(chains, es, b, s) && ChainPlace(chains, es, b, s + 1);
    assert s > 0 ==> ChainPlace(chains, es, b, s - 1);
    if del.hhPrev != null {
      del.hhPrev.hhNext := del.hhNext;
    }
    if del.hhNext != null {
      del.hhNext.hhPrev := del.hhPrev;
    }
    ghost var after := chains[b := RemoveAt(chain, s)];
    forall i: nat, k: nat ensures ChainPlace(after, es - {del}, i, k) {
      ghost var j := if i == b && s <= k then k + 1 else k;
      assert old(ChainPlace(chains, es, i, j));
      assert Apart(chain, j, s) && Apart(chain, s, j);
      assert s > 0 ==> Apart(chain, j, s - 1) && Apart(chain, s - 1, j);
      assert Apart(chain, j, s + 1) && Apart(chain, s + 1, j);
    }
  }

  /** The linking statements of HASH_DEL_IN_BKT. */
  method UnlinkFromChain(bs: array<Bucket>, b: nat, del: Elem, ghost s: nat, ghost chains: seq<seq<Elem>>, ghost es: set<Elem>)
    requires Linked(chains, es) && HeadsOk(bs, chains)
    requires b < bs.Length && s < |chains[b]| && chains[b][s] == del
    modifies bs, es`hhNext, es`hhPrev
    ensures Linked(chains[b := RemoveAt(chains[b], s)], es - {del})
    ensures HeadsOk(bs, chains[b := RemoveAt(chains[b], s)])
    ensures forall i: nat :: i < bs.Length ==> SameButHead(bs[i], old(bs[i]))
  {
    ghost var chain := chains[b];
    assert HeadOk(bs, chains, b) && ChainPlace(chains, es, b, s);
    assert Apart(chain, s, |chain| - 1);
    if bs[b].hhHead == del {
      bs[b] := bs[b].(hhHead := del.hhNext);
    }
    RelinkNeighbours(del, b, s, chains, es);
    DistinctRemove(chain, s);
    ghost var after := chains[b := RemoveAt(chain, s)];
    forall i: nat ensures HeadOk(bs, after, i) {
      assert old(HeadOk(bs, chains, i));
    }
  }

  lemma {:induction false} OnChainAfterLink(chains: seq<seq<Elem>>, es: set<Elem>, add: Elem, b: nat)
    requires AllOnChain(chains, es) && b < |chains| && b == ToBucket(add.hashv, |chains|)
    ensures AllOnChain(chains[b := chains[b] + [add]], es + {add})
  {
    var after := chains[b := chains[b] + [add]];
    assert after[b][|chains[b]|] == add;
    forall e | e in es + {add} ensures OnChain(after, e) {
      assert e != add ==> OnChain(chains, e);
    }
  }

  lemma {:induction false} OnChainAfterUnlink(chains: seq<seq<Elem>>, es: set<Elem>, b: nat, s: nat)
    requires AllOnChain(chains, es) && b < |chains| && s < |chains[b]|
    ensures AllOnChain(chains[b := RemoveAt(chains[b], s)], es - {chains[b][s]})
  {
    forall e | e in es - {chains[b][s]} ensures OnChain(chains[b := RemoveAt(chains[b], s)], e) {
      assert OnChain(chains, e);
      InRemoveAt(chains[b], s, e);
    }
  }

  /** HASH_FIND_IN_BKT: the first element of the chain that has the key. */
  method FindInBucket(head: Elem?, key: Key, ghost b: nat, ghost chains: seq<seq<Elem>>, ghost es: set<Elem>)
    returns (out: Elem?)
    requires Linked(chains, es) && b < |chains| && head == At(chains[b], |chains[b]| - 1)
    ensures out != null ==> out in es && out.key == key
    ensures out == null ==> forall k: nat :: k < |chains[b]| ==> chains[b][k].key != key
  {
    ghost var m: nat := |chains[b]|;
    out := head;
    while out != null
      invariant m <= |chains[b]| && out == At(chains[b], m - 1)
      invariant forall k: nat :: m <= k < |chains[b]| ==> chains[b][k].key != key
      decreases m
    {
      assert ChainPlace(chains, es, b, m - 1);
      if |out.key| == |key| && out.key == key {
        break;
      }
      out := out.hhNext;
      m := m - 1;
    }
  }

  /** A key that is not on the chain its hash value selects is nowhere in the table. */
  lemma {:induction false} AbsentFromChain(chains: seq<seq<Elem>>, es: set<Elem>, e: Elem, key: Key, b: nat)
    requires AllOnChain(chains, es) && e in es && |chains| > 0 && b < |chains|
    requires b == ToBucket(e.hashv, |chains|)
    requires forall k: nat :: k < |chains[b]| ==> chains[b][k].key != key
    ensures e.key != key
  {
    assert OnChain(chains, e);
    var k: nat :| k < |chains[b]| && chains[b][k] == e;
  }

  // ---- counting

  function Over(count: nat, ideal: nat): nat {
    if count > ideal then count - ideal else 0
  }

  /** The number of elements that stand beyond the ideal length of their chain. */
  ghost function Excess(chains: seq<seq<Elem>>, ideal: nat): nat {
    if chains == [] then 0
    else Excess(chains[..|chains| - 1], ideal) + Over(|chains[|chains| - 1]|, ideal)
  }

  /** The number of elements on all chains. */
  ghost function Total(chains: seq<seq<Elem>>): nat {
    Excess(chains, 0)
  }

  lemma {:induction false} ExcessUpdate(chains: seq<seq<Elem>>, b: nat, chain: seq<Elem>, ideal: nat)
    requires b < |chains|
    ensures Excess(chains[b := chain], ideal) == Excess(chains, ideal) - Over(|chains[b]|, ideal) + Over(|chain|, ideal)
  {
    var n := |chains| - 1;
    if b == n {
      assert chains[b := chain][..n] == chains[..n];
    } else {
      assert chains[b := chain][..n] == chains[..n][b := chain];
      ExcessUpdate(chains[..n], b, chain, ideal);
    }
  }

  lemma {:induction false} ExcessOfEmpty(chains: seq<seq<Elem>>, ideal: nat)
    requires forall i :: 0 <= i < |chains| ==> chains[i] == []
    ensures Excess(chains, ideal) == 0
  {
    if chains == [] {
    } else {
      ExcessOfEmpty(chains[..|chains| - 1], ideal);
    }
  }

  ghost predicate CountOk(bs: array<Bucket>, chains: seq<seq<Elem>>, i: nat)
    reads bs
  {
    i < bs.Length && i < |chains| ==> bs[i].count == |chains[i]|
  }

  ghost predicate CountsOk(bs: array<Bucket>, chains: seq<seq<Elem>>)
    reads bs
  {
    |chains| == bs.Length && forall i: nat {:trigger CountOk(bs, chains, i)} :: CountOk(bs, chains, i)
  }

  // ---- doubling the number of buckets

  /** Place k of an old chain, as the expansion finds it: only the successor link is read. */
  ghost predicate OldPlace(chain: seq<Elem>, group: set<Elem>, k: nat)
    reads group`hhNext
  {
    k < |chain| ==> chain[k] in group && chain[k].hhNext == At(chain, k - 1)
  }

  ghost predicate OldChain(chain: seq<Elem>, group: set<Elem>)
    reads group`hhNext
  {
    Distinct(chain) && forall k: nat {:trigger OldPlace(chain, group, k)} :: OldPlace(chain, group, k)
  }

  /** A new bucket counts its chain, and a bucket beyond the ideal length delays its next expansion in proportion. */
  ghost predicate TallyOk(bs: array<Bucket>, chains: seq<seq<Elem>>, ideal: nat, i: nat)
    requires ideal > 0
    reads bs
  {
    i < bs.Length && i < |chains| ==>
      && bs[i].count == |chains[i]|
      && bs[i].expandMult == if |chains[i]| > ideal then |chains[i]| / ideal else 0
  }

  ghost predicate TalliesOk(bs: array<Bucket>, chains: seq<seq<Elem>>, ideal: nat)
    requires ideal > 0
    reads bs
  {
    |chains| == bs.Length && forall i: nat {:trigger TallyOk(bs, chains, ideal, i)} :: TallyOk(bs, chains, ideal, i)
  }

  lemma {:induction false} TalliesCount(bs: array<Bucket>, chains: seq<seq<Elem>>, ideal: nat)
    requires ideal > 0 && TalliesOk(bs, chains, ideal)
    ensures CountsOk(bs, chains)
  {
    forall i: nat ensures CountOk(bs, chains, i) {
      assert TallyOk(bs, chains, ideal, i);
    }
  }

  /** The new buckets hold the elements that have moved. */
  ghost predicate Built(bs: array<Bucket>, chains: seq<seq<Elem>>, es: set<Elem>, ideal: nat)
    requires ideal > 0
    reads bs, es`hhNext, es`hhPrev
  {
    Linked(chains, es) && HeadsOk(bs, chains) && AllOnChain(chains, es) && TalliesOk(bs, chains, ideal)
  }

  method MoveElem(bs: array<Bucket>, e: Elem, ideal: nat, nonideal: nat, ghost chains: seq<seq<Elem>>, ghost es: set<Elem>)
    returns (more: nat, ghost after: seq<seq<Elem>>)
    requires ideal > 0 && bs.Length > 0 && e !in es && Built(bs, chains, es, ideal) && nonideal == Excess(chains, ideal)
    modifies bs, es`hhPrev, e`hhNext, e`hhPrev
    ensures Built(bs, after, es + {e}, ideal) && more == Excess(after, ideal) && Total(after) == Total(chains) + 1
  {
    var b := ToBucket(e.hashv, bs.Length);
    more := nonideal;
    bs[b] := bs[b].(count := bs[b].count + 1);
    if bs[b].count > ideal {
      more := more + 1;
      bs[b] := bs[b].(expandMult := bs[b].count / ideal);
    }
    after := chains[b := chains[b] + [e]];
    assert old(TallyOk(bs, chains, ideal, b));
    forall i: nat ensures TallyOk(bs, after, ideal, i) {
      assert old(TallyOk(bs, chains, ideal, i));
    }
    forall i: nat ensures HeadOk(bs, chains, i) {
      assert old(HeadOk(bs, chains, i));
    }
    label L:
    LinkHead(bs, b, e, chains, es);
    forall i: nat ensures TallyOk(bs, after, ideal, i) {
      assert old@L(TallyOk(bs, after, ideal, i));
    }
    OnChainAfterLink(chains, es, e, b);
    ExcessUpdate(chains, b, after[b], ideal);
    ExcessUpdate(chains, b, after[b], 0);
  }

  method MoveChain(head: Elem?, bs: array<Bucket>, ideal: nat, nonideal: nat, ghost chain: seq<Elem>, ghost group: set<Elem>,
                   ghost chains: seq<seq<Elem>>, ghost es: set<Elem>)
    returns (more: nat, ghost after: seq<seq<Elem>>)
    requires ideal > 0 && bs.Length > 0 && Built(bs, chains, es, ideal) && nonideal == Excess(chains, ideal)
    requires OldChain(chain, group) && head == At(chain, |chain| - 1) && group !! es && (forall e :: e in group ==> e in chain)
    modifies bs, es`hhPrev, group`hhNext, group`hhPrev
    ensures Built(bs, after, es + group, ideal) && more == Excess(after, ideal) && Total(after) == Total(chains) + |chain|
  {
    var thh := head;
    more, after := nonideal, chains;
    ghost var moved: set<Elem>, m: nat := {}, |chain|;
    assert es + moved == es;
    while thh != null
      invariant m <= |chain| && thh == At(chain, m - 1) && moved <= group
      invariant forall k: nat {:trigger OldPlace(chain, group, k)} :: k < m ==> OldPlace(chain, group, k) && chain[k] !in moved
      invariant forall k: nat :: m <= k < |chain| ==> chain[k] in moved
      invariant Built(bs, after, es + moved, ideal) && more == Excess(after, ideal)
      invariant Total(after) == Total(chains) + |chain| - m
      decreases m
    {
      assert OldPlace(chain, group, m - 1);
      var next := thh.hhNext;
      label L:
      more, after := MoveElem(bs, thh, ideal, more, after, es + moved);
      m, moved := m - 1, moved + {thh};
      assert es + moved == es + (moved - {thh}) + {thh};
      forall k: nat | k < m ensures OldPlace(chain, group, k) && chain[k] !in moved {
        assert old@L(OldPlace(chain, group, k)) && Apart(chain, k, m);
      }
      thh := next;
    }
    assert moved == group;
  }

  /** The elements of one bucket, and of the buckets before it. */
  ghost function Group(es: set<Elem>, n: nat, b: nat): set<Elem>
    requires n > 0
  {
    set e | e in es && ToBucket(e.hashv, n) == b
  }

  ghost function Before(es: set<Elem>, n: nat, b: nat): set<Elem>
    requires n > 0
  {
    set e | e in es && ToBucket(e.hashv, n) < b
  }

  lemma {:induction false} OldChainOf(bs: array<Bucket>, chains: seq<seq<Elem>>, es: set<Elem>, b: nat)
    requires HeadsOk(bs, chains) && Linked(chains, es) && AllOnChain(chains, es) && b < |chains|
    ensures OldChain(chains[b], Group(es, |chains|, b))
    ensures forall e :: e in Group(es, |chains|, b) ==> e in chains[b]
  {
    assert HeadOk(bs, chains, b);
    forall k: nat ensures OldPlace(chains[b], Group(es, |chains|, b), k) {
      assert ChainPlace(chains, es, b, k);
    }
    forall e | e in Group(es, |chains|, b) ensures e in chains[b] {
      assert OnChain(chains, e);
    }
  }

  /** The loops of HASH_EXPAND_BUCKETS: all elements go from the old buckets to twice as many new ones. */
  method Redistribute(before: array<Bucket>, ideal: nat, ghost chains: seq<seq<Elem>>, ghost es: set<Elem>)
    returns (bs: array<Bucket>, nonideal: nat, ghost after: seq<seq<Elem>>)
    requires ideal > 0 && before.Length > 0 && HeadsOk(before, chains) && Linked(chains, es) && AllOnChain(chains, es)
    modifies es`hhNext, es`hhPrev
    ensures fresh(bs) && bs.Length == 2 * before.Length && Built(bs, after, es, ideal)
    ensures nonideal == Excess(after, ideal) && Total(after) == Total(chains)
  {
    ghost var n := before.Length;
    forall b: nat | b < n ensures OldChain(chains[b], Group(es, n, b)) && (forall e :: e in Group(es, n, b) ==> e in chains[b]) {
      OldChainOf(before, chains, es, b);
    }
    bs := new Bucket[2 * before.Length](_ => Bucket(null, 0, 0));
    nonideal, after := 0, seq(2 * n, _ => []);
    ExcessOfEmpty(after, ideal);
    ExcessOfEmpty(after, 0);
    ghost var moved := {};
    assert Built(bs, after, moved, ideal);
    var i := 0;
    while i < before.Length
      invariant i <= n && moved == Before(es, n, i)
      invariant forall b: nat {:trigger chains[b]} :: i <= b < n ==> OldChain(chains[b], Group(es, n, b))
      invariant Built(bs, after, moved, ideal) && nonideal == Excess(after, ideal) && Total(after) == Total(chains[..i])
    {
      assert HeadOk(before, chains, i) && OldChain(chains[i], Group(es, n, i));
      label L:
      nonideal, after := MoveChain(before[i].hhHead, bs, ideal, nonideal, chains[i], Group(es, n, i), after, moved);
      assert Before(es, n, i + 1) == moved + Group(es, n, i);
      moved := moved + Group(es, n, i);
      assert chains[..i + 1][..i] == chains[..i];
      forall b: nat | i + 1 <= b < n ensures OldChain(chains[b], Group(es, n, b)) {
        assert old@L(OldChain(chains[b], Group(es, n, b)));
        forall k: nat ensures OldPlace(chains[b], Group(es, n, b), k) {
          assert old@L(OldPlace(chains[b], Group(es, n, b), k));
        }
      }
      i := i + 1;
    }
    assert chains[..n] == chains;
    assert moved == es;
  }
}
