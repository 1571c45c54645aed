/**
 Whole runs of the analyser on the heap: packets and requests of the user interface, one after the other, on one store.
 */
module Analyser {
  import opened Collector
  import opened CollectorRuns
  import opened CollectorSpec
  import opened NetworkObjects
  import opened NetworkState
  import opened NetworkStore

  /** An object of a published snapshot, as a reader finds it on the heap. */
  ghost predicate ShowsAt(store: Store, s: State, t: Tag, v: nat, i: nat)
    requires store.Valid()
    reads store, store.repr, store.nodes, store.dodags, store.instances, store.links
    reads store.Foot(Nodes), store.Foot(Dodags), store.Foot(Instances), store.Foot(Links)
  {
    v < |K(s, t).history| && i < |K(s, t).history[v]| ==>
      && v < |store.Fam(t).snapshots| && i < |store.Fam(t).snapshots[v]|
      && (var o := store.Fam(t).snapshots[v][i];
          store.FamOk(t) && o in store.Fam(t).frozen && Stored(o, store.Fam(t).cells)
          && o.ref == K(s, t).history[v][i].ref && o.Shows(K(s, t).history[v][i].content))
  }

  /** All that an earlier state had published is there, and shows what it showed then. */
  ghost predicate StillShows(store: Store, s: State)
    requires store.Valid()
    reads store, store.repr, store.nodes, store.dodags, store.instances, store.links
    reads store.Foot(Nodes), store.Foot(Dodags), store.Foot(Instances), store.Foot(Links)
  {
    forall t: Tag, v: nat, i: nat {:trigger ShowsAt(store, s, t, v, i)} :: ShowsAt(store, s, t, v, i)
  }

  lemma {:induction false} ExtendedShows(store: Store, s: State)
    requires store.Valid() && Extends(s, store.View())
    ensures StillShows(store, s)
  {
    forall t: Tag, v: nat, i: nat ensures ShowsAt(store, s, t, v, i) {
      if v < |K(s, t).history| && i < |K(s, t).history[v]| {
        PlaceShows(store, s, t, v, i);
      }
    }
  }

  lemma {:induction false} PlaceShows(store: Store, s: State, t: Tag, v: nat, i: nat)
    requires store.Valid() && Extends(s, store.View()) && v < |K(s, t).history| && i < |K(s, t).history[v]|
    ensures ShowsAt(store, s, t, v, i)
  {
    var f := store.Fam(t);
    store.KOfView(t);
    assert store.FamOk(t) && K(s, t).history <= K(store.View(), t).history;
    assert f.SnapOk(v, i);
    f.SnapshotOnHeap(v, i);
    assert Stored(f.snapshots[v][i], f.cells);
  }

  /** One packet, or one request of the user interface between packets. */
  method Perform(store: Store, op: Op, onePreferredParent: bool)
    requires store.Valid() && Between(store.View(), onePreferredParent)
    modifies store.repr
    ensures store.Valid() && store.View() == Step(old(store.View()), op, onePreferredParent)
    ensures Between(store.View(), onePreferredParent) && fresh(store.repr - old(store.repr))
    ensures StillShows(store, old(store.View()))
  {
    hide Store.Valid, Store.View, Receive, ClearLinks, ClearErrors, Between, Extends, StillShows;
    StepExtends(store.View(), op, onePreferredParent);
    StepKeeps(store.View(), op, onePreferredParent);
    match op {
      case Packet(p) => var _ := store.ReceivePacket(p, onePreferredParent);
      case Dropped =>
      case ClearDeprecated => store.ClearAllDeprecated(onePreferredParent);
      case ClearAllErrors => store.ClearAllErrors(onePreferredParent);
    }
    ExtendedShows(store, old(store.View()));
  }

  /** A run from the start. Whatever the packets are, after each number of steps and to the end of the run every
      published object still shows on the heap, pointer by pointer, what it showed when it was published. */
  method PerformAll(store: Store, ops: seq<Op>, onePreferredParent: bool)
    requires store.Valid() && store.View() == EMPTY
    modifies store.repr
    ensures store.Valid() && store.View() == Run(ops, onePreferredParent) && Between(store.View(), onePreferredParent)
    ensures forall n: nat {:trigger ops[..n]} :: n <= |ops| ==> StillShows(store, Run(ops[..n], onePreferredParent))
  {
    hide Store.Valid, Store.View, Step, Between, Extends, StillShows;
    RunKeeps([], onePreferredParent);
    var k := 0;
    while k < |ops|
      invariant k <= |ops| && store.Valid() && store.View() == Run(ops[..k], onePreferredParent)
      invariant Between(store.View(), onePreferredParent) && fresh(store.repr - old(store.repr))
    {
      assert ops[..k + 1][..k] == ops[..k];
      Perform(store, ops[k], onePreferredParent);
      k := k + 1;
    }
    assert ops[..k] == ops;
    forall n: nat | n <= |ops| ensures StillShows(store, Run(ops[..n], onePreferredParent)) {
      SnapshotsFrozen(ops, n, onePreferredParent);
      ExtendedShows(store, Run(ops[..n], onePreferredParent));
    }
  }
}
