/**
 Publishing: what happens to the network state when a packet has been dealt with. Each kind of object with a queued
 event gets a new snapshot, the network a new version, and the events are delivered with the objects they are about.
 */
module NetworkCommit {
  import opened NetworkInvariant
  import opened NetworkState
  import opened Options

  function Unchanged(rows: seq<Row>): (u: seq<Row>)
    ensures |u| == |rows|
  {
    seq(|rows|, i requires 0 <= i < |rows| => rows[i].(changed := false))
  }

  /** The new snapshot of a kind, as if every object were copied. */
  function AddVersion(k: Kind): Kind {
    Kind(Unchanged(k.rows), k.history + [Freeze(k.rows)])
  }

  ghost function PublishKind(s: State, t: Tag): Kind {
    if HasEvent(s.events, t) then AddVersion(K(s, t)) else K(s, t)
  }

  ghost predicate SomethingHappened(s: State) {
    HasEvent(s.events, Nodes) || HasEvent(s.events, Dodags) || HasEvent(s.events, Instances) || HasEvent(s.events, Links)
  }

  function VersionsNow(s: State): Versions {
    Versions(|s.nodes.history|, |s.dodags.history|, |s.instances.history|, |s.links.history|)
  }

  /** The new snapshots and the new version of the network. */
  ghost function Publish(s: State): State {
    var s1 := s.(nodes := PublishKind(s, Nodes), dodags := PublishKind(s, Dodags),
                 instances := PublishKind(s, Instances), links := PublishKind(s, Links));
    if SomethingHappened(s) then s1.(wsn := s.wsn + [VersionsNow(s1)]) else s1
  }

  ghost function Commit(s: State): State {
    Publish(s).(events := [])
  }

  // ---- resolving events

  /** rpldata_get_nodes and its siblings: version 0 is the working set, a version without a snapshot has no container. */
  ghost function ContainerAt(s: State, version: nat, t: Tag): Option<seq<Frozen>>
    requires version <= |s.wsn| && VersionsOk(s)
  {
    if version == 0 then Some(Freeze(K(s, t).rows))
    else
      assert VersionOk(s, t, version - 1);
      var n := VersionOf(s.wsn[version - 1], t);
      if n == 0 then None else Some(K(s, t).history[n - 1])
  }

  ghost function Lookup(f: seq<Frozen>, ref: Ref): Option<Frozen> {
    if i: nat :| FrozenAt(f, ref, i) then Some(f[i]) else None
  }

  /** The container in which an event is resolved: that of the new version, or of the version before for a deletion. */
  ghost function EventContainer(s: State, e: Event): Option<seq<Frozen>>
    requires VersionsOk(s) && !e.PacketSeen? && (e.Deleted? ==> s.wsn != [])
  {
    ContainerAt(s, if e.Deleted? then |s.wsn| - 1 else |s.wsn|, TagOf(e.ref))
  }

  /** The object that an event is delivered with. */
  ghost function Delivered(s: State, e: Event): Option<Frozen>
    requires VersionsOk(s) && !e.PacketSeen? && (e.Deleted? ==> s.wsn != [])
  {
    var container := EventContainer(s, e);
    if container.None? then None else Lookup(container.value, e.ref)
  }

  lemma {:induction false} LookupIs(f: seq<Frozen>, ref: Ref, i: nat)
    requires UniqueFrozen(f) && FrozenAt(f, ref, i)
    ensures Lookup(f, ref) == Some(f[i])
  {
    var j: nat :| FrozenAt(f, ref, j) && Lookup(f, ref) == Some(f[j]);
    assert FrozenApart(f, i, j) && FrozenApart(f, j, i);
  }

  // ---- what a commit keeps and establishes

  lemma {:induction false} FreezeUnique(rows: seq<Row>)
    requires UniqueRefs(rows)
    ensures UniqueFrozen(Freeze(rows)) && UniqueRefs(Unchanged(rows)) && Freeze(Unchanged(rows)) == Freeze(rows)
  {
    forall i: nat, j: nat ensures FrozenApart(Freeze(rows), i, j) && RefsApart(Unchanged(rows), i, j) {
      assert RefsApart(rows, i, j);
    }
  }

  /** Nothing has changed since the newest snapshot of the kind: the two agree object by object. */
  ghost predicate Settled(k: Kind) {
    Newest(k) == Freeze(k.rows) && Unchanged(k.rows) == k.rows
  }

  lemma {:induction false} PublishedKindSettled(s: State, t: Tag)
    requires KindOk(s, t)
    ensures Settled(PublishKind(s, t)) && K(s, t).history <= PublishKind(s, t).history
    ensures UniqueRefs(PublishKind(s, t).rows) && UniqueFrozen(Newest(PublishKind(s, t)))
    ensures RowsOk(PublishKind(s, t), t, [])
  {
    var k, k1 := K(s, t), PublishKind(s, t);
    FreezeUnique(k.rows);
    forall i: nat | i < |k.rows| ensures !HasEvent(s.events, t) ==> !k.rows[i].changed {
      assert RowOk(k, t, s.events, i);
      if k.rows[i].changed {
        QueuedHasEvent(s.events, k.rows[i].ref);
      }
    }
    assert Unchanged(k1.rows) == k1.rows;
    forall i: nat ensures RowOk(k1, t, [], i) {
      assert RowOk(k, t, s.events, i);
      if i < |k.rows| {
        assert Freeze(k1.rows)[i] == Frozen(k1.rows[i].ref, k1.rows[i].content);
        assert SharedAt(k1, k1.rows[i], i);
      }
    }
  }

  lemma {:induction false} KOfPublish(s: State, t: Tag)
    ensures K(Publish(s), t) == PublishKind(s, t) && K(Commit(s), t) == PublishKind(s, t)
    ensures HasEvent(s.events, t) ==> SomethingHappened(s)
  {
  }

  lemma {:induction false} PublishKeepsVersions(s: State)
    requires Inv(s)
    ensures VersionsOk(Publish(s)) && VersionsOk(Commit(s))
  {
    var s1 := Publish(s);
    forall t: Tag, w: nat ensures VersionOk(s1, t, w) && VersionOk(Commit(s), t, w) {
      KOfPublish(s, t);
      assert VersionOk(s, t, w) && (s.wsn != [] ==> VersionOk(s, t, |s.wsn| - 1));
    }
    if s1.wsn == [] {
      forall t: Tag ensures K(s1, t).history == [] && K(Commit(s), t).history == [] {
        KOfPublish(s, t);
        assert K(s, t).history == [];
      }
    }
  }

  /** A commit keeps the invariant, empties the queue and leaves every kind in agreement with its newest snapshot. */
  lemma {:induction false} CommitSettles(s: State)
    requires Inv(s)
    ensures Inv(Commit(s)) && Commit(s).events == []
    ensures forall t: Tag {:trigger K(s, t)} :: Settled(K(Commit(s), t)) && K(s, t).history <= K(Commit(s), t).history
    ensures s.wsn <= Commit(s).wsn
  {
    PublishKeepsVersions(s);
    forall t: Tag ensures KindOk(Commit(s), t) && Settled(K(Commit(s), t)) && K(s, t).history <= K(Commit(s), t).history {
      assert KindOk(s, t);
      KOfPublish(s, t);
      PublishedKindSettled(s, t);
    }
  }

  /** Every event is delivered with an object. A created or updated object comes as it is in the working set, and a
      deleted one as it was last published. */
  lemma {:induction false} EventsResolve(s: State, j: nat)
    requires Inv(s) && j < |s.events| && !s.events[j].PacketSeen?
    ensures VersionsOk(Publish(s)) && Publish(s).wsn == s.wsn + [VersionsNow(Publish(s))]
    ensures var e := s.events[j];
            Delivered(Publish(s), e) ==
              if e.Deleted? then Lookup(Newest(K(s, TagOf(e.ref))), e.ref) else Some(Frozen(e.ref, ContentOf(s, e.ref)))
    ensures Delivered(Publish(s), s.events[j]).Some?
    ensures EventContainer(Publish(s), s.events[j]).Some? && UniqueFrozen(EventContainer(Publish(s), s.events[j]).value)
  {
    var e, s1 := s.events[j], Publish(s);
    var t := TagOf(e.ref);
    var k, k1 := K(s, t), K(s1, t);
    assert EventAbout(s.events, t, j) && EventOk(s, j) && KindOk(s, t);
    KOfPublish(s, t);
    PublishKeepsVersions(s);
    if e.Deleted? {
      var i: nat :| FrozenAt(Newest(k), e.ref, i);
      LookupIs(Newest(k), e.ref, i);
      assert K(s, t).history != [];
      assert VersionOk(s, t, |s.wsn| - 1);
    } else {
      var p := PlaceOf(k.rows, e.ref);
      FreezeUnique(k.rows);
      LookupIs(Freeze(k.rows), e.ref, p);
      assert VersionOk(s1, t, |s.wsn|);
    }
  }
}
