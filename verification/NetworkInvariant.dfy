/**
 What every change of the network state keeps: flags and events agree, objects that have not changed are in the newest
 snapshot of their kind, and every queued event can be resolved.
 */
module NetworkInvariant {
  import opened NetworkState

  /** The newest snapshot of a kind. */
  ghost function Newest(k: Kind): seq<Frozen> {
    if k.history == [] then [] else k.history[|k.history| - 1]
  }

  function Freeze(rows: seq<Row>): (f: seq<Frozen>)
    ensures |f| == |rows|
  {
    seq(|rows|, i requires 0 <= i < |rows| => Frozen(rows[i].ref, rows[i].content))
  }

  ghost predicate FrozenAt(f: seq<Frozen>, ref: Ref, i: nat) {
    i < |f| && f[i].ref == ref
  }

  ghost predicate Published(k: Kind, ref: Ref) {
    exists i: nat {:trigger FrozenAt(Newest(k), ref, i)} :: FrozenAt(Newest(k), ref, i)
  }

  ghost predicate EventIs(events: seq<Event>, ref: Ref, j: nat) {
    j < |events| && (events[j] == Created(ref) || events[j] == Updated(ref))
  }

  /** A Created or Updated event for the object is queued. */
  ghost predicate Queued(events: seq<Event>, ref: Ref) {
    exists j: nat {:trigger EventIs(events, ref, j)} :: EventIs(events, ref, j)
  }

  /** The event is about an object of the kind. */
  predicate EventOf(e: Event, t: Tag) {
    !e.PacketSeen? && TagOf(e.ref) == t
  }

  ghost predicate EventAbout(events: seq<Event>, t: Tag, j: nat) {
    j < |events| && EventOf(events[j], t)
  }

  ghost predicate HasEvent(events: seq<Event>, t: Tag) {
    exists j: nat {:trigger EventAbout(events, t, j)} :: EventAbout(events, t, j)
  }

  // ---- the invariant of one kind

  /** A row has the fields of its kind, its flag says whether an event is queued for it, and if it has not changed the
      newest snapshot has it as it is. */
  ghost predicate RowOk(k: Kind, t: Tag, events: seq<Event>, i: nat) {
    i < |k.rows| ==>
      && TagOf(k.rows[i].ref) == t && Fits(k.rows[i].ref, k.rows[i].content)
      && (k.rows[i].changed <==> Queued(events, k.rows[i].ref))
      && (!k.rows[i].changed ==> Shared(k, k.rows[i]))
  }

  ghost predicate SharedAt(k: Kind, r: Row, i: nat) {
    i < |Newest(k)| && Newest(k)[i] == Frozen(r.ref, r.content)
  }

  /** The newest snapshot has the row as it is. */
  ghost predicate Shared(k: Kind, r: Row) {
    exists i: nat {:trigger SharedAt(k, r, i)} :: SharedAt(k, r, i)
  }

  ghost predicate FrozenApart(f: seq<Frozen>, i: nat, j: nat) {
    i < j < |f| ==> f[i].ref != f[j].ref
  }

  ghost predicate UniqueFrozen(f: seq<Frozen>) {
    forall i: nat, j: nat {:trigger FrozenApart(f, i, j)} :: FrozenApart(f, i, j)
  }

  ghost predicate RowsOk(k: Kind, t: Tag, events: seq<Event>) {
    forall i: nat {:trigger RowOk(k, t, events, i)} :: RowOk(k, t, events, i)
  }

  ghost predicate KindOk(s: State, t: Tag) {
    var k := K(s, t);
    && UniqueRefs(k.rows) && UniqueFrozen(Newest(k)) && RowsOk(k, t, s.events)
    && (!HasEvent(s.events, t) ==> Newest(k) == Freeze(k.rows))
  }

  /** A queued event can be resolved: what was created or updated is there, what was deleted was published. */
  ghost predicate EventOk(s: State, j: nat) {
    j < |s.events| && !s.events[j].PacketSeen? ==>
      var ref := s.events[j].ref;
      if s.events[j].Deleted? then Published(K(s, TagOf(ref)), ref) else Known(s, ref)
  }

  // ---- the published versions

  ghost predicate VersionOk(s: State, t: Tag, w: nat) {
    w < |s.wsn| ==>
      && VersionOf(s.wsn[w], t) <= |K(s, t).history|
      && (w + 1 < |s.wsn| ==> VersionOf(s.wsn[w], t) <= VersionOf(s.wsn[w + 1], t))
      && (w + 1 == |s.wsn| ==> VersionOf(s.wsn[w], t) == |K(s, t).history|)
  }

  ghost predicate VersionsOk(s: State) {
    && (forall t: Tag, w: nat {:trigger VersionOk(s, t, w)} :: VersionOk(s, t, w))
    && (s.wsn == [] ==> forall t: Tag {:trigger K(s, t)} :: K(s, t).history == [])
  }

  ghost predicate Inv(s: State) {
    && (forall t: Tag {:trigger KindOk(s, t)} :: KindOk(s, t))
    && (forall j: nat {:trigger EventOk(s, j)} :: EventOk(s, j))
    && VersionsOk(s)
  }

  lemma {:induction false} InvUnique(s: State)
    requires Inv(s)
    ensures AllUnique(s)
  {
    forall t: Tag ensures UniqueRefs(K(s, t).rows) {
      assert KindOk(s, t);
    }
  }

  // ---- events

  lemma {:induction false} QueuedSnoc(events: seq<Event>, e: Event, ref: Ref)
    ensures Queued(events + [e], ref) <==> Queued(events, ref) || e == Created(ref) || e == Updated(ref)
  {
    if Queued(events, ref) {
      var j: nat :| EventIs(events, ref, j);
      assert EventIs(events + [e], ref, j);
    }
    if e == Created(ref) || e == Updated(ref) {
      assert EventIs(events + [e], ref, |events|);
    }
    if Queued(events + [e], ref) {
      var j: nat :| EventIs(events + [e], ref, j);
      assert j < |events| ==> EventIs(events, ref, j);
    }
  }

  lemma {:induction false} HasEventSnoc(events: seq<Event>, e: Event, t: Tag)
    ensures HasEvent(events + [e], t) <==> HasEvent(events, t) || EventOf(e, t)
  {
    if HasEvent(events, t) {
      var j: nat :| EventAbout(events, t, j);
      assert EventAbout(events + [e], t, j);
    }
    if EventOf(e, t) {
      assert EventAbout(events + [e], t, |events|);
    }
    if HasEvent(events + [e], t) {
      var j: nat :| EventAbout(events + [e], t, j);
      assert j < |events| ==> EventAbout(events, t, j);
    }
  }

  /** A changed row has an event, so its kind has one. */
  lemma {:induction false} QueuedHasEvent(events: seq<Event>, ref: Ref)
    requires Queued(events, ref)
    ensures HasEvent(events, TagOf(ref))
  {
    var j: nat :| EventIs(events, ref, j);
    assert EventAbout(events, TagOf(ref), j);
  }

  // ---- the changes keep the invariant

  /** A change to one kind of object that may queue one event for that kind: what remains to be shown. */
  lemma {:induction false} ChangeKeepsInv(s: State, s1: State, t: Tag, k: Kind, e: seq<Event>)
    requires Inv(s) && s1 == WithK(s, t, k).(events := s.events + e) && |e| <= 1 && k.history == K(s, t).history
    requires |e| == 1 ==> EventOf(e[0], t)
    requires KindOk(s1, t)
    requires forall j: nat {:trigger EventOk(s1, j)} :: EventOk(s1, j)
    ensures Inv(s1)
  {
    forall t1: Tag ensures KindOk(s1, t1) {
      assert KindOk(s, t1);
      if t1 != t {
        OtherKindOk(s, s1, t1, e);
      }
    }
    forall t1: Tag, w: nat ensures VersionOk(s1, t1, w) {
      assert VersionOk(s, t1, w);
    }
    if s1.wsn == [] {
      forall t1: Tag ensures K(s1, t1).history == [] {
        assert K(s, t1).history == [];
      }
    }
  }

  lemma {:induction false} OtherKindOk(s: State, s1: State, t: Tag, e: seq<Event>)
    requires KindOk(s, t) && K(s1, t) == K(s, t) && s1.events == s.events + e && |e| <= 1
    requires |e| == 1 ==> !EventOf(e[0], t)
    ensures KindOk(s1, t)
  {
    var k := K(s, t);
    if |e| == 1 {
      assert e == [e[0]];
      HasEventSnoc(s.events, e[0], t);
      forall i: nat ensures RowOk(k, t, s1.events, i) {
        assert RowOk(k, t, s.events, i);
        if i < |k.rows| {
          QueuedSnoc(s.events, e[0], k.rows[i].ref);
        }
      }
    } else {
      assert s1.events == s.events;
    }
  }

  lemma {:induction false} GetKeepsInv(s: State, ref: Ref)
    requires Inv(s)
    ensures Inv(Get(s, ref))
  {
    if !Known(s, ref) {
      var t, s1, e := TagOf(ref), Get(s, ref), Created(ref);
      var k, k1 := K(s, t), K(s1, t);
      var row := Row(ref, Init(ref), 0, true);
      assert KindOk(s, t);
      AppendedRow(k.rows, row, ref);
      HasEventSnoc(s.events, e, t);
      QueuedSnoc(s.events, e, ref);
      forall i: nat ensures RowOk(k1, t, s1.events, i) {
        assert RowOk(k, t, s.events, i) && !RefAt(k.rows, ref, i);
        if i < |k.rows| {
          QueuedSnoc(s.events, e, k.rows[i].ref);
          SharedStill(k, k1, k.rows[i]);
        }
      }
      InvUnique(s);
      forall j: nat ensures EventOk(s1, j) {
        assert EventOk(s, j);
        if j < |s.events| && !s.events[j].PacketSeen? {
          GetContent(s, ref, s.events[j].ref);
          PublishedStill(K(s, TagOf(s.events[j].ref)), K(s1, TagOf(s.events[j].ref)), s.events[j].ref);
        }
        GetContent(s, ref, ref);
      }
      ChangeKeepsInv(s, s1, t, k1, [e]);
    }
  }

  lemma {:induction false} SharedStill(k: Kind, k1: Kind, r: Row)
    requires k1.history == k.history
    ensures Shared(k, r) ==> Shared(k1, r)
  {
    if Shared(k, r) {
      var i: nat :| SharedAt(k, r, i);
      assert SharedAt(k1, r, i);
    }
  }

  lemma {:induction false} PublishedStill(k: Kind, k1: Kind, ref: Ref)
    requires k1.history == k.history
    ensures Published(k, ref) ==> Published(k1, ref)
  {
    if Published(k, ref) {
      var i: nat :| FrozenAt(Newest(k), ref, i);
      assert FrozenAt(Newest(k1), ref, i);
    }
  }

  /** The rows after a change of tracked fields. */
  lemma {:induction false} TouchRowOk(s: State, ref: Ref, c: Content, i: nat)
    requires Inv(s) && Fits(ref, c) && Known(s, ref)
    ensures RowOk(K(Touch(s, ref, c), TagOf(ref)), TagOf(ref), Touch(s, ref, c).events, i)
  {
    var t, s1, e := TagOf(ref), Touch(s, ref, c), Updated(ref);
    var k, k1 := K(s, t), K(s1, t);
    var row, p := RowOf(s, ref), PlaceOf(K(s, t).rows, ref);
    assert KindOk(s, t) && RowOk(k, t, s.events, p) && RowOk(k, t, s.events, i);
    assert RefsApart(k.rows, i, p) && RefsApart(k.rows, p, i);
    QueuedSnoc(s.events, e, ref);
    if i < |k.rows| && i != p {
      QueuedSnoc(s.events, e, k.rows[i].ref);
      SharedStill(k, k1, k.rows[i]);
    }
  }

  /** The events after it. */
  lemma {:induction false} TouchEventOk(s: State, ref: Ref, c: Content, j: nat)
    requires Inv(s) && Known(s, ref)
    ensures EventOk(Touch(s, ref, c), j)
  {
    var s1 := Touch(s, ref, c);
    InvUnique(s);
    assert EventOk(s, j);
    if j < |s.events| && !s.events[j].PacketSeen? {
      TouchContent(s, ref, c, s.events[j].ref);
      PublishedStill(K(s, TagOf(s.events[j].ref)), K(s1, TagOf(s.events[j].ref)), s.events[j].ref);
    }
    TouchContent(s, ref, c, ref);
  }

  lemma {:induction false} TouchKeepsInv(s: State, ref: Ref, c: Content)
    requires Inv(s) && Fits(ref, c)
    ensures Inv(Touch(s, ref, c))
  {
    if Known(s, ref) {
      var t, s1, e := TagOf(ref), Touch(s, ref, c), Updated(ref);
      var row := RowOf(s, ref);
      var es := if row.changed then [] else [e];
      assert KindOk(s, t) && RowOk(K(s, t), t, s.events, PlaceOf(K(s, t).rows, ref));
      UpdatedRows(K(s, t).rows, row.(content := c, changed := true), ref);
      HasEventSnoc(s.events, e, t);
      if row.changed {
        QueuedHasEvent(s.events, ref);
      }
      assert s1.events == s.events + es;
      forall i: nat ensures RowOk(K(s1, t), t, s1.events, i) {
        TouchRowOk(s, ref, c, i);
      }
      forall j: nat ensures EventOk(s1, j) {
        TouchEventOk(s, ref, c, j);
      }
      ChangeKeepsInv(s, s1, t, K(s1, t), es);
    }
  }

  lemma {:induction false} ContentFits(s: State, ref: Ref)
    requires Inv(s)
    ensures Fits(ref, ContentOf(s, ref))
  {
    if Known(s, ref) {
      var k := K(s, TagOf(ref));
      assert KindOk(s, TagOf(ref)) && RowOk(k, TagOf(ref), s.events, PlaceOf(k.rows, ref));
    }
  }

  lemma {:induction false} CountKeepsInv(s: State, ref: Ref)
    requires Inv(s)
    ensures Inv(Count(s, ref))
  {
    if Known(s, ref) {
      var t, s1 := TagOf(ref), Count(s, ref);
      var k, k1 := K(s, t), K(s1, t);
      var row := RowOf(s, ref);
      var p := PlaceOf(k.rows, ref);
      assert KindOk(s, t) && RowOk(k, t, s.events, p);
      UpdatedRows(k.rows, row.(count := row.count + 1), ref);
      forall i: nat ensures RowOk(k1, t, s1.events, i) {
        assert RowOk(k, t, s.events, i);
        if i < |k.rows| {
          SharedStill(k, k1, k.rows[i]);
          SharedAlike(k1, k.rows[i], k1.rows[i]);
        }
      }
      assert Freeze(k1.rows) == Freeze(k.rows);
      InvUnique(s);
      forall j: nat ensures EventOk(s1, j) {
        assert EventOk(s, j);
        if j < |s.events| && !s.events[j].PacketSeen? {
          CountContent(s, ref, s.events[j].ref);
          PublishedStill(K(s, TagOf(s.events[j].ref)), K(s1, TagOf(s.events[j].ref)), s.events[j].ref);
        }
      }
      assert s1.events == s.events + [];
      ChangeKeepsInv(s, s1, t, k1, []);
    }
  }

  lemma {:induction false} SharedAlike(k: Kind, r: Row, r1: Row)
    requires r1.ref == r.ref && r1.content == r.content
    ensures Shared(k, r) ==> Shared(k, r1)
  {
    if Shared(k, r) {
      var i: nat :| SharedAt(k, r, i);
      assert SharedAt(k, r1, i);
    }
  }

  /** An object may be removed when it is published and nothing is queued for it. */
  ghost predicate Idle(s: State, ref: Ref) {
    Known(s, ref) ==> !RowOf(s, ref).changed
  }

  lemma {:induction false} DropRowOk(s: State, ref: Ref, i: nat)
    requires Inv(s) && Known(s, ref)
    ensures RowOk(K(Drop(s, ref), TagOf(ref)), TagOf(ref), Drop(s, ref).events, i)
  {
    var t, s1 := TagOf(ref), Drop(s, ref);
    var k, k1 := K(s, t), K(s1, t);
    var p := PlaceOf(k.rows, ref);
    var j := if i < p then i else i + 1;
    assert KindOk(s, t) && RowOk(k, t, s.events, j);
    if j < |k.rows| {
      QueuedSnoc(s.events, Deleted(ref), k.rows[j].ref);
      SharedStill(k, k1, k.rows[j]);
    }
  }

  lemma {:induction false} DropEventOk(s: State, ref: Ref, j: nat)
    requires Inv(s) && Idle(s, ref) && Known(s, ref) && Published(K(s, TagOf(ref)), ref)
    ensures EventOk(Drop(s, ref), j)
  {
    var s1 := Drop(s, ref);
    InvUnique(s);
    assert KindOk(s, TagOf(ref)) && RowOk(K(s, TagOf(ref)), TagOf(ref), s.events, PlaceOf(K(s, TagOf(ref)).rows, ref));
    assert EventOk(s, j);
    if j < |s.events| && !s.events[j].PacketSeen? {
      var r := s.events[j].ref;
      DropContent(s, ref, r);
      PublishedStill(K(s, TagOf(r)), K(s1, TagOf(r)), r);
      assert !s.events[j].Deleted? ==> EventIs(s.events, r, j);
    }
    PublishedStill(K(s, TagOf(ref)), K(s1, TagOf(ref)), ref);
  }

  lemma {:induction false} DropKeepsInv(s: State, ref: Ref)
    requires Inv(s) && Idle(s, ref)
    ensures Inv(Drop(s, ref))
  {
    if Known(s, ref) {
      var t, s1, e := TagOf(ref), Drop(s, ref), Deleted(ref);
      var k := K(s, t);
      var p := PlaceOf(k.rows, ref);
      assert KindOk(s, t) && RowOk(k, t, s.events, p);
      RemovedRow(k.rows, ref, ref);
      HasEventSnoc(s.events, e, t);
      var f: nat :| SharedAt(k, k.rows[p], f);
      assert FrozenAt(Newest(k), ref, f);
      forall i: nat ensures RowOk(K(s1, t), t, s1.events, i) {
        DropRowOk(s, ref, i);
      }
      forall j: nat ensures EventOk(s1, j) {
        DropEventOk(s, ref, j);
      }
      ChangeKeepsInv(s, s1, t, K(s1, t), [e]);
    }
  }

  lemma {:induction false} PacketKeepsInv(s: State)
    requires Inv(s)
    ensures Inv(Queue(s, PacketSeen))
  {
    var s1 := Queue(s, PacketSeen);
    forall t: Tag ensures KindOk(s1, t) {
      assert KindOk(s, t);
      OtherKindOk(s, s1, t, [PacketSeen]);
    }
    forall j: nat ensures EventOk(s1, j) {
      assert EventOk(s, j);
    }
    forall t: Tag, w: nat ensures VersionOk(s1, t, w) {
      assert VersionOk(s, t, w);
    }
    if s1.wsn == [] {
      forall t: Tag ensures K(s1, t).history == [] {
        assert K(s, t).history == [];
      }
    }
  }

  lemma {:induction false} EmptyIsInv()
    ensures Inv(EMPTY)
  {
    forall t: Tag ensures KindOk(EMPTY, t) {
      assert K(EMPTY, t) == Kind([], []);
    }
  }
}
