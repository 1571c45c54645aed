/**
 The state of the network as the analyser believes it to be: for each kind of object a working set and the snapshots
 published so far, the queue of events, and the list of published versions. The elementary changes that the collectors
 make are functions on it.
 */
module NetworkState {
  import opened Address
  import opened Options
  import opened Routes
  import opened Sequences

  datatype DodagId = DodagId(ip: Ip, version: bv8)

  datatype Ref = NodeRef(mac: Mac) | LinkRef(child: Mac, parent: Mac) | DodagRef(dodag: DodagId) | InstanceRef(id: nat)

  datatype Tag = Nodes | Dodags | Instances | Links

  function TagOf(ref: Ref): Tag {
    match ref
    case NodeRef(_) => Nodes
    case LinkRef(_, _) => Links
    case DodagRef(_) => Dodags
    case InstanceRef(_) => Instances
  }

  /** The error counters of a node. */
  datatype Errors = Errors(rank: nat, forward: nat, upward: nat, downward: nat, routeLoop: nat, ipMismatch: nat,
                           dodagMismatch: nat, configMismatch: nat)

  const NO_ERRORS := Errors(0, 0, 0, 0, 0, 0, 0, 0)

  /** The change-tracked fields of an object. */
  datatype Content =
    | Node(dodag: Option<DodagId>, routes: seq<Route>, errors: Errors)
    | Link(deprecated: bool)
    | Dodag(members: seq<Mac>, instance: Option<nat>)
    | Instance(dodags: seq<DodagId>, mop: nat)

  /** What the init function of the kind of object sets up. */
  function Init(ref: Ref): Content {
    match ref
    case NodeRef(_) => Node(None, [], NO_ERRORS)
    case LinkRef(_, _) => Link(false)
    case DodagRef(_) => Dodag([], None)
    case InstanceRef(_) => Instance([], 0)
  }

  predicate Fits(ref: Ref, content: Content) {
    match ref
    case NodeRef(_) => content.Node?
    case LinkRef(_, _) => content.Link?
    case DodagRef(_) => content.Dodag?
    case InstanceRef(_) => content.Instance?
  }

  /** A working object: its tracked fields, its packet counter and its has_changed flag. */
  datatype Row = Row(ref: Ref, content: Content, count: nat, changed: bool)

  /** An object of a snapshot. */
  datatype Frozen = Frozen(ref: Ref, content: Content)

  datatype Kind = Kind(rows: seq<Row>, history: seq<seq<Frozen>>)

  datatype Event = PacketSeen | Created(ref: Ref) | Updated(ref: Ref) | Deleted(ref: Ref)

  /** A published version of the whole network: how many snapshots each kind of object had by then. */
  datatype Versions = Versions(nodes: nat, dodags: nat, instances: nat, links: nat)

  datatype State = State(nodes: Kind, dodags: Kind, instances: Kind, links: Kind, events: seq<Event>, wsn: seq<Versions>)

  const EMPTY := State(Kind([], []), Kind([], []), Kind([], []), Kind([], []), [], [])

  function K(s: State, t: Tag): Kind {
    match t
    case Nodes => s.nodes
    case Dodags => s.dodags
    case Instances => s.instances
    case Links => s.links
  }

  function WithK(s: State, t: Tag, k: Kind): State {
    match t
    case Nodes => s.(nodes := k)
    case Dodags => s.(dodags := k)
    case Instances => s.(instances := k)
    case Links => s.(links := k)
  }

  function VersionOf(v: Versions, t: Tag): nat {
    match t
    case Nodes => v.nodes
    case Dodags => v.dodags
    case Instances => v.instances
    case Links => v.links
  }

  // ---- finding an object

  ghost predicate RefAt(rows: seq<Row>, ref: Ref, i: nat) {
    i < |rows| && rows[i].ref == ref
  }

  ghost predicate Has(rows: seq<Row>, ref: Ref) {
    exists i: nat {:trigger RefAt(rows, ref, i)} :: RefAt(rows, ref, i)
  }

  ghost function PlaceOf(rows: seq<Row>, ref: Ref): (i: nat)
    requires Has(rows, ref)
    ensures RefAt(rows, ref, i)
  {
    var i: nat :| RefAt(rows, ref, i);
    i
  }

  ghost predicate RefsApart(rows: seq<Row>, i: nat, j: nat) {
    i < j < |rows| ==> rows[i].ref != rows[j].ref
  }

  ghost predicate UniqueRefs(rows: seq<Row>) {
    forall i: nat, j: nat {:trigger RefsApart(rows, i, j)} :: RefsApart(rows, i, j)
  }

  lemma {:induction false} PlaceIs(rows: seq<Row>, ref: Ref, i: nat)
    requires UniqueRefs(rows) && RefAt(rows, ref, i)
    ensures Has(rows, ref) && PlaceOf(rows, ref) == i
  {
    assert RefsApart(rows, i, PlaceOf(rows, ref)) && RefsApart(rows, PlaceOf(rows, ref), i);
  }

  ghost predicate Known(s: State, ref: Ref) {
    Has(K(s, TagOf(ref)).rows, ref)
  }

  ghost function RowOf(s: State, ref: Ref): (r: Row)
    requires Known(s, ref)
    ensures r.ref == ref
  {
    var rows := K(s, TagOf(ref)).rows;
    rows[PlaceOf(rows, ref)]
  }

  /** The tracked fields of an object; an object that is not there counts as just initialised. */
  ghost function ContentOf(s: State, ref: Ref): Content {
    if Known(s, ref) then RowOf(s, ref).content else Init(ref)
  }

  // ---- the elementary changes

  /** What no change before the next commit touches: the snapshots and the published versions. */
  ghost predicate SamePast(s: State, s1: State) {
    && s1.nodes.history == s.nodes.history && s1.dodags.history == s.dodags.history
    && s1.instances.history == s.instances.history && s1.links.history == s.links.history && s1.wsn == s.wsn
  }

  ghost function SetRow(s: State, r: Row): State
    requires Known(s, r.ref)
  {
    var t := TagOf(r.ref);
    var k := K(s, t);
    WithK(s, t, k.(rows := k.rows[PlaceOf(k.rows, r.ref) := r]))
  }

  ghost function Queue(s: State, e: Event): State {
    s.(events := s.events + [e])
  }

  /** Getting an object with HVM_CreateIfNonExistant: a new one is marked changed and announced. */
  ghost function Get(s: State, ref: Ref): (s1: State)
    ensures SamePast(s, s1)
    ensures !ref.LinkRef? ==> s1.links == s.links
  {
    if Known(s, ref) then s
    else
      var t := TagOf(ref);
      Queue(WithK(s, t, K(s, t).(rows := K(s, t).rows + [Row(ref, Init(ref), 0, true)])), Created(ref))
  }

  /** New tracked fields, followed by the set_changed function of the kind: an event only for the first change. */
  ghost function Touch(s: State, ref: Ref, c: Content): (s1: State)
    ensures SamePast(s, s1)
    ensures !ref.LinkRef? ==> s1.links == s.links
  {
    if !Known(s, ref) then s
    else
      var r := RowOf(s, ref);
      var after := SetRow(s, r.(content := c, changed := true));
      if r.changed then after else Queue(after, Updated(ref))
  }

  /** New tracked fields alone, before the set_changed function is called. */
  ghost function Write(s: State, ref: Ref, c: Content): State {
    if !Known(s, ref) then s else SetRow(s, RowOf(s, ref).(content := c))
  }

  /** The set_changed function by itself. */
  ghost function Mark(s: State, ref: Ref): (s1: State)
    ensures SamePast(s, s1)
    ensures !ref.LinkRef? ==> s1.links == s.links
  {
    Touch(s, ref, ContentOf(s, ref))
  }

  /** One more packet for the counter of an object. */
  ghost function Count(s: State, ref: Ref): (s1: State)
    ensures SamePast(s, s1)
    ensures !ref.LinkRef? ==> s1.links == s.links
  {
    if !Known(s, ref) then s
    else
      var r := RowOf(s, ref);
      SetRow(s, r.(count := r.count + 1))
  }

  /** Removing an object from the working set and announcing it. */
  ghost function Drop(s: State, ref: Ref): (s1: State)
    ensures SamePast(s, s1)
    ensures !ref.LinkRef? ==> s1.links == s.links
  {
    if !Known(s, ref) then s
    else
      var t := TagOf(ref);
      var k := K(s, t);
      Queue(WithK(s, t, k.(rows := RemoveAt(k.rows, PlaceOf(k.rows, ref)))), Deleted(ref))
  }

  // ---- what they do to the objects

  ghost predicate AllUnique(s: State) {
    forall t: Tag {:trigger K(s, t)} :: UniqueRefs(K(s, t).rows)
  }

  lemma {:induction false} RowOfIs(s: State, ref: Ref, i: nat)
    requires AllUnique(s) && RefAt(K(s, TagOf(ref)).rows, ref, i)
    ensures Known(s, ref) && RowOf(s, ref) == K(s, TagOf(ref)).rows[i]
  {
    PlaceIs(K(s, TagOf(ref)).rows, ref, i);
  }

  lemma {:induction false} UpdatedRows(rows: seq<Row>, r: Row, ref: Ref)
    requires UniqueRefs(rows) && Has(rows, r.ref)
    ensures var after := rows[PlaceOf(rows, r.ref) := r];
            && UniqueRefs(after) && (Has(after, ref) <==> Has(rows, ref))
            && (Has(rows, ref) ==> PlaceOf(after, ref) == PlaceOf(rows, ref))
  {
    var p := PlaceOf(rows, r.ref);
    var after := rows[p := r];
    forall i: nat, j: nat ensures RefsApart(after, i, j) {
      assert RefsApart(rows, i, j);
    }
    if Has(rows, ref) {
      PlaceIs(after, ref, PlaceOf(rows, ref));
    }
    if Has(after, ref) {
      assert RefAt(rows, ref, PlaceOf(after, ref));
    }
  }

  lemma {:induction false} AppendedRow(rows: seq<Row>, r: Row, ref: Ref)
    requires UniqueRefs(rows) && !Has(rows, r.ref)
    ensures UniqueRefs(rows + [r]) && (Has(rows + [r], ref) <==> ref == r.ref || Has(rows, ref))
    ensures Has(rows, ref) ==> PlaceOf(rows + [r], ref) == PlaceOf(rows, ref)
    ensures Has(rows + [r], r.ref) && PlaceOf(rows + [r], r.ref) == |rows|
  {
    var after := rows + [r];
    forall i: nat, j: nat ensures RefsApart(after, i, j) {
      assert RefsApart(rows, i, j) && !RefAt(rows, r.ref, i);
    }
    PlaceIs(after, r.ref, |rows|);
    if Has(rows, ref) {
      PlaceIs(after, ref, PlaceOf(rows, ref));
    } else if Has(after, ref) {
      assert !RefAt(rows, ref, PlaceOf(after, ref));
    }
  }

  lemma {:induction false} RemovedRow(rows: seq<Row>, gone: Ref, ref: Ref)
    requires UniqueRefs(rows) && Has(rows, gone)
    ensures var p := PlaceOf(rows, gone);
            var after := RemoveAt(rows, p);
            && UniqueRefs(after) && (Has(after, ref) <==> ref != gone && Has(rows, ref))
            && (Has(after, ref) ==> after[PlaceOf(after, ref)] == rows[PlaceOf(rows, ref)])
  {
    var p := PlaceOf(rows, gone);
    var after := RemoveAt(rows, p);
    forall i: nat, j: nat ensures RefsApart(after, i, j) {
      assert RefsApart(rows, if i < p then i else i + 1, if j < p then j else j + 1);
    }
    if Has(after, ref) {
      var i := PlaceOf(after, ref);
      var j := if i < p then i else i + 1;
      PlaceIs(rows, ref, j);
      assert RefsApart(rows, p, j) && RefsApart(rows, j, p);
    }
    if ref != gone && Has(rows, ref) {
      var j := PlaceOf(rows, ref);
      assert RefAt(after, ref, if j < p then j else j - 1);
    }
  }

  lemma {:induction false} GetContent(s: State, added: Ref, ref: Ref)
    requires AllUnique(s)
    ensures AllUnique(Get(s, added)) && ContentOf(Get(s, added), ref) == ContentOf(s, ref)
    ensures Known(Get(s, added), ref) <==> ref == added || Known(s, ref)
  {
    var rows := K(s, TagOf(added)).rows;
    if !Has(rows, added) {
      AppendedRow(rows, Row(added, Init(added), 0, true), ref);
      forall t: Tag ensures UniqueRefs(K(Get(s, added), t).rows) {
        assert UniqueRefs(K(s, t).rows);
      }
    }
  }

  lemma {:induction false} SetRowContent(s: State, r: Row, ref: Ref)
    requires AllUnique(s) && Known(s, r.ref)
    ensures AllUnique(SetRow(s, r)) && (Known(SetRow(s, r), ref) <==> Known(s, ref))
    ensures Known(s, ref) ==> RowOf(SetRow(s, r), ref) == if ref == r.ref then r else RowOf(s, ref)
  {
    var rows := K(s, TagOf(r.ref)).rows;
    UpdatedRows(rows, r, ref);
    forall t: Tag ensures UniqueRefs(K(SetRow(s, r), t).rows) {
      assert UniqueRefs(K(s, t).rows);
    }
    if Known(s, ref) && TagOf(ref) == TagOf(r.ref) && ref != r.ref {
      assert PlaceOf(rows, ref) != PlaceOf(rows, r.ref);
    }
  }

  lemma {:induction false} TouchContent(s: State, r: Ref, c: Content, ref: Ref)
    requires AllUnique(s)
    ensures AllUnique(Touch(s, r, c)) && (Known(Touch(s, r, c), ref) <==> Known(s, ref))
    ensures ContentOf(Touch(s, r, c), ref) == if ref == r && Known(s, r) then c else ContentOf(s, ref)
  {
    if Known(s, r) {
      var row := RowOf(s, r).(content := c, changed := true);
      SetRowContent(s, row, ref);
      forall t: Tag ensures UniqueRefs(K(Touch(s, r, c), t).rows) {
        assert UniqueRefs(K(SetRow(s, row), t).rows);
      }
    }
  }

  lemma {:induction false} CountContent(s: State, r: Ref, ref: Ref)
    requires AllUnique(s)
    ensures AllUnique(Count(s, r)) && (Known(Count(s, r), ref) <==> Known(s, ref))
    ensures ContentOf(Count(s, r), ref) == ContentOf(s, ref)
  {
    if Known(s, r) {
      SetRowContent(s, RowOf(s, r).(count := RowOf(s, r).count + 1), ref);
    }
  }

  lemma {:induction false} DropContent(s: State, r: Ref, ref: Ref)
    requires AllUnique(s)
    ensures AllUnique(Drop(s, r)) && (Known(Drop(s, r), ref) <==> ref != r && Known(s, ref))
    ensures ContentOf(Drop(s, r), ref) == if ref == r then Init(ref) else ContentOf(s, ref)
  {
    if Known(s, r) {
      RemovedRow(K(s, TagOf(r)).rows, r, ref);
      forall t: Tag ensures UniqueRefs(K(Drop(s, r), t).rows) {
        assert UniqueRefs(K(s, t).rows);
      }
    }
  }

  // ---- what they do to the kinds

  /** The other kinds, the queue and the published versions are as they were. */
  ghost predicate OnlyKind(s: State, s1: State, t: Tag, events: seq<Event>) {
    && (forall u: Tag {:trigger K(s1, u)} :: u != t ==> K(s1, u) == K(s, u))
    && s1.events == events && s1.wsn == s.wsn && AllUnique(s1)
  }

  lemma {:induction false} GetKinds(s: State, ref: Ref)
    requires AllUnique(s) && !Known(s, ref)
    ensures var k := K(s, TagOf(ref)); K(Get(s, ref), TagOf(ref)) == k.(rows := k.rows + [Row(ref, Init(ref), 0, true)])
    ensures OnlyKind(s, Get(s, ref), TagOf(ref), s.events + [Created(ref)])
  {
    GetContent(s, ref, ref);
  }

  lemma {:induction false} WriteKinds(s: State, ref: Ref, c: Content)
    requires AllUnique(s) && Known(s, ref)
    ensures var k := K(s, TagOf(ref));
            var p := PlaceOf(k.rows, ref);
            K(Write(s, ref, c), TagOf(ref)) == k.(rows := k.rows[p := k.rows[p].(content := c)])
    ensures OnlyKind(s, Write(s, ref, c), TagOf(ref), s.events)
  {
    WriteContent(s, ref, c, ref);
  }

  lemma {:induction false} MarkKinds(s: State, ref: Ref)
    requires AllUnique(s) && Known(s, ref)
    ensures var k := K(s, TagOf(ref));
            var p := PlaceOf(k.rows, ref);
            K(Mark(s, ref), TagOf(ref)) == k.(rows := k.rows[p := k.rows[p].(changed := true)])
    ensures OnlyKind(s, Mark(s, ref), TagOf(ref), if RowOf(s, ref).changed then s.events else s.events + [Updated(ref)])
  {
    TouchContent(s, ref, ContentOf(s, ref), ref);
  }

  lemma {:induction false} CountKinds(s: State, ref: Ref)
    requires AllUnique(s) && Known(s, ref)
    ensures var k := K(s, TagOf(ref));
            var p := PlaceOf(k.rows, ref);
            K(Count(s, ref), TagOf(ref)) == k.(rows := k.rows[p := k.rows[p].(count := k.rows[p].count + 1)])
    ensures OnlyKind(s, Count(s, ref), TagOf(ref), s.events)
  {
    CountContent(s, ref, ref);
  }

  lemma {:induction false} DropKinds(s: State, ref: Ref)
    requires AllUnique(s) && Known(s, ref)
    ensures var k := K(s, TagOf(ref)); K(Drop(s, ref), TagOf(ref)) == k.(rows := RemoveAt(k.rows, PlaceOf(k.rows, ref)))
    ensures OnlyKind(s, Drop(s, ref), TagOf(ref), s.events + [Deleted(ref)])
  {
    DropContent(s, ref, ref);
  }

  // ---- a setter in two steps

  lemma {:induction false} WriteContent(s: State, r: Ref, c: Content, ref: Ref)
    requires AllUnique(s)
    ensures AllUnique(Write(s, r, c)) && (Known(Write(s, r, c), ref) <==> Known(s, ref))
    ensures ContentOf(Write(s, r, c), ref) == if ref == r && Known(s, r) then c else ContentOf(s, ref)
  {
    if Known(s, r) {
      SetRowContent(s, RowOf(s, r).(content := c), ref);
    }
  }

  lemma {:induction false} WriteSame(s: State, ref: Ref)
    ensures Write(s, ref, ContentOf(s, ref)) == s
  {
    if Known(s, ref) {
      var rows := K(s, TagOf(ref)).rows;
      assert rows[PlaceOf(rows, ref) := RowOf(s, ref)] == rows;
    }
  }

  /** Writing the fields and then marking the object changed is what a setter does. */
  lemma {:induction false} MarkWritten(s: State, ref: Ref, c: Content)
    requires AllUnique(s)
    ensures Mark(Write(s, ref, c), ref) == Touch(s, ref, c)
  {
    if Known(s, ref) {
      var w := RowOf(s, ref).(content := c);
      var rows := K(s, TagOf(ref)).rows;
      UpdatedRows(rows, w, ref);
      SetRowContent(s, w, ref);
      SetTwice(s, w, w.(changed := true));
      SetTwice(s, w, w);
    }
  }

  lemma {:induction false} SetTwice(s: State, r: Row, r1: Row)
    requires AllUnique(s) && Known(s, r.ref) && r1.ref == r.ref
    ensures Known(SetRow(s, r), r.ref) && SetRow(SetRow(s, r), r1) == SetRow(s, r1)
  {
    var rows := K(s, TagOf(r.ref)).rows;
    UpdatedRows(rows, r, r.ref);
    var p := PlaceOf(rows, r.ref);
    assert rows[p := r][p := r1] == rows[p := r1];
  }

  lemma {:induction false} KindsCommute(s: State, t: Tag, k: Kind, u: Tag, l: Kind)
    requires t != u
    ensures WithK(WithK(s, t, k), u, l) == WithK(WithK(s, u, l), t, k)
    ensures K(WithK(s, t, k), u) == K(s, u)
  {
  }

  lemma {:induction false} RowsCommute(s: State, r: Row, r1: Row)
    requires TagOf(r.ref) != TagOf(r1.ref) && Known(s, r.ref) && Known(s, r1.ref)
    ensures Known(SetRow(s, r), r1.ref) && Known(SetRow(s, r1), r.ref)
    ensures SetRow(SetRow(s, r), r1) == SetRow(SetRow(s, r1), r)
    ensures RowOf(SetRow(s, r), r1.ref) == RowOf(s, r1.ref) && RowOf(SetRow(s, r1), r.ref) == RowOf(s, r.ref)
  {
    var t, u := TagOf(r.ref), TagOf(r1.ref);
    var k := K(s, t).(rows := K(s, t).rows[PlaceOf(K(s, t).rows, r.ref) := r]);
    var l := K(s, u).(rows := K(s, u).rows[PlaceOf(K(s, u).rows, r1.ref) := r1]);
    KindsCommute(s, t, k, u, l);
    KindsCommute(s, u, l, t, k);
  }

  /** Writing one kind of object and touching another can change places. */
  lemma {:induction false} WriteTouch(s: State, ref: Ref, c: Content, other: Ref, d: Content)
    requires TagOf(ref) != TagOf(other) && Known(s, ref)
    ensures Touch(Write(s, ref, c), other, d) == Write(Touch(s, other, d), ref, c)
    ensures Known(Write(s, ref, c), other) == Known(s, other) && ContentOf(Write(s, ref, c), other) == ContentOf(s, other)
  {
    var k := K(s, TagOf(ref));
    var w := RowOf(s, ref).(content := c);
    KindsCommute(s, TagOf(ref), k.(rows := k.rows[PlaceOf(k.rows, ref) := w]), TagOf(other), K(s, TagOf(other)));
    if Known(s, other) {
      var r := RowOf(s, other).(content := d, changed := true);
      RowsCommute(s, w, r);
      QueueWrite(SetRow(s, r), ref, c, Updated(other));
    }
  }

  lemma {:induction false} QueueWrite(s: State, ref: Ref, c: Content, e: Event)
    ensures Write(Queue(s, e), ref, c) == Queue(Write(s, ref, c), e)
  {
    assert K(Queue(s, e), TagOf(ref)) == K(s, TagOf(ref));
  }

  /** A setter whose first step comes before the setter of another kind of object, and whose second step after it. */
  lemma {:induction false} SetAround(s: State, ref: Ref, c: Content, other: Ref, d: Content)
    requires AllUnique(s) && TagOf(ref) != TagOf(other) && Known(s, ref)
    ensures Mark(Touch(Write(s, ref, c), other, d), ref) == Touch(Touch(s, other, d), ref, c)
  {
    WriteTouch(s, ref, c, other, d);
    TouchContent(s, other, d, ref);
    MarkWritten(Touch(s, other, d), ref, c);
  }
}
