/**
 What a reader finds in the working set, object by object, and what the events tell of each object: how every elementary
 change and every setter looks from there.
 */
module Observations {
  import opened Address
  import opened CollectorMembers
  import opened CollectorSpec
  import opened NetworkInvariant
  import opened NetworkState
  import opened Options
  import opened Routes
  import opened Sequences

  /** The row of an object in the working set, if it is there. */
  ghost function Found(s: State, ref: Ref): Option<Row> {
    if Known(s, ref) then Some(RowOf(s, ref)) else None
  }

  /** An object that has just been created. */
  function Blank(ref: Ref): Row {
    match ref
    case NodeRef(_) => Row(ref, Node(None, [], Errors(0, 0, 0, 0, 0, 0, 0, 0)), 0, true)
    case LinkRef(_, _) => Row(ref, Link(false), 0, true)
    case DodagRef(_) => Row(ref, Dodag([], None), 0, true)
    case InstanceRef(_) => Row(ref, Instance([], 0), 0, true)
  }

  /** The object as it is, or as it is about to be created. */
  ghost function Was(s: State, ref: Ref): Row {
    if Found(s, ref).Some? then Found(s, ref).value else Blank(ref)
  }

  // ---- events about one object

  predicate IsAbout(e: Event, ref: Ref) {
    !e.PacketSeen? && e.ref == ref
  }

  ghost function About(events: seq<Event>, ref: Ref): seq<Event> {
    if events == [] then []
    else
      var e := events[|events| - 1];
      About(events[..|events| - 1], ref) + if IsAbout(e, ref) then [e] else []
  }

  lemma {:induction false} AboutSnoc(events: seq<Event>, e: Event, ref: Ref)
    ensures About(events + [e], ref) == About(events, ref) + if IsAbout(e, ref) then [e] else []
  {
    assert (events + [e])[..|events|] == events;
  }

  /** What is told of an object when it goes from one row to another. */
  function News(ref: Ref, was: Option<Row>, now: Option<Row>): seq<Event> {
    if was.None? && now.Some? then [Created(ref)]
    else if was.Some? && now.None? then [Deleted(ref)]
    else if was.Some? && now.Some? && !was.value.changed && now.value.changed then [Updated(ref)]
    else []
  }

  /** How many packets are announced. */
  function Packets(events: seq<Event>): nat {
    if events == [] then 0
    else Packets(events[..|events| - 1]) + if events[|events| - 1].PacketSeen? then 1 else 0
  }

  lemma {:induction false} PacketsSnoc(events: seq<Event>, e: Event)
    ensures Packets(events + [e]) == Packets(events) + if e.PacketSeen? then 1 else 0
  {
    assert (events + [e])[..|events|] == events;
  }

  /** Between the states the object stayed or came to be, its flag was not cleared, and the queue tells so and no more. */
  ghost predicate Told(b: State, s: State, ref: Ref) {
    var was, now := Found(b, ref), Found(s, ref);
    && (was.Some? ==> now.Some? && (was.value.changed ==> now.value.changed))
    && (was.None? && now.Some? ==> now.value.changed)
    && About(s.events, ref) == About(b.events, ref) + News(ref, was, now)
    && Packets(s.events) == Packets(b.events)
  }

  lemma {:induction false} ToldNothing(s: State, ref: Ref)
    ensures Told(s, s, ref)
  {
  }

  // ---- the elementary changes

  lemma {:induction false} GetFound(s: State, added: Ref, ref: Ref)
    requires AllUnique(s)
    ensures Found(Get(s, added), ref) == if ref == added then Some(Was(s, ref)) else Found(s, ref)
  {
    var rows := K(s, TagOf(added)).rows;
    if !Has(rows, added) {
      assert UniqueRefs(rows);
      AppendedRow(rows, Row(added, Init(added), 0, true), ref);
    }
  }

  /** What the elementary changes queue. */
  lemma {:induction false} EventsOf(s: State, r: Ref, c: Content)
    ensures Get(s, r).events == if Found(s, r).None? then s.events + [Created(r)] else s.events
    ensures Touch(s, r, c).events ==
              if Found(s, r).Some? && !Found(s, r).value.changed then s.events + [Updated(r)] else s.events
    ensures Drop(s, r).events == if Found(s, r).Some? then s.events + [Deleted(r)] else s.events
    ensures Count(s, r).events == s.events
  {
  }

  lemma {:induction false} GetAt(b: State, s: State, added: Ref, ref: Ref)
    requires Good(s) && Told(b, s, ref)
    ensures Good(Get(s, added)) && Told(b, Get(s, added), ref)
    ensures Found(Get(s, added), ref) == if ref == added then Some(Was(s, ref)) else Found(s, ref)
  {
    hide Good, Found, Get, AllUnique, About, Packets;
    GetGood(s, added);
    GoodUnique(s);
    GetFound(s, added, ref);
    EventsOf(s, added, Link(false));
    AboutSnoc(s.events, Created(added), ref);
    PacketsSnoc(s.events, Created(added));
  }

  lemma {:induction false} TouchFound(s: State, r: Ref, c: Content, ref: Ref)
    requires AllUnique(s)
    ensures Found(Touch(s, r, c), ref) ==
              if ref == r && Found(s, ref).Some? then Some(Found(s, ref).value.(content := c, changed := true))
              else Found(s, ref)
  {
    if Known(s, r) {
      SetRowContent(s, RowOf(s, r).(content := c, changed := true), ref);
    }
  }

  lemma {:induction false} TouchAt(b: State, s: State, r: Ref, c: Content, ref: Ref)
    requires AllUnique(s) && Told(b, s, ref)
    ensures Told(b, Touch(s, r, c), ref)
    ensures Found(Touch(s, r, c), ref) ==
              if ref == r && Found(s, ref).Some? then Some(Found(s, ref).value.(content := c, changed := true))
              else Found(s, ref)
  {
    hide Touch, Found, AllUnique, About, Packets;
    TouchFound(s, r, c, ref);
    EventsOf(s, r, c);
    AboutSnoc(s.events, Updated(r), ref);
    PacketsSnoc(s.events, Updated(r));
  }

  lemma {:induction false} CountFound(s: State, r: Ref, ref: Ref)
    requires AllUnique(s)
    ensures Found(Count(s, r), ref) ==
              if ref == r && Found(s, ref).Some? then Some(Found(s, ref).value.(count := Found(s, ref).value.count + 1))
              else Found(s, ref)
  {
    if Known(s, r) {
      SetRowContent(s, RowOf(s, r).(count := RowOf(s, r).count + 1), ref);
    }
  }

  lemma {:induction false} CountAt(b: State, s: State, r: Ref, ref: Ref)
    requires Good(s) && Told(b, s, ref)
    ensures Good(Count(s, r)) && Told(b, Count(s, r), ref)
    ensures Found(Count(s, r), ref) ==
              if ref == r && Found(s, ref).Some? then Some(Found(s, ref).value.(count := Found(s, ref).value.count + 1))
              else Found(s, ref)
  {
    hide Good, Found, Count, AllUnique, About, Packets;
    CountGood(s, r);
    GoodUnique(s);
    CountFound(s, r, ref);
    EventsOf(s, r, Link(false));
  }

  lemma {:induction false} DropFound(s: State, r: Ref, ref: Ref)
    requires AllUnique(s)
    ensures Found(Drop(s, r), ref) == if ref == r then None else Found(s, ref)
  {
    if Known(s, r) {
      RemovedRow(K(s, TagOf(r)).rows, r, ref);
    }
  }

  lemma {:induction false} DropAt(s: State, r: Ref, ref: Ref)
    requires AllUnique(s)
    ensures Found(Drop(s, r), ref) == if ref == r then None else Found(s, ref)
    ensures About(Drop(s, r).events, ref) == About(s.events, ref) + News(ref, Found(s, ref), Found(Drop(s, r), ref))
    ensures Packets(Drop(s, r).events) == Packets(s.events)
  {
    hide AllUnique, Found, Drop, About, Packets;
    DropFound(s, r, ref);
    EventsOf(s, r, Link(false));
    AboutSnoc(s.events, Deleted(r), ref);
    PacketsSnoc(s.events, Deleted(r));
  }

  // ---- setters of nodes

  function Marked(cond: bool, r: Row): Row {
    if cond then r.(changed := true) else r
  }

  function Counted(r: Row): Row {
    r.(count := r.count + 1)
  }

  function Erred(cond: bool, r: Row, k: ErrorKind): Row {
    if cond && r.content.Node? then r.(content := r.content.(errors := Bump(r.content.errors, k)), changed := true) else r
  }

  ghost function Routed(r: Row, t: Target, via: Mac): Row {
    if r.content.Node? && !WasThere(r.content.routes, t, via) then
      r.(content := r.content.(routes := Added(r.content.routes, t, via)), changed := true)
    else r
  }

  ghost function Unrouted(r: Row, t: Target, via: Mac): Row {
    if r.content.Node? && WasThere(r.content.routes, t, via) then
      r.(content := r.content.(routes := Removed(r.content.routes, t, via)), changed := true)
    else r
  }

  lemma {:induction false} MarkIfAt(b: State, cond: bool, s: State, r: Ref, ref: Ref)
    requires Good(s) && Told(b, s, ref)
    ensures Good(MarkIf(cond, s, r)) && Told(b, MarkIf(cond, s, r), ref)
    ensures Found(MarkIf(cond, s, r), ref) ==
              if ref == r && Found(s, ref).Some? then Some(Marked(cond, Found(s, ref).value)) else Found(s, ref)
  {
    MarkIfGood(cond, s, r);
    InvUnique(s);
    TouchAt(b, s, r, ContentOf(s, r), ref);
  }

  lemma {:induction false} ErrorAt(b: State, cond: bool, s: State, mac: Mac, k: ErrorKind, ref: Ref)
    requires Good(s) && Told(b, s, ref)
    ensures var s1 := EditErrorsIf(cond, s, mac, k);
            && Good(s1) && Told(b, s1, ref)
            && Found(s1, ref) == if ref == NodeRef(mac) && Found(s, ref).Some? then Some(Erred(cond, Found(s, ref).value, k))
                                 else Found(s, ref)
  {
    EditErrorsIfGood(cond, s, mac, k);
    InvUnique(s);
    var c := ContentOf(s, NodeRef(mac));
    if c.Node? {
      TouchAt(b, s, NodeRef(mac), c.(errors := Bump(c.errors, k)), ref);
    }
  }

  lemma {:induction false} AddRouteAt(b: State, s: State, mac: Mac, t: Target, via: Mac, ref: Ref)
    requires Good(s) && Told(b, s, ref)
    ensures var s1 := AddNodeRoute(s, mac, t, via);
            && Good(s1) && Told(b, s1, ref)
            && Found(s1, ref) == if ref == NodeRef(mac) && Found(s, ref).Some? then Some(Routed(Found(s, ref).value, t, via))
                                 else Found(s, ref)
  {
    RouteGood(s, mac, t, via);
    InvUnique(s);
    var c := ContentOf(s, NodeRef(mac));
    if c.Node? {
      TouchAt(b, s, NodeRef(mac), c.(routes := Added(c.routes, t, via)), ref);
    }
  }

  lemma {:induction false} DelRouteAt(b: State, s: State, mac: Mac, t: Target, via: Mac, ref: Ref)
    requires Good(s) && Told(b, s, ref)
    ensures var s1 := DelNodeRoute(s, mac, t, via);
            && Good(s1) && Told(b, s1, ref)
            && Found(s1, ref) == if ref == NodeRef(mac) && Found(s, ref).Some? then Some(Unrouted(Found(s, ref).value, t, via))
                                 else Found(s, ref)
  {
    RouteGood(s, mac, t, via);
    InvUnique(s);
    var c := ContentOf(s, NodeRef(mac));
    if c.Node? {
      TouchAt(b, s, NodeRef(mac), c.(routes := Removed(c.routes, t, via)), ref);
    }
  }

  /** The sender of a packet: known from now on, and one packet more. */
  lemma {:induction false} SenderAt(b: State, s: State, mac: Mac, cond: bool, ref: Ref)
    requires Good(s) && Told(b, s, ref)
    ensures var s1 := MarkIf(cond, Count(Get(s, NodeRef(mac)), NodeRef(mac)), NodeRef(mac));
            && Good(s1) && Told(b, s1, ref)
            && Found(s1, ref) == if ref == NodeRef(mac) then Some(Marked(cond, Counted(Was(s, ref)))) else Found(s, ref)
  {
    hide Good, Told, Found, Get, Count, MarkIf;
    var got := Get(s, NodeRef(mac));
    GetAt(b, s, NodeRef(mac), ref);
    CountAt(b, got, NodeRef(mac), ref);
    MarkIfAt(b, cond, Count(got, NodeRef(mac)), NodeRef(mac), ref);
  }

  // ---- links

  /** links_deprecate_all_from, after n links. */
  lemma {:induction false} DeprecateAt(b: State, s: State, child: Mac, parent: Mac, n: nat, ref: Ref)
    requires Good(s) && n <= |s.links.rows| && Told(b, s, ref)
    ensures var s1 := Deprecate(s, child, parent, n);
            && Good(s1) && Told(b, s1, ref)
            && Found(s1, ref) ==
                 if ref.LinkRef? && ref.child == child && ref.parent != parent && Found(s, ref).Some?
                    && PlaceOf(s.links.rows, ref) < n then
                   Some(Found(s, ref).value.(content := Link(true), changed := true))
                 else Found(s, ref)
  {
    hide Told, Good, Touch;
    if n == 0 {
    } else {
      DeprecateGood(s, child, parent, n - 1);
      DeprecateGood(s, child, parent, n);
      DeprecateAt(b, s, child, parent, n - 1, ref);
      var s0, row := Deprecate(s, child, parent, n - 1), s.links.rows[n - 1].ref;
      PlaceOfLink(s, n - 1);
      GoodUnique(s0);
      TouchAt(b, s0, row, Link(true), ref);
    }
  }

  lemma {:induction false} GoodUnique(s: State)
    requires Good(s)
    ensures AllUnique(s)
  {
    InvUnique(s);
  }

  lemma {:induction false} PlaceOfLink(s: State, i: nat)
    requires Good(s) && i < |s.links.rows|
    ensures Known(s, s.links.rows[i].ref) && s.links.rows[i].ref.LinkRef? && PlaceOf(s.links.rows, s.links.rows[i].ref) == i
  {
    assert KindOk(s, Links) && RowOk(K(s, Links), Links, s.events, i);
    PlaceIs(K(s, Links).rows, s.links.rows[i].ref, i);
  }

  /** A link that is seen again: one packet more, and not deprecated. */
  function Refreshed(r: Row): Row {
    if r.content == Link(true) then r.(content := Link(false), count := r.count + 1, changed := true)
    else r.(count := r.count + 1)
  }

  function Deprecated(r: Row): Row {
    r.(content := Link(true), changed := true)
  }

  /** What a DAO or a data packet toward the root does with the links. */
  lemma {:induction false} RefreshAt(b: State, s: State, child: Mac, parent: Mac, onePreferredParent: bool, ref: Ref)
    requires Good(s) && Told(b, s, ref)
    ensures var s1 := RefreshLink(s, child, parent, onePreferredParent);
            && Good(s1) && Told(b, s1, ref)
            && Found(s1, ref) ==
                 if ref == LinkRef(child, parent) then Some(Refreshed(Was(s, ref)))
                 else if onePreferredParent && ref.LinkRef? && ref.child == child && Found(s, ref).Some? then
                   Some(Deprecated(Found(s, ref).value))
                 else Found(s, ref)
  {
    hide Told, Good, Deprecate, Get;
    var link := LinkRef(child, parent);
    RefreshGood(s, child, parent, onePreferredParent);
    GetAt(b, s, link, ref);
    var s0 := Get(s, link);
    DeprecateAt(b, s0, child, parent, |s0.links.rows|, ref);
    var s1 := if onePreferredParent then Deprecate(s0, child, parent, |s0.links.rows|) else s0;
    UpdateAt(b, s1, link, ref);
  }

  lemma {:induction false} UpdateAt(b: State, s: State, link: Ref, ref: Ref)
    requires Good(s) && Told(b, s, ref)
    ensures Told(b, UpdateLink(s, link), ref)
    ensures Found(UpdateLink(s, link), ref) ==
              if ref == link && Found(s, ref).Some? then Some(Refreshed(Found(s, ref).value)) else Found(s, ref)
  {
    hide Told, Good, Touch, Count;
    CountAt(b, s, link, ref);
    ToldNothing(s, link);
    CountAt(s, s, link, link);
    var s0 := Count(s, link);
    GoodUnique(s0);
    TouchAt(b, s0, link, Link(false), ref);
  }

  // ---- membership

  /** node_set_dodag. */
  lemma {:induction false} SetDodagAt(b: State, s: State, mac: Mac, d: Option<DodagId>, ref: Ref)
    requires AllUnique(s) && Told(b, s, ref) && ContentOf(s, NodeRef(mac)).Node?
    ensures var s1 := SetDodag(s, mac, d);
            && AllUnique(s1) && Told(b, s1, ref)
            && Found(s1, ref) ==
                 if ref == NodeRef(mac) && Found(s, ref).Some? && Found(s, ref).value.content.dodag != d then
                   Some(Found(s, ref).value.(content := Found(s, ref).value.content.(dodag := d), changed := true))
                 else Found(s, ref)
  {
    var c := ContentOf(s, NodeRef(mac));
    TouchAt(b, s, NodeRef(mac), c.(dodag := d), ref);
    TouchContent(s, NodeRef(mac), c.(dodag := d), ref);
  }
}
