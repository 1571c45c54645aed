/**
 A DIS and a data packet from one end to the other: for each object of the network, what it is afterwards.
 */
module DataResults {
  import opened Address
  import opened CollectorMembers
  import opened CollectorSpec
  import opened NetworkState
  import opened Observations
  import opened Options
  import opened Routes

  function One(b: bool): nat {
    if b then 1 else 0
  }

  /** The packet is for one node, and says how it is routed. */
  predicate Hops(p: Packet) {
    p.Data? && p.dst != 0 && p.dst != 0xFFFF && p.hop.Some?
  }

  predicate Climbs(p: Packet) {
    Hops(p) && p.hop.value.towardRoot
  }

  predicate Descends(p: Packet) {
    Hops(p) && !p.hop.value.towardRoot
  }

  /** The routing table leads to the address. */
  ghost predicate LeadsTo(routes: seq<Route>, ip: Ip) {
    exists i {:trigger routes[i]} :: 0 <= i < |routes| && routes[i].target.prefix == ip
  }

  /** What the packet says of its sender. */
  function Heard(p: Packet, r: Row): Row
    requires p.Data?
  {
    Erred(Hops(p) && p.hop.value.forwardingError,
          Erred(Hops(p) && p.hop.value.rankError, Marked(p.differs, Counted(r)), Rank), Forward)
  }

  lemma {:induction false} DataNodesAt(b: State, s: State, p: Packet, ref: Ref)
    requires Good(s) && p.Data? && Told(b, s, ref)
    ensures Good(DataNodes(s, p)) && Told(b, DataNodes(s, p), ref)
    ensures Found(DataNodes(s, p), ref) ==
              if ref == NodeRef(p.src) then Some(Heard(p, Was(s, ref)))
              else if ref == NodeRef(p.dst) && p.dst != 0 && p.dst != 0xFFFF then Some(Was(s, ref))
              else Found(s, ref)
  {
    hide Good, Told, Found, Get, Count, MarkIf, EditErrorsIf;
    SenderAt(b, s, p.src, p.differs, ref);
    var src := MarkIf(p.differs, Count(Get(s, NodeRef(p.src)), NodeRef(p.src)), NodeRef(p.src));
    if p.dst != 0 && p.dst != BROADCAST {
      GetAt(b, src, NodeRef(p.dst), ref);
      var dst := Get(src, NodeRef(p.dst));
      if p.hop.Some? {
        ErrorAt(b, p.hop.value.rankError, dst, p.src, Rank, ref);
        ErrorAt(b, p.hop.value.forwardingError, EditErrorsIf(p.hop.value.rankError, dst, p.src, Rank), p.src, Forward, ref);
      }
    }
  }

  function RowRoutes(r: Row): seq<Route> {
    if r.content.Node? then r.content.routes else []
  }

  lemma {:induction false} RoutesAre(s: State, mac: Mac)
    requires Found(s, NodeRef(mac)).Some?
    ensures RoutesOf(s, mac) == RowRoutes(Found(s, NodeRef(mac)).value)
  {
  }

  /** The route that a packet toward the root adds at its destination. */
  ghost function Climbed(p: Packet, r: Row, mac: Mac): Row
    requires p.Data?
  {
    if mac == p.dst then Routed(r, Target(128, p.srcIp, 0), p.src) else r
  }

  /** And the checks of its sender. */
  function Checked(p: Packet, r: Row, mac: Mac): Row
    requires p.Data?
  {
    if mac == p.src then
      Erred(UpwardError(p), Erred(HasRouteTo(RowRoutes(r), p.parentIp), r, RouteLoop), CollectorSpec.Upward)
    else r
  }

  lemma {:induction false} CheckedAt(b: State, s: State, p: Packet, ref: Ref)
    requires Good(s) && p.Data? && Told(b, s, ref)
    ensures var s1 := EditErrorsIf(HasRouteTo(RoutesOf(s, p.src), p.parentIp), s, p.src, RouteLoop);
            var s2 := EditErrorsIf(UpwardError(p), s1, p.src, CollectorSpec.Upward);
            && Good(s2) && Told(b, s2, ref)
            && Found(s2, ref) == if ref.NodeRef? && Found(s, ref).Some? then Some(Checked(p, Found(s, ref).value, ref.mac))
                                 else Found(s, ref)
  {
    hide Good, Told, Found, EditErrorsIf, Erred, HasRouteTo, RoutesOf, RowRoutes;
    if ref == NodeRef(p.src) && Found(s, ref).Some? {
      RoutesAre(s, p.src);
    }
    var loop := HasRouteTo(RoutesOf(s, p.src), p.parentIp);
    ErrorAt(b, loop, s, p.src, RouteLoop, ref);
    ErrorAt(b, UpwardError(p), EditErrorsIf(loop, s, p.src, RouteLoop), p.src, CollectorSpec.Upward, ref);
  }

  lemma {:induction false} UpwardAt(b: State, s: State, p: Packet, onePreferredParent: bool, ref: Ref)
    requires Good(s) && p.Data? && Told(b, s, ref)
    ensures var s1 := DataUpward(s, p, onePreferredParent);
            && Good(s1) && Told(b, s1, ref)
            && Found(s1, ref) ==
                 if ref.NodeRef? then
                   if Found(s, ref).Some? then Some(Checked(p, Climbed(p, Found(s, ref).value, ref.mac), ref.mac)) else None
                 else Found(RefreshLink(s, p.src, p.dst, onePreferredParent), ref)
  {
    hide Good, Told, Found, RefreshLink, AddNodeRoute, EditErrorsIf, RoutesOf, HasRouteTo, Checked, Routed;
    RefreshAt(b, s, p.src, p.dst, onePreferredParent, ref);
    var linked := RefreshLink(s, p.src, p.dst, onePreferredParent);
    AddRouteAt(b, linked, p.dst, Target(128, p.srcIp, 0), p.src, ref);
    CheckedAt(b, AddNodeRoute(linked, p.dst, Target(128, p.srcIp, 0), p.src), p, ref);
  }

  lemma {:induction false} DownwardAt(b: State, s: State, p: Packet, ref: Ref)
    requires Good(s) && p.Data? && Told(b, s, ref)
    ensures var s1 := DataDownward(s, p);
            && Good(s1) && Told(b, s1, ref)
            && Found(s1, ref) ==
                 if ref == NodeRef(p.src) && Found(s, ref).Some? then
                   Some(Erred(DownwardError(p), Routed(Found(s, ref).value, Target(128, p.dstIp, 0), p.dst), CollectorSpec.Downward))
                 else Found(s, ref)
  {
    hide Good, Told, Found, AddNodeRoute, EditErrorsIf, Erred, Routed;
    AddRouteAt(b, s, p.src, Target(128, p.dstIp, 0), p.dst, ref);
    ErrorAt(b, DownwardError(p), AddNodeRoute(s, p.src, Target(128, p.dstIp, 0), p.dst), p.src, CollectorSpec.Downward, ref);
  }

  /** The sender and the destination of a packet, which are known afterwards. */
  predicate Named(p: Packet, mac: Mac)
    requires p.Data?
  {
    mac == p.src || (mac == p.dst && p.dst != 0 && p.dst != 0xFFFF)
  }

  ghost function DataRow(p: Packet, r: Row, mac: Mac): Row
    requires p.Data?
  {
    var heard := if mac == p.src then Heard(p, r) else r;
    if Climbs(p) then Checked(p, Climbed(p, heard, mac), mac)
    else if Descends(p) && mac == p.src then
      Erred(DownwardError(p), Routed(heard, Target(128, p.dstIp, 0), p.dst), CollectorSpec.Downward)
    else heard
  }

  lemma {:induction false} DataNodeAt(b: State, s: State, p: Packet, onePreferredParent: bool, ref: Ref)
    requires Good(s) && p.Data? && Told(b, s, ref) && ref.NodeRef?
    ensures var s1 := ParseData(s, p, onePreferredParent);
            && Told(b, s1, ref)
            && Found(s1, ref) == if Named(p, ref.mac) then Some(DataRow(p, Was(s, ref), ref.mac)) else Found(s, ref)
  {
    hide Good, Told, Found, Was, DataNodes, DataUpward, DataDownward, Heard, Erred, Routed;
    DataNodesAt(b, s, p, ref);
    UpwardAt(b, DataNodes(s, p), p, onePreferredParent, ref);
    DownwardAt(b, DataNodes(s, p), p, ref);
  }

  // ---- the results

  /** The row of a node, with a routing table that has one entry per prefix. */
  ghost predicate NodeOk(r: Row) {
    r.content.Node? && Unique(r.content.routes)
  }

  lemma {:induction false} WasNode(s: State, mac: Mac)
    requires Good(s)
    ensures NodeOk(Was(s, NodeRef(mac))) && RoutesOf(s, mac) == Was(s, NodeRef(mac)).content.routes
    ensures DodagOf(s, mac) == Was(s, NodeRef(mac)).content.dodag
  {
    assert TableOk(s, mac);
    GoodFits(s, NodeRef(mac));
  }

  lemma {:induction false} GoodFits(s: State, ref: Ref)
    requires Good(s)
    ensures Fits(ref, Was(s, ref).content) && Was(s, ref).content == ContentOf(s, ref)
  {
    NetworkInvariant.ContentFits(s, ref);
  }

  lemma {:induction false} RoutedIs(r: Row, t: Target, via: Mac, u: Target)
    requires NodeOk(r)
    ensures var r1 := Routed(r, t, via);
            && NodeOk(r1) && r1.content.dodag == r.content.dodag && r1.content.errors == r.content.errors
            && r1.count == r.count && (r1.changed <==> r.changed || r1.content.routes != r.content.routes)
            && NextHop(r1.content.routes, u) == if SameTarget(t, u) then Some(via) else NextHop(r.content.routes, u)
  {
    AddedIsUpdate(r.content.routes, t, via, u);
    AddedIsUpdate(r.content.routes, t, via, t);
    SameTargetEquivalence(t, t, t);
    if SameTarget(t, u) {
      SameHop(r.content.routes, t, u);
    }
  }

  /** A host route is for one address. */
  lemma {:induction false} HostTarget(ip: Ip, u: Target)
    ensures SameTarget(Target(128, ip, 0), u) <==> u.length == 128 && u.prefix == ip
  {
    FullPrefixIsEquality(ip, u.prefix);
  }

  /** From one row to another the counters of routing errors grow by so much, and the flag says if anything changed. */
  ghost predicate Grows(w: Row, r: Row, rank: nat, forward: nat, routeLoop: nat, upward: nat, downward: nat) {
    && w.content.Node? && r.content.Node? && r.content.dodag == w.content.dodag
    && var e, f := w.content.errors, r.content.errors;
       && f.rank == e.rank + rank && f.forward == e.forward + forward && f.routeLoop == e.routeLoop + routeLoop
       && f.upward == e.upward + upward && f.downward == e.downward + downward
       && f.ipMismatch == e.ipMismatch && f.dodagMismatch == e.dodagMismatch && f.configMismatch == e.configMismatch
  }

  /** The flag is set if anything changed. */
  ghost predicate Flagged(w: Row, r: Row, told: bool) {
    r.changed <==> w.changed || r.content != w.content || told
  }

  lemma {:induction false} HeardIs(p: Packet, w: Row)
    requires p.Data? && w.content.Node?
    ensures var r := Heard(p, w);
            && Grows(w, r, One(Hops(p) && p.hop.value.rankError), One(Hops(p) && p.hop.value.forwardingError), 0, 0, 0)
            && Flagged(w, r, p.differs) && r.content.routes == w.content.routes && r.count == w.count + 1
  {
  }

  lemma {:induction false} CheckedIs(p: Packet, w: Row)
    requires p.Data? && w.content.Node?
    ensures var r := Checked(p, w, p.src);
            && Grows(w, r, 0, 0, One(LeadsTo(w.content.routes, p.parentIp)), One(UpwardError(p)), 0)
            && Flagged(w, r, false) && r.content.routes == w.content.routes && r.count == w.count
  {
    LeadsIff(w.content.routes, p.parentIp);
  }

  lemma {:induction false} RoutedGrows(r: Row, t: Target, via: Mac, u: Target)
    requires NodeOk(r)
    ensures var r1 := Routed(r, t, via);
            && NodeOk(r1) && Grows(r, r1, 0, 0, 0, 0, 0) && Flagged(r, r1, false) && r1.count == r.count
            && NextHop(r1.content.routes, u) == if SameTarget(t, u) then Some(via) else NextHop(r.content.routes, u)
  {
    RoutedIs(r, t, via, u);
  }

  lemma {:induction false} GrowsTwice(v: Row, w: Row, r: Row, a: nat, b: nat, c: nat, d: nat, e: nat,
                                      f: nat, g: nat, h: nat, i: nat, j: nat, told: bool)
    requires Grows(v, w, a, b, c, d, e) && Grows(w, r, f, g, h, i, j) && Flagged(v, w, told) && Flagged(w, r, false)
    requires w.content.routes == v.content.routes || r.content.routes == w.content.routes
    ensures Grows(v, r, a + f, b + g, c + h, d + i, e + j) && Flagged(v, r, told)
  {
  }

  lemma {:induction false} DescendedIs(p: Packet, w: Row)
    requires p.Data? && w.content.Node?
    ensures var r := Erred(DownwardError(p), w, CollectorSpec.Downward);
            && Grows(w, r, 0, 0, 0, 0, One(DownwardError(p)))
            && Flagged(w, r, false) && r.content.routes == w.content.routes && r.count == w.count
  {
  }

  lemma {:induction false} GrowsNot(w: Row)
    requires w.content.Node?
    ensures Grows(w, w, 0, 0, 0, 0, 0) && Flagged(w, w, false)
  {
  }

  /** The row of a node that the packet does not come from. */
  lemma {:induction false} OtherRow(p: Packet, w: Row, m: Mac, u: Target)
    requires p.Data? && NodeOk(w) && m != p.src
    ensures var r := DataRow(p, w, m);
            && NodeOk(r) && r.count == w.count && Flagged(w, r, false) && Grows(w, r, 0, 0, 0, 0, 0)
            && NextHop(r.content.routes, u) ==
                 (if m == p.dst && Climbs(p) && u.length == 128 && u.prefix == p.srcIp then Some(p.src)
                  else NextHop(w.content.routes, u))
            && (!(m == p.dst && Climbs(p)) ==> r.content.routes == w.content.routes)
  {
    hide Routed, SameTarget, NextHop, NodeOk, Grows, Flagged;
    NodeOkNode(w);
    GrowsNot(w);
    HostTarget(p.srcIp, u);
    RoutedGrows(w, Target(128, p.srcIp, 0), p.src, u);
    NodeOkNode(Routed(w, Target(128, p.srcIp, 0), p.src));
  }

  /** The row of the sender after the route of a packet, before the checks. */
  lemma {:induction false} SenderRouted(p: Packet, w: Row, t: Target, via: Mac, here: bool, u: Target)
    requires p.Data? && NodeOk(w)
    ensures var heard := Heard(p, w);
            var r := if here then Routed(heard, t, via) else heard;
            && NodeOk(r) && r.count == w.count + 1 && Flagged(w, r, p.differs)
            && Grows(w, r, One(Hops(p) && p.hop.value.rankError), One(Hops(p) && p.hop.value.forwardingError), 0, 0, 0)
            && NextHop(r.content.routes, u) ==
                 (if here && SameTarget(t, u) then Some(via) else NextHop(w.content.routes, u))
            && (!here ==> r.content.routes == w.content.routes)
  {
    hide Routed, SameTarget, NextHop, NodeOk, Grows, Flagged, Heard;
    NodeOkNode(w);
    HeardIs(p, w);
    var heard := Heard(p, w);
    GrowsNode(w, heard, One(Hops(p) && p.hop.value.rankError), One(Hops(p) && p.hop.value.forwardingError), 0, 0, 0);
    SameRoutesOk(w, heard);
    if here {
      RoutedGrows(heard, t, via, u);
      NodeOkNode(Routed(heard, t, via));
      GrowsTwice(w, heard, Routed(heard, t, via), One(Hops(p) && p.hop.value.rankError),
                 One(Hops(p) && p.hop.value.forwardingError), 0, 0, 0, 0, 0, 0, 0, 0, p.differs);
    }
  }

  lemma {:induction false} GrowsNode(w: Row, r: Row, a: nat, b: nat, c: nat, d: nat, e: nat)
    requires Grows(w, r, a, b, c, d, e)
    ensures w.content.Node? && r.content.Node?
  {
  }

  /** The row of the sender. */
  lemma {:induction false} SenderRow(p: Packet, w: Row, u: Target)
    requires p.Data? && NodeOk(w)
    ensures var r, m := DataRow(p, w, p.src), p.src;
            && NodeOk(r) && r.count == w.count + 1 && Flagged(w, r, p.differs)
            && Grows(w, r, One(Hops(p) && p.hop.value.rankError), One(Hops(p) && p.hop.value.forwardingError),
                     One(Climbs(p) && LeadsTo(r.content.routes, p.parentIp)),
                     One(Climbs(p) && UpwardError(p)), One(Descends(p) && DownwardError(p)))
            && NextHop(r.content.routes, u) ==
                 (if m == p.dst && Climbs(p) && u.length == 128 && u.prefix == p.srcIp then Some(p.src)
                  else if Descends(p) && u.length == 128 && u.prefix == p.dstIp then Some(p.dst)
                  else NextHop(w.content.routes, u))
            && (!(m == p.dst && Climbs(p)) && !Descends(p) ==> r.content.routes == w.content.routes)
  {
    hide Routed, SameTarget, NextHop, NodeOk, Grows, Flagged, Heard, Checked, Erred, LeadsTo;
    HostTarget(p.srcIp, u);
    HostTarget(p.dstIp, u);
    var t, via, here := if Descends(p) then Target(128, p.dstIp, 0) else Target(128, p.srcIp, 0),
                        if Descends(p) then p.dst else p.src, Descends(p) || (Climbs(p) && p.src == p.dst);
    SenderRouted(p, w, t, via, here, u);
    var heard := Heard(p, w);
    var mid := if here then Routed(heard, t, via) else heard;
    var a, b := One(Hops(p) && p.hop.value.rankError), One(Hops(p) && p.hop.value.forwardingError);
    GrowsNode(w, mid, a, b, 0, 0, 0);
    var r := DataRow(p, w, p.src);
    if Climbs(p) {
      CheckedIs(p, mid);
      assert r == Checked(p, mid, p.src);
      var c, d := One(LeadsTo(mid.content.routes, p.parentIp)), One(UpwardError(p));
      GrowsNode(mid, r, 0, 0, c, d, 0);
      GrowsTwice(w, mid, r, a, b, 0, 0, 0, 0, 0, c, d, 0, p.differs);
      SameRoutesOk(mid, r);
    } else if Descends(p) {
      DescendedIs(p, mid);
      GrowsNode(mid, r, 0, 0, 0, 0, One(DownwardError(p)));
      GrowsTwice(w, mid, r, a, b, 0, 0, 0, 0, 0, 0, 0, One(DownwardError(p)), p.differs);
      SameRoutesOk(mid, r);
    }
  }

  lemma {:induction false} DataRowFields(p: Packet, w: Row, m: Mac, u: Target)
    requires p.Data? && NodeOk(w)
    ensures var r := DataRow(p, w, m);
            && NodeOk(r) && r.count == w.count + One(m == p.src) && Flagged(w, r, m == p.src && p.differs)
            && Grows(w, r, One(m == p.src && Hops(p) && p.hop.value.rankError),
                     One(m == p.src && Hops(p) && p.hop.value.forwardingError),
                     One(m == p.src && Climbs(p) && LeadsTo(r.content.routes, p.parentIp)),
                     One(m == p.src && Climbs(p) && UpwardError(p)), One(m == p.src && Descends(p) && DownwardError(p)))
            && NextHop(r.content.routes, u) ==
                 (if m == p.dst && Climbs(p) && u.length == 128 && u.prefix == p.srcIp then Some(p.src)
                  else if m == p.src && Descends(p) && u.length == 128 && u.prefix == p.dstIp then Some(p.dst)
                  else NextHop(w.content.routes, u))
            && (!(m == p.dst && Climbs(p)) && !(m == p.src && Descends(p)) ==> r.content.routes == w.content.routes)
  {
    hide DataRow, NextHop, NodeOk, Grows, Flagged, LeadsTo, Hops, Climbs, Descends;
    if m == p.src {
      SenderRow(p, w, u);
    } else {
      OtherRow(p, w, m, u);
    }
  }

  lemma {:induction false} NodeOkNode(w: Row)
    requires NodeOk(w)
    ensures w.content.Node?
  {
  }

  lemma {:induction false} SameRoutesOk(w: Row, r: Row)
    requires NodeOk(w) && r.content.Node? && r.content.routes == w.content.routes
    ensures NodeOk(r)
  {
  }

  lemma {:induction false} LeadsIff(routes: seq<Route>, ip: Ip)
    ensures LeadsTo(routes, ip) <==> HasRouteTo(routes, ip)
  {
  }

  /** A data packet and a node. Its sender has one packet more, and counts the errors that the packet reports or reveals,
      each by one; memberships stay; and the node is marked for the next snapshot if and only if it was marked, something
      of it changed, or the packet differs in what is not modelled. */
  lemma {:induction false} DataNode(s: State, p: Packet, onePreferredParent: bool, m: Mac)
    requires Good(s) && p.Data?
    ensures var s1, ref := ParseData(s, p, onePreferredParent), NodeRef(m);
            && (Known(s1, ref) <==> Known(s, ref) || m == p.src || (m == p.dst && p.dst != 0 && p.dst != 0xFFFF))
            && (Known(s1, ref) ==>
                  var w, r := Was(s, ref), RowOf(s1, ref);
                  && w.content.Node? && r.content.Node?
                  && r.content.dodag == w.content.dodag && r.count == w.count + One(m == p.src)
                  && (r.changed <==> w.changed || r.content != w.content || (m == p.src && p.differs))
                  && var e, f := w.content.errors, r.content.errors;
                     && f.rank == e.rank + One(m == p.src && Hops(p) && p.hop.value.rankError)
                     && f.forward == e.forward + One(m == p.src && Hops(p) && p.hop.value.forwardingError)
                     && f.routeLoop == e.routeLoop + One(m == p.src && Climbs(p) && LeadsTo(r.content.routes, p.parentIp))
                     && f.upward == e.upward + One(m == p.src && Climbs(p) && p.dstRank.Some?
                                                   && p.hop.value.senderRank < p.dstRank.value)
                     && f.downward == e.downward + One(m == p.src && Descends(p) && p.dstRank.Some?
                                                       && p.hop.value.senderRank > p.dstRank.value)
                     && f.ipMismatch == e.ipMismatch && f.dodagMismatch == e.dodagMismatch
                     && f.configMismatch == e.configMismatch)
  {
    hide Good, Told, DataRow, NodeOk, ParseData, LeadsTo;
    ToldNothing(s, NodeRef(m));
    DataNodeAt(s, s, p, onePreferredParent, NodeRef(m));
    WasNode(s, m);
    DataRowFields(p, Was(s, NodeRef(m)), m, Target(0, p.srcIp, 0));
    NodeOkNode(Was(s, NodeRef(m)));
    NodeOkNode(DataRow(p, Was(s, NodeRef(m)), m));
    if !Named(p, m) {
      DataRowOther(p, Was(s, NodeRef(m)), m);
    }
  }

  lemma {:induction false} DataRowOther(p: Packet, w: Row, m: Mac)
    requires p.Data? && !Named(p, m)
    ensures DataRow(p, w, m) == w
  {
  }

  /** A data packet and the routes of a node. Toward the root, the destination gets a route to the source address through
      the sender; away from the root, the sender gets a route to the destination address through the destination. All
      other routes of all nodes stay. */
  lemma {:induction false} DataRoutes(s: State, p: Packet, onePreferredParent: bool, m: Mac, u: Target)
    requires Good(s) && p.Data?
    ensures var s1 := ParseData(s, p, onePreferredParent);
            NextHop(RoutesOf(s1, m), u) ==
              if m == p.dst && Climbs(p) && u.length == 128 && u.prefix == p.srcIp then Some(p.src)
              else if m == p.src && Descends(p) && u.length == 128 && u.prefix == p.dstIp then Some(p.dst)
              else NextHop(RoutesOf(s, m), u)
    ensures !(m == p.dst && Climbs(p)) && !(m == p.src && Descends(p)) ==>
              RoutesOf(ParseData(s, p, onePreferredParent), m) == RoutesOf(s, m)
  {
    hide Good, Told, DataRow, NodeOk, ParseData, NextHop, RoutesOf;
    ToldNothing(s, NodeRef(m));
    DataNodeAt(s, s, p, onePreferredParent, NodeRef(m));
    WasNode(s, m);
    DataGood(s, p, onePreferredParent);
    WasNode(ParseData(s, p, onePreferredParent), m);
    DataRowFields(p, Was(s, NodeRef(m)), m, u);
    if !Named(p, m) {
      DataRowOther(p, Was(s, NodeRef(m)), m);
    }
  }

  /** A data packet and everything that is no node. Toward the root the link of sender and destination is there and live
      and has one packet more; with one preferred parent the other links of the sender are deprecated. Nothing else
      changes: no other link, no DODAG, no instance. */
  lemma {:induction false} DataLinks(s: State, p: Packet, onePreferredParent: bool, ref: Ref)
    requires Good(s) && p.Data? && !ref.NodeRef?
    ensures var s1 := ParseData(s, p, onePreferredParent);
            if Climbs(p) && ref == LinkRef(p.src, p.dst) then
              var w := Was(s, ref);
              Found(s1, ref) == Some(Row(ref, Link(false), w.count + 1, w.changed || w.content == Link(true)))
            else if Climbs(p) && onePreferredParent && ref.LinkRef? && ref.child == p.src && Known(s, ref) then
              Found(s1, ref) == Some(Row(ref, Link(true), RowOf(s, ref).count, true))
            else Found(s1, ref) == Found(s, ref)
  {
    hide Good, Told, DataNodes, DataUpward, DataDownward, RefreshLink;
    ToldNothing(s, ref);
    DataNodesAt(s, s, p, ref);
    var s0 := DataNodes(s, p);
    GoodFits(s, ref);
    UpwardAt(s, s0, p, onePreferredParent, ref);
    DownwardAt(s, s0, p, ref);
    RefreshAt(s, s0, p.src, p.dst, onePreferredParent, ref);
  }

  /** A data packet is told in full: one Created event for an object that is new, one Updated event for any other that is
      marked for the first time, and no more. */
  lemma {:induction false} DataTold(b: State, s: State, p: Packet, onePreferredParent: bool, ref: Ref)
    requires Good(s) && p.Data? && Told(b, s, ref)
    ensures Told(b, ParseData(s, p, onePreferredParent), ref)
  {
    hide Good, Told, DataNodes, DataUpward, DataDownward;
    DataNodesAt(b, s, p, ref);
    UpwardAt(b, DataNodes(s, p), p, onePreferredParent, ref);
    DownwardAt(b, DataNodes(s, p), p, ref);
  }

  // ---- a DIS

  /** A DIS makes its sender known, counts one packet for it and marks it. Nothing else changes. */
  lemma {:induction false} DisResult(b: State, s: State, p: Packet, ref: Ref)
    requires Good(s) && p.Dis? && Told(b, s, ref)
    ensures var s1 := ParseDis(s, p);
            && Told(b, s1, ref)
            && Found(s1, ref) ==
                 if ref == NodeRef(p.src) then Some(Row(ref, Was(s, ref).content, Was(s, ref).count + 1, true)) else Found(s, ref)
  {
    SenderAt(b, s, p.src, true, ref);
  }
}
