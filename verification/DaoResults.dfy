/**
 A DAO from one end to the other: for each object of the network, what it is afterwards.
 */
module DaoResults {
  import opened Address
  import opened CollectorEffects
  import opened CollectorMembers
  import opened CollectorSpec
  import opened DataResults
  import opened NetworkInvariant
  import opened NetworkState
  import opened Observations
  import opened Options
  import opened Routes

  /** Both ends name a DODAG, and the parent's has another address than the DAO says. */
  ghost predicate Strays(s: State, p: Packet)
    requires p.Dao?
  {
    && p.dodagIp.Some? && Was(s, NodeRef(p.src)).content.Node? && Was(s, NodeRef(p.src)).content.dodag.Some?
    && Was(s, NodeRef(p.dst)).content.Node? && Was(s, NodeRef(p.dst)).content.dodag.Some?
    && Was(s, NodeRef(p.dst)).content.dodag.value.ip != p.dodagIp.value
  }

  /** The transit option says that the path is there. */
  predicate Lasts(p: Packet) {
    p.Dao? && p.lifetime.Some? && p.lifetime.value > 0
  }

  /** A No-Path DAO of the child's own address. */
  ghost predicate Withdraws(p: Packet) {
    p.Dao? && p.lifetime == Some(0) && p.target.Some? && SamePrefix(p.childIp, p.target.value.1, p.target.value.0)
  }

  predicate Routing(p: Packet) {
    p.Dao? && p.lifetime.Some? && p.target.Some?
  }

  function TargetOf(p: Packet): Target
    requires Routing(p)
  {
    Target(p.target.value.0, p.target.value.1, p.lifetime.value)
  }

  function DaoHeard(p: Packet, r: Row, strays: bool): Row
    requires p.Dao?
  {
    Erred(strays, Erred(p.ipMismatch, Marked(p.ipDiffers, Counted(r)), IpMismatch), DodagMismatch)
  }

  lemma {:induction false} DaoObjectsAt(b: State, s: State, p: Packet, ref: Ref)
    requires Good(s) && p.Dao? && Told(b, s, ref)
    ensures Good(DaoObjects(s, p)) && Told(b, DaoObjects(s, p), ref)
    ensures Found(DaoObjects(s, p), ref) ==
              if ref == NodeRef(p.src) then Some(DaoHeard(p, Was(s, ref), false))
              else if ref == NodeRef(p.dst) || ref == InstanceRef(p.instance) then Some(Was(s, ref))
              else Found(s, ref)
  {
    hide Good, Told, Found, Get, Count, MarkIf, EditErrorsIf;
    SenderAt(b, s, p.src, p.ipDiffers, ref);
    var child := MarkIf(p.ipDiffers, Count(Get(s, NodeRef(p.src)), NodeRef(p.src)), NodeRef(p.src));
    GetAt(b, child, NodeRef(p.dst), ref);
    GetAt(b, Get(child, NodeRef(p.dst)), InstanceRef(p.instance), ref);
    ErrorAt(b, p.ipMismatch, Get(Get(child, NodeRef(p.dst)), InstanceRef(p.instance)), p.src, IpMismatch, ref);
  }

  /** Up to here no node has changed its DODAG. */
  lemma {:induction false} DodagStill(s: State, p: Packet, mac: Mac)
    requires Good(s) && p.Dao?
    ensures DodagOf(DaoObjects(s, p), mac) == DodagOf(s, mac)
    ensures Was(s, NodeRef(mac)).content.Node? && DodagOf(s, mac) == Was(s, NodeRef(mac)).content.dodag
  {
    hide Good, Told, DaoObjects, DodagOf;
    ToldNothing(s, NodeRef(mac));
    DaoObjectsAt(s, s, p, NodeRef(mac));
    WasNode(s, mac);
    WasNode(DaoObjects(s, p), mac);
  }

  lemma {:induction false} DaoNodesAt(b: State, s: State, p: Packet, ref: Ref)
    requires Good(s) && p.Dao? && Told(b, s, ref)
    ensures Good(DaoNodes(s, p)) && Told(b, DaoNodes(s, p), ref)
    ensures Found(DaoNodes(s, p), ref) ==
              if ref == NodeRef(p.src) then Some(DaoHeard(p, Was(s, ref), Strays(s, p)))
              else if ref == NodeRef(p.dst) || ref == InstanceRef(p.instance) then Some(Was(s, ref))
              else Found(s, ref)
  {
    hide Good, Told, Found, Was, DaoObjects, EditErrorsIf, DodagOf, Erred, Marked, Counted;
    DaoObjectsAt(b, s, p, ref);
    DodagStill(s, p, p.src);
    DodagStill(s, p, p.dst);
    ErredNot(Erred(p.ipMismatch, Marked(p.ipDiffers, Counted(Was(s, ref))), IpMismatch), DodagMismatch);
    ErrorAt(b, Strays(s, p), DaoObjects(s, p), p.src, DodagMismatch, ref);
  }

  lemma {:induction false} ErredNot(r: Row, k: ErrorKind)
    ensures Erred(false, r, k) == r
  {
  }

  /** The checks of the child, against its routes as they are before. */
  function DaoChecked(p: Packet, r: Row): Row
    requires p.Dao?
  {
    Erred(Lasts(p) && HasRouteTo(RowRoutes(r), p.parentIp), r, RouteLoop)
  }

  lemma {:induction false} DaoLinkAt(b: State, s: State, p: Packet, onePreferredParent: bool, ref: Ref)
    requires Good(s) && p.Dao? && Told(b, s, ref) && !Withdraws(p)
    ensures var s1 := DaoLink(s, p, onePreferredParent);
            && Good(s1) && Told(b, s1, ref)
            && Found(s1, ref) ==
                 if ref == NodeRef(p.src) && Found(s, ref).Some? then Some(DaoChecked(p, Found(s, ref).value))
                 else if Lasts(p) then Found(RefreshLink(s, p.src, p.dst, onePreferredParent), ref)
                 else Found(s, ref)
  {
    hide Good, Told, Found, RefreshLink, EditErrorsIf, Erred, HasRouteTo, RoutesOf, SamePrefix;
    if Lasts(p) {
      RefreshAt(b, s, p.src, p.dst, onePreferredParent, ref);
      var s0 := RefreshLink(s, p.src, p.dst, onePreferredParent);
      if ref == NodeRef(p.src) && Found(s, ref).Some? {
        RoutesAre(s0, p.src);
      }
      ErrorAt(b, HasRouteTo(RoutesOf(s0, p.src), p.parentIp), s0, p.src, RouteLoop, ref);
    } else if ref == NodeRef(p.src) && Found(s, ref).Some? {
      ErredNot(Found(s, ref).value, RouteLoop);
    }
  }

  lemma {:induction false} DaoDropAt(s: State, p: Packet, onePreferredParent: bool, ref: Ref)
    requires Good(s) && p.Dao? && Withdraws(p) && Idle(s, LinkRef(p.src, p.dst))
    ensures var s1 := DaoLink(s, p, onePreferredParent);
            && Good(s1) && Found(s1, ref) == (if ref == LinkRef(p.src, p.dst) then None else Found(s, ref))
            && About(s1.events, ref) == About(s.events, ref) + News(ref, Found(s, ref), Found(s1, ref))
            && Packets(s1.events) == Packets(s.events)
  {
    hide Good, About, Packets;
    GoodUnique(s);
    DropLinkGood(s, LinkRef(p.src, p.dst));
    DropAt(s, LinkRef(p.src, p.dst), ref);
  }

  /** The route of a DAO, at its destination. */
  ghost function DaoRouted(p: Packet, r: Row): Row
    requires p.Dao?
  {
    if !Routing(p) then r
    else if p.lifetime.value > 0 then Routed(r, TargetOf(p), p.src)
    else Unrouted(r, TargetOf(p), p.src)
  }

  function Claimed(p: Packet, r: Row): Row
    requires p.Dao?
  {
    Marked(Routing(p) && p.target.value.1 == p.childIp, r)
  }

  ghost function DaoEdited(p: Packet, r: Row, mac: Mac): Row
    requires p.Dao?
  {
    var r1 := if mac == p.dst then DaoRouted(p, r) else r;
    if mac == p.src then Claimed(p, r1) else r1
  }

  ghost function RouteEdit(s: State, p: Packet): State
    requires Routing(p)
  {
    if p.lifetime.value > 0 then AddNodeRoute(s, p.dst, TargetOf(p), p.src) else DelNodeRoute(s, p.dst, TargetOf(p), p.src)
  }

  lemma {:induction false} RouteThenClaim(s: State, p: Packet)
    requires Routing(p)
    ensures DaoRoute(s, p) == MarkIf(p.target.value.1 == p.childIp, RouteEdit(s, p), NodeRef(p.src))
  {
  }

  lemma {:induction false} RouteEditAt(b: State, s: State, p: Packet, ref: Ref)
    requires Good(s) && Routing(p) && Told(b, s, ref)
    ensures var s1 := RouteEdit(s, p);
            && Good(s1) && Told(b, s1, ref)
            && Found(s1, ref) ==
                 if ref == NodeRef(p.dst) && Found(s, ref).Some? then Some(DaoRouted(p, Found(s, ref).value)) else Found(s, ref)
  {
    hide Good, Told, Found, AddNodeRoute, DelNodeRoute, Routed, Unrouted;
    AddRouteAt(b, s, p.dst, TargetOf(p), p.src, ref);
    DelRouteAt(b, s, p.dst, TargetOf(p), p.src, ref);
  }

  lemma {:induction false} DaoRouteAt(b: State, s: State, p: Packet, ref: Ref)
    requires Good(s) && p.Dao? && Told(b, s, ref)
    ensures var s1 := DaoRoute(s, p);
            && Good(s1) && Told(b, s1, ref)
            && Found(s1, ref) ==
                 if ref.NodeRef? && Found(s, ref).Some? then Some(DaoEdited(p, Found(s, ref).value, ref.mac)) else Found(s, ref)
  {
    hide Good, Told, Found, DaoRoute, RouteEdit, MarkIf, Marked, DaoRouted;
    if Routing(p) {
      RouteEditAt(b, s, p, ref);
      RouteThenClaim(s, p);
      MarkIfAt(b, p.target.value.1 == p.childIp, RouteEdit(s, p), NodeRef(p.src), ref);
    } else {
      RouteNot(s, p);
      if ref.NodeRef? && Found(s, ref).Some? {
        EditedNot(p, Found(s, ref).value, ref.mac);
      }
    }
  }

  lemma {:induction false} RouteNot(s: State, p: Packet)
    requires p.Dao? && !Routing(p)
    ensures DaoRoute(s, p) == s
  {
  }

  lemma {:induction false} EditedNot(p: Packet, r: Row, mac: Mac)
    requires p.Dao? && !Routing(p)
    ensures DaoEdited(p, r, mac) == r
  {
  }

  lemma {:induction false} CheckedNot(p: Packet, r: Row)
    requires p.Dao? && !Lasts(p)
    ensures DaoChecked(p, r) == r
  {
  }

  ghost function DaoRow(p: Packet, r: Row, mac: Mac, strays: bool): Row
    requires p.Dao?
  {
    DaoEdited(p, if mac == p.src then DaoChecked(p, DaoHeard(p, r, strays)) else r, mac)
  }

  lemma {:induction false} DaoOther(p: Packet, r: Row, mac: Mac, strays: bool)
    requires p.Dao? && mac != p.src && mac != p.dst
    ensures DaoRow(p, r, mac, strays) == r
  {
  }

  lemma {:induction false} IdleStill(s: State, s0: State, ref: Ref)
    requires LinksIdle(s) && s0.links == s.links && ref.LinkRef?
    ensures Idle(s0, ref)
  {
  }

  /** The state between the link and the route of a DAO. */
  lemma {:induction false} DaoLinkedAt(s: State, p: Packet, onePreferredParent: bool, ref: Ref)
    requires Good(s) && LinksIdle(s) && p.Dao?
    ensures var s1 := DaoLink(DaoNodes(s, p), p, onePreferredParent);
            && Good(s1) && About(s1.events, ref) == About(s.events, ref) + News(ref, Found(s, ref), Found(s1, ref))
            && Packets(s1.events) == Packets(s.events)
            && (!(Withdraws(p) && ref == LinkRef(p.src, p.dst)) ==> Told(s, s1, ref))
            && Found(s1, ref) ==
                 if ref == NodeRef(p.src) then Some(DaoChecked(p, DaoHeard(p, Was(s, ref), Strays(s, p))))
                 else if ref == NodeRef(p.dst) || ref == InstanceRef(p.instance) then Some(Was(s, ref))
                 else if Withdraws(p) && ref == LinkRef(p.src, p.dst) then None
                 else if Lasts(p) then Found(RefreshLink(DaoNodes(s, p), p.src, p.dst, onePreferredParent), ref)
                 else Found(s, ref)
  {
    hide Good, About, Packets, Found, Was, DaoNodes, DaoLink, DaoChecked, DaoHeard, RefreshLink, SamePrefix, Strays;
    ToldNothing(s, ref);
    DaoNodesAt(s, s, p, ref);
    var s0 := DaoNodes(s, p);
    if Withdraws(p) {
      IdleStill(s, s0, LinkRef(p.src, p.dst));
      CheckedNot(p, DaoHeard(p, Was(s, ref), Strays(s, p)));
      DaoDropAt(s0, p, onePreferredParent, ref);
    } else {
      DaoLinkAt(s, s0, p, onePreferredParent, ref);
      RefreshAt(s, s0, p.src, p.dst, onePreferredParent, ref);
    }
  }

  /** A whole DAO and one object. */
  lemma {:induction false} DaoAt(s: State, p: Packet, onePreferredParent: bool, ref: Ref)
    requires Good(s) && LinksIdle(s) && p.Dao?
    ensures var s1 := ParseDao(s, p, onePreferredParent);
            && Good(s1) && About(s1.events, ref) == About(s.events, ref) + News(ref, Found(s, ref), Found(s1, ref))
            && Packets(s1.events) == Packets(s.events)
            && Found(s1, ref) ==
                 if ref == NodeRef(p.src) || ref == NodeRef(p.dst) then Some(DaoRow(p, Was(s, ref), ref.mac, Strays(s, p)))
                 else if ref == InstanceRef(p.instance) then Some(Was(s, ref))
                 else if Withdraws(p) && ref == LinkRef(p.src, p.dst) then None
                 else if Lasts(p) then Found(RefreshLink(DaoNodes(s, p), p.src, p.dst, onePreferredParent), ref)
                 else Found(s, ref)
  {
    hide Good, About, Packets, Found, Was, DaoNodes, DaoLink, DaoRoute, DaoChecked, DaoHeard, DaoEdited, RefreshLink, Withdraws, Strays;
    DaoLinkedAt(s, p, onePreferredParent, ref);
    var s0 := DaoLink(DaoNodes(s, p), p, onePreferredParent);
    if Withdraws(p) && ref == LinkRef(p.src, p.dst) {
      ToldNothing(s0, ref);
      DaoRouteAt(s0, s0, p, ref);
    } else {
      DaoRouteAt(s, s0, p, ref);
    }
    if ref.NodeRef? && ref != NodeRef(p.src) && ref != NodeRef(p.dst) {
      OtherNodeStays(s, p, onePreferredParent, ref);
      if Found(s, ref).Some? {
        DaoEditedOther(p, Found(s, ref).value, ref.mac);
      }
    }
  }

  lemma {:induction false} DaoEditedOther(p: Packet, r: Row, mac: Mac)
    requires p.Dao? && mac != p.src && mac != p.dst
    ensures DaoEdited(p, r, mac) == r
  {
  }

  lemma {:induction false} OtherNodeStays(s: State, p: Packet, onePreferredParent: bool, ref: Ref)
    requires Good(s) && p.Dao? && ref.NodeRef? && ref != NodeRef(p.src) && ref != NodeRef(p.dst)
    ensures Found(RefreshLink(DaoNodes(s, p), p.src, p.dst, onePreferredParent), ref) == Found(s, ref)
  {
    hide Good, Told, Found, DaoNodes, RefreshLink;
    ToldNothing(s, ref);
    DaoNodesAt(s, s, p, ref);
    RefreshAt(s, DaoNodes(s, p), p.src, p.dst, onePreferredParent, ref);
  }

  // ---- the results

  lemma {:induction false} DaoElsewhere(s: State, p: Packet, onePreferredParent: bool, ref: Ref)
    requires Good(s) && LinksIdle(s) && p.Dao? && !ref.NodeRef?
    ensures Found(ParseDao(s, p, onePreferredParent), ref) ==
              if ref == LinkRef(p.src, p.dst) && Lasts(p) then Some(Refreshed(Was(s, ref)))
              else if ref == LinkRef(p.src, p.dst) && Withdraws(p) then None
              else if onePreferredParent && Lasts(p) && ref.LinkRef? && ref.child == p.src && Found(s, ref).Some? then
                Some(Deprecated(Found(s, ref).value))
              else if ref == InstanceRef(p.instance) then Some(Was(s, ref))
              else Found(s, ref)
  {
    hide Good, LinksIdle, Told, Found, Was, DaoNodes, ParseDao, RefreshLink, SamePrefix, Strays, DaoRow, Refreshed, Deprecated, DaoHeard;
    ToldNothing(s, ref);
    DaoNodesAt(s, s, p, ref);
    if ref.LinkRef? {
      WasFound(s, DaoNodes(s, p), ref);
    }
    RefreshAt(s, DaoNodes(s, p), p.src, p.dst, onePreferredParent, ref);
    DaoAt(s, p, onePreferredParent, ref);
  }

  lemma {:induction false} WasFound(s: State, s1: State, ref: Ref)
    requires Found(s1, ref) == Found(s, ref)
    ensures Was(s1, ref) == Was(s, ref)
  {
  }

  /** The link of a DAO is removed if and only if it withdraws the child's own address, is there and live after any other
      lifetime, and stays as it is without a transit option. With one preferred parent a lasting path deprecates the other
      links of the child. No DODAG changes, and no instance but that the one of the DAO is known from now on. */
  lemma {:induction false} DaoLinks(s: State, p: Packet, onePreferredParent: bool, ref: Ref)
    requires Good(s) && LinksIdle(s) && p.Dao? && !ref.NodeRef?
    ensures var s1 := ParseDao(s, p, onePreferredParent);
            if ref == LinkRef(p.src, p.dst) && p.lifetime.Some? && p.lifetime.value > 0 then
              var w := Was(s, ref);
              Found(s1, ref) == Some(Row(ref, Link(false), w.count + 1, w.changed || w.content == Link(true)))
            else if ref == LinkRef(p.src, p.dst) && p.lifetime == Some(0) && p.target.Some?
                    && SamePrefix(p.childIp, p.target.value.1, p.target.value.0) then
              !Known(s1, ref)
            else if onePreferredParent && p.lifetime.Some? && p.lifetime.value > 0 && ref.LinkRef? && ref.child == p.src
                    && Known(s, ref) then
              Found(s1, ref) == Some(Row(ref, Link(true), RowOf(s, ref).count, true))
            else if ref == InstanceRef(p.instance) then Found(s1, ref) == Some(Was(s, ref))
            else Found(s1, ref) == Found(s, ref)
  {
    hide Good, LinksIdle, ParseDao, SamePrefix;
    GoodFits(s, ref);
    DaoElsewhere(s, p, onePreferredParent, ref);
  }

  /** A DAO is told in full: every object that is new, first marked or gone has its one event. */
  lemma {:induction false} DaoTold(s: State, p: Packet, onePreferredParent: bool, ref: Ref)
    requires Good(s) && LinksIdle(s) && p.Dao?
    ensures var s1 := ParseDao(s, p, onePreferredParent);
            About(s1.events, ref) == About(s.events, ref) + News(ref, Found(s, ref), Found(s1, ref))
            && Packets(s1.events) == Packets(s.events)
  {
    hide *;
    DaoAt(s, p, onePreferredParent, ref);
  }

  /** The row of the child before its routes are edited. */
  lemma {:induction false} ChildChecked(p: Packet, w: Row, strays: bool)
    requires p.Dao? && w.content.Node?
    ensures var r := DaoChecked(p, DaoHeard(p, w, strays));
            && r.content.Node? && r.content.dodag == w.content.dodag && r.content.routes == w.content.routes
            && r.count == w.count + 1 && Flagged(w, r, p.ipDiffers)
            && var e, f := w.content.errors, r.content.errors;
               && f.routeLoop == e.routeLoop + One(Lasts(p) && LeadsTo(w.content.routes, p.parentIp))
               && f.ipMismatch == e.ipMismatch + One(p.ipMismatch) && f.dodagMismatch == e.dodagMismatch + One(strays)
               && f.rank == e.rank && f.forward == e.forward && f.upward == e.upward && f.downward == e.downward
               && f.configMismatch == e.configMismatch
  {
    hide HasRouteTo, LeadsTo;
    LeadsIff(w.content.routes, p.parentIp);
  }

  lemma {:induction false} DaoRoutedIs(p: Packet, w: Row)
    requires p.Dao? && NodeOk(w)
    ensures var r := DaoRouted(p, w);
            && r.content.Node? && r.content.dodag == w.content.dodag && r.content.errors == w.content.errors
            && r.count == w.count && Flagged(w, r, false) && (!Routing(p) ==> r == w)
  {
    hide NextHop, SameTarget, Routed, Unrouted, Unique;
    if Routing(p) {
      RoutedIs(w, TargetOf(p), p.src, TargetOf(p));
      UnroutedIs(w, TargetOf(p), p.src);
    }
  }

  lemma {:induction false} EditedIs(p: Packet, w: Row, m: Mac)
    requires p.Dao? && NodeOk(w)
    ensures var r := DaoEdited(p, w, m);
            && r.content.Node? && r.content.dodag == w.content.dodag && r.content.errors == w.content.errors
            && r.count == w.count && Flagged(w, r, m == p.src && Routing(p) && p.target.value.1 == p.childIp)
            && (m != p.dst || !Routing(p) ==> r.content.routes == w.content.routes)
  {
    hide DaoRouted, NodeOk;
    NodeOkNode(w);
    DaoRoutedIs(p, w);
  }

  lemma {:induction false} UnroutedIs(r: Row, t: Target, via: Mac)
    requires NodeOk(r)
    ensures var r1 := Unrouted(r, t, via);
            && r1.content.Node? && r1.content.dodag == r.content.dodag && r1.content.errors == r.content.errors
            && r1.count == r.count && Flagged(r, r1, false)
  {
    if WasThere(r.content.routes, t, via) {
      assert |Removed(r.content.routes, t, via)| < |r.content.routes|;
    }
  }

  /** A DAO and a node. The child has one packet more and counts, each by one: a destination address that is not the
      parent's, a DODAG that is not the parent's, and a route to the parent when the path lasts. */
  lemma {:induction false} DaoNode(s: State, p: Packet, onePreferredParent: bool, m: Mac)
    requires Good(s) && LinksIdle(s) && p.Dao?
    ensures var s1, ref := ParseDao(s, p, onePreferredParent), NodeRef(m);
            && (Known(s1, ref) <==> Known(s, ref) || m == p.src || m == p.dst)
            && (Known(s1, ref) ==>
                  var w, r := Was(s, ref), RowOf(s1, ref);
                  && w.content.Node? && r.content.Node?
                  && r.content.dodag == w.content.dodag && r.count == w.count + One(m == p.src)
                  && (r.changed <==> w.changed || r.content != w.content || (m == p.src && p.ipDiffers)
                                     || (m == p.src && p.lifetime.Some? && p.target.Some? && p.target.value.1 == p.childIp))
                  && var e, f := w.content.errors, r.content.errors;
                     && f.routeLoop == e.routeLoop + One(m == p.src && p.lifetime.Some? && p.lifetime.value > 0
                                                         && LeadsTo(w.content.routes, p.parentIp))
                     && f.ipMismatch == e.ipMismatch + One(m == p.src && p.ipMismatch)
                     && f.dodagMismatch == e.dodagMismatch + One(m == p.src && Strays(s, p))
                     && f.rank == e.rank && f.forward == e.forward && f.upward == e.upward && f.downward == e.downward
                     && f.configMismatch == e.configMismatch)
  {
    hide Good, ParseDao, LeadsTo, DaoChecked, DaoHeard, DaoEdited, NodeOk, Strays, SamePrefix;
    var w := Was(s, NodeRef(m));
    DaoAt(s, p, onePreferredParent, NodeRef(m));
    WasNode(s, m);
    NodeOkNode(w);
    EditedIs(p, w, m);
    ChildChecked(p, w, Strays(s, p));
    if m == p.src {
      var mid := DaoChecked(p, DaoHeard(p, w, Strays(s, p)));
      SameRoutesOk(w, mid);
      EditedIs(p, mid, m);
    } else if m != p.dst {
      OtherNodeStays(s, p, onePreferredParent, NodeRef(m));
    }
  }

  /** A DAO and the routes of a node: a lasting path makes the child the next hop of the target at the parent, a No-Path
      DAO takes that away if it is so, and no other route of any node changes. */
  lemma {:induction false} DaoHops(s: State, p: Packet, onePreferredParent: bool, m: Mac, u: Target)
    requires Good(s) && LinksIdle(s) && p.Dao?
    ensures var was := NextHop(RoutesOf(s, m), u);
            NextHop(RoutesOf(ParseDao(s, p, onePreferredParent), m), u) ==
              if m == p.dst && p.lifetime.Some? && p.target.Some? && u.length == p.target.value.0
                 && SamePrefix(p.target.value.1, u.prefix, p.target.value.0) then
                if p.lifetime.value > 0 then Some(p.src) else if was == Some(p.src) then None else was
              else was
    ensures m != p.dst || p.lifetime.None? || p.target.None? ==>
              RoutesOf(ParseDao(s, p, onePreferredParent), m) == RoutesOf(s, m)
  {
    hide Good, ParseDao, NextHop, RoutesOf, DaoChecked, DaoHeard, DaoEdited, NodeOk, Strays, SamePrefix;
    if m == p.dst && Routing(p) {
      DaoRoutes(s, p, onePreferredParent, u);
    } else {
      var w := Was(s, NodeRef(m));
      DaoAt(s, p, onePreferredParent, NodeRef(m));
      WasNode(s, m);
      WasNode(ParseDao(s, p, onePreferredParent), m);
      NodeOkNode(w);
      EditedIs(p, w, m);
      ChildChecked(p, w, Strays(s, p));
      if m == p.src {
        var mid := DaoChecked(p, DaoHeard(p, w, Strays(s, p)));
        SameRoutesOk(w, mid);
        EditedIs(p, mid, m);
      } else if m != p.dst {
        OtherNodeStays(s, p, onePreferredParent, NodeRef(m));
      }
    }
  }
}
