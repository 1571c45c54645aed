/**
 What a packet is for: the membership that a DIO brings about and the routes that DAOs and data packets install or take
 away, seen in the state after the whole packet.
 */
module CollectorEffects {
  import opened Address
  import opened CollectorMembers
  import opened CollectorRuns
  import opened CollectorSpec
  import opened NetworkInvariant
  import opened NetworkState
  import opened Options
  import opened Routes

  /** A step that leaves a node known, in its DODAG and with its routes. */
  ghost predicate Keeps(s: State, s1: State, mac: Mac) {
    && (Known(s, NodeRef(mac)) ==> Known(s1, NodeRef(mac)))
    && DodagOf(s1, mac) == DodagOf(s, mac) && RoutesOf(s1, mac) == RoutesOf(s, mac)
  }

  lemma {:induction false} TouchKeeps(s: State, ref: Ref, c: Content, mac: Mac)
    requires Good(s) && (ref == NodeRef(mac) ==> c.Node? && c.dodag == DodagOf(s, mac) && c.routes == RoutesOf(s, mac))
    ensures Keeps(s, Touch(s, ref, c), mac)
  {
    InvUnique(s);
    ContentFits(s, NodeRef(mac));
    TouchContent(s, ref, c, NodeRef(mac));
  }

  lemma {:induction false} GetKeeps(s: State, ref: Ref, mac: Mac)
    requires Good(s)
    ensures Keeps(s, Get(s, ref), mac)
  {
    InvUnique(s);
    GetContent(s, ref, NodeRef(mac));
  }

  lemma {:induction false} CountKeeps(s: State, ref: Ref, mac: Mac)
    requires Good(s)
    ensures Keeps(s, Count(s, ref), mac)
  {
    InvUnique(s);
    CountContent(s, ref, NodeRef(mac));
  }

  lemma {:induction false} MarkIfKeeps(cond: bool, s: State, ref: Ref, mac: Mac)
    requires Good(s)
    ensures Keeps(s, MarkIf(cond, s, ref), mac) && Keeps(s, Mark(s, ref), mac)
  {
    ContentFits(s, ref);
    TouchKeeps(s, ref, ContentOf(s, ref), mac);
  }

  lemma {:induction false} EditErrorsIfKeeps(cond: bool, s: State, node: Mac, k: ErrorKind, mac: Mac)
    requires Good(s)
    ensures Keeps(s, EditErrorsIf(cond, s, node, k), mac)
  {
    var c := ContentOf(s, NodeRef(node));
    ContentFits(s, NodeRef(node));
    TouchKeeps(s, NodeRef(node), c.(errors := Bump(c.errors, k)), mac);
  }

  // ---- a DIO

  lemma {:induction false} AddDodagKeeps(s: State, id: nat, d: DodagId, mac: Mac)
    requires Good(s) && Good(SetInstance(s, d, id))
    ensures Keeps(s, AddDodag(s, id, d), mac)
  {
    var c, i := ContentOf(s, DodagRef(d)), ContentOf(s, InstanceRef(id));
    if c.Dodag? {
      TouchKeeps(s, DodagRef(d), c.(instance := Some(id)), mac);
    }
    if i.Instance? {
      TouchKeeps(SetInstance(s, d, id), InstanceRef(id), i.(dodags := i.dodags + [d]), mac);
    }
  }

  lemma {:induction false} SetMopKeeps(s: State, id: nat, mop: nat, mac: Mac)
    requires Good(s)
    ensures Keeps(s, SetMop(s, id, mop), mac)
  {
    var i := ContentOf(s, InstanceRef(id));
    if i.Instance? {
      TouchKeeps(s, InstanceRef(id), i.(mop := mop), mac);
    }
  }

  lemma {:induction false} DioRootKeeps(s: State, p: Packet, mac: Mac)
    requires Good(s) && p.Dio?
    ensures Keeps(s, DioRoot(s, p), mac) && Good(DioRoot(s, p))
  {
    var id, d := p.instance, p.dodag;
    InstanceGood(s, id, d, p.mop);
    AddDodagKeeps(s, id, d, mac);
    var added := AddDodag(s, id, d);
    InstanceGood(added, id, d, p.mop);
    SetMopKeeps(added, id, p.mop, mac);
    MarkIfGood(p.dodagDiffers, SetMop(added, id, p.mop), DodagRef(d));
    MarkIfKeeps(p.dodagDiffers, SetMop(added, id, p.mop), DodagRef(d), mac);
  }

  lemma {:induction false} DioNodeKeeps(s: State, p: Packet, mac: Mac)
    requires Good(s) && p.Dio?
    ensures Keeps(s, DioNode(s, p), mac)
  {
    var ref := NodeRef(p.src);
    CountGood(s, ref);
    CountKeeps(s, ref, mac);
    MarkIfGood(true, Count(s, ref), ref);
    MarkIfKeeps(true, Count(s, ref), ref, mac);
    var marked := Mark(Count(s, ref), ref);
    EditErrorsIfGood(p.configDiffers, marked, p.src, ConfigMismatch);
    EditErrorsIfKeeps(p.configDiffers, marked, p.src, ConfigMismatch, mac);
    EditErrorsIfKeeps(p.prefixDiffers, EditErrorsIf(p.configDiffers, marked, p.src, ConfigMismatch), p.src, ConfigMismatch, mac);
  }

  lemma {:induction false} FlagMembersKeeps(s: State, members: seq<Mac>, flagged: set<Mac>, n: nat, mac: Mac)
    requires Good(s) && n <= |members|
    ensures Keeps(s, FlagMembers(s, members, flagged, n), mac)
  {
    if n == 0 {
    } else {
      FlagMembersKeeps(s, members, flagged, n - 1, mac);
      FlagMembersGood(s, members, flagged, n - 1);
      EditErrorsIfKeeps(members[n - 1] in flagged, FlagMembers(s, members, flagged, n - 1), members[n - 1], ConfigMismatch, mac);
    }
  }

  /** After a DIO its sender names the DODAG of the DIO, is in its member list, and in no other. */
  lemma {:induction false} DioJoins(s: State, p: Packet, d: DodagId)
    requires Good(s) && p.Dio?
    ensures DodagOf(ParseDio(s, p), p.src) == Some(p.dodag)
    ensures p.src in MembersOf(ParseDio(s, p), d) <==> d == p.dodag
  {
    DioGood(s, p);
    GetGood(s, InstanceRef(p.instance));
    var a := Get(s, InstanceRef(p.instance));
    GetGood(a, DodagRef(p.dodag));
    var b := Get(a, DodagRef(p.dodag));
    GetGood(b, NodeRef(p.src));
    InvUnique(b);
    GetContent(b, NodeRef(p.src), DodagRef(p.dodag));
    AddNodeGood(Get(b, NodeRef(p.src)), p.dodag, p.src);
    var joined := DioJoin(s, p);
    DioRootKeeps(joined, p, p.src);
    DioNodeKeeps(DioRoot(joined, p), p, p.src);
    DioNodeGood(DioRoot(joined, p), p);
    var s0 := DioNode(DioRoot(joined, p), p);
    FlagMembersKeeps(s0, MembersOf(s0, p.dodag), p.flagged, |MembersOf(s0, p.dodag)|, p.src);
    assert Agrees(ParseDio(s, p), p.src, d);
  }

  // ---- routes

  /** node_add_route: afterwards the next hop of the prefix is the given node, and no other prefix is touched. */
  lemma {:induction false} AddNodeRouteInstalls(s: State, mac: Mac, t: Target, via: Mac, u: Target)
    requires Good(s) && Known(s, NodeRef(mac))
    ensures NextHop(RoutesOf(AddNodeRoute(s, mac, t, via), mac), u) ==
              if SameTarget(t, u) then Some(via) else NextHop(RoutesOf(s, mac), u)
  {
    InvUnique(s);
    var c := ContentOf(s, NodeRef(mac));
    ContentFits(s, NodeRef(mac));
    assert TableOk(s, mac);
    AddedIsUpdate(c.routes, t, via, u);
    TouchContent(s, NodeRef(mac), c.(routes := Added(c.routes, t, via)), NodeRef(mac));
    if SameTarget(t, u) {
      SameHop(c.routes, t, u);
    }
  }

  lemma {:induction false} DelNodeRouteRemoves(s: State, mac: Mac, t: Target, via: Mac, u: Target)
    requires Good(s)
    ensures NextHop(RoutesOf(DelNodeRoute(s, mac, t, via), mac), u) ==
              if SameTarget(t, u) && NextHop(RoutesOf(s, mac), u) == Some(via) then None else NextHop(RoutesOf(s, mac), u)
  {
    InvUnique(s);
    var c := ContentOf(s, NodeRef(mac));
    ContentFits(s, NodeRef(mac));
    assert TableOk(s, mac);
    RemovedIsUpdate(c.routes, t, via, u);
    TouchContent(s, NodeRef(mac), c.(routes := Removed(c.routes, t, via)), NodeRef(mac));
    if SameTarget(t, u) {
      SameHop(c.routes, t, u);
    }
  }

  lemma {:induction false} DeprecateKeeps(s: State, child: Mac, parent: Mac, n: nat, mac: Mac)
    requires Good(s) && n <= |s.links.rows|
    ensures Keeps(s, Deprecate(s, child, parent, n), mac)
  {
    if n == 0 {
    } else {
      DeprecateKeeps(s, child, parent, n - 1, mac);
      DeprecateGood(s, child, parent, n - 1);
      if s.links.rows[n - 1].ref.LinkRef? {
        TouchKeeps(Deprecate(s, child, parent, n - 1), s.links.rows[n - 1].ref, Link(true), mac);
      }
    }
  }

  lemma {:induction false} RefreshKeeps(s: State, child: Mac, parent: Mac, onePreferredParent: bool, mac: Mac)
    requires Good(s)
    ensures Keeps(s, RefreshLink(s, child, parent, onePreferredParent), mac)
  {
    var ref := LinkRef(child, parent);
    GetGood(s, ref);
    GetKeeps(s, ref, mac);
    var s0 := Get(s, ref);
    DeprecateGood(s0, child, parent, |s0.links.rows|);
    DeprecateKeeps(s0, child, parent, |s0.links.rows|, mac);
    var s1 := if onePreferredParent then Deprecate(s0, child, parent, |s0.links.rows|) else s0;
    CountGood(s1, ref);
    CountKeeps(s1, ref, mac);
    TouchKeeps(Count(s1, ref), ref, Link(false), mac);
  }

  lemma {:induction false} DaoNodesKnows(s: State, p: Packet, mac: Mac)
    requires Good(s) && p.Dao?
    ensures Keeps(s, DaoNodes(s, p), mac) && Known(DaoNodes(s, p), NodeRef(p.dst)) && Known(DaoNodes(s, p), NodeRef(p.src))
  {
    DaoObjectsKeep(s, p, mac);
    DaoObjectsKeep(s, p, p.src);
    DaoObjectsKeep(s, p, p.dst);
    var s0 := DaoObjects(s, p);
    EditErrorsIfKeeps(true, s0, p.src, DodagMismatch, mac);
    EditErrorsIfKeeps(true, s0, p.src, DodagMismatch, p.src);
    EditErrorsIfKeeps(true, s0, p.src, DodagMismatch, p.dst);
  }

  lemma {:induction false} DaoObjectsKeep(s: State, p: Packet, mac: Mac)
    requires Good(s) && p.Dao?
    ensures Good(DaoObjects(s, p)) && Keeps(s, DaoObjects(s, p), mac)
    ensures mac == p.src || mac == p.dst ==> Known(DaoObjects(s, p), NodeRef(mac))
  {
    var ref := NodeRef(p.src);
    GetGood(s, ref);
    GetKeeps(s, ref, mac);
    var a := Get(s, ref);
    CountGood(a, ref);
    CountKeeps(a, ref, mac);
    MarkIfGood(p.ipDiffers, Count(a, ref), ref);
    MarkIfKeeps(p.ipDiffers, Count(a, ref), ref, mac);
    var child := MarkIf(p.ipDiffers, Count(a, ref), ref);
    GetGood(child, NodeRef(p.dst));
    GetKeeps(child, NodeRef(p.dst), mac);
    var b := Get(child, NodeRef(p.dst));
    GetGood(b, InstanceRef(p.instance));
    GetKeeps(b, InstanceRef(p.instance), mac);
    EditErrorsIfGood(p.ipMismatch, Get(b, InstanceRef(p.instance)), p.src, IpMismatch);
    EditErrorsIfKeeps(p.ipMismatch, Get(b, InstanceRef(p.instance)), p.src, IpMismatch, mac);
  }

  lemma {:induction false} DaoLinkKeeps(s: State, p: Packet, onePreferredParent: bool, mac: Mac)
    requires Good(s) && p.Dao? && Idle(s, LinkRef(p.src, p.dst))
    ensures Keeps(s, DaoLink(s, p, onePreferredParent), mac)
  {
    RefreshGood(s, p.src, p.dst, onePreferredParent);
    RefreshKeeps(s, p.src, p.dst, onePreferredParent, mac);
    EditErrorsIfKeeps(true, RefreshLink(s, p.src, p.dst, onePreferredParent), p.src, RouteLoop, mac);
    InvUnique(s);
    DropContent(s, LinkRef(p.src, p.dst), NodeRef(mac));
  }

  lemma {:induction false} RouteThenMark(s: State, mac: Mac, t: Target, via: Mac, cond: bool)
    requires Good(s)
    ensures RoutesOf(MarkIf(cond, AddNodeRoute(s, mac, t, via), NodeRef(via)), mac) == RoutesOf(AddNodeRoute(s, mac, t, via), mac)
    ensures RoutesOf(MarkIf(cond, DelNodeRoute(s, mac, t, via), NodeRef(via)), mac) == RoutesOf(DelNodeRoute(s, mac, t, via), mac)
  {
    RouteGood(s, mac, t, via);
    MarkIfKeeps(cond, AddNodeRoute(s, mac, t, via), NodeRef(via), mac);
    MarkIfKeeps(cond, DelNodeRoute(s, mac, t, via), NodeRef(via), mac);
  }

  /** The part of a DAO that edits the routes of its destination. */
  lemma {:induction false} DaoRouteEdits(s: State, p: Packet, u: Target)
    requires Good(s) && p.Dao? && p.lifetime.Some? && p.target.Some? && Known(s, NodeRef(p.dst))
    ensures NextHop(RoutesOf(DaoRoute(s, p), p.dst), u) == HopAfterDao(NextHop(RoutesOf(s, p.dst), u), p, u)
  {
    var t := Target(p.target.value.0, p.target.value.1, p.lifetime.value);
    RouteThenMark(s, p.dst, t, p.src, p.target.value.1 == p.childIp);
    AddNodeRouteInstalls(s, p.dst, t, p.src, u);
    DelNodeRouteRemoves(s, p.dst, t, p.src, u);
  }

  lemma {:induction false} DaoLinkedKeeps(s: State, p: Packet, onePreferredParent: bool)
    requires Good(s) && LinksIdle(s) && p.Dao?
    ensures var s1 := DaoLink(DaoNodes(s, p), p, onePreferredParent);
            Good(s1) && Known(s1, NodeRef(p.dst)) && RoutesOf(s1, p.dst) == RoutesOf(s, p.dst)
  {
    DaoNodesGood(s, p);
    DaoNodesKnows(s, p, p.dst);
    DaoLinkGood(DaoNodes(s, p), p, onePreferredParent);
    DaoLinkKeeps(DaoNodes(s, p), p, onePreferredParent, p.dst);
  }

  /** The next hop of a target u at the destination of a DAO: a path lifetime above 0 makes the sender of the DAO the
      next hop of its target, a No-Path DAO takes that away, and the other prefixes are as before. */
  ghost function HopAfterDao(was: Option<Mac>, p: Packet, u: Target): Option<Mac>
    requires p.Dao? && p.lifetime.Some? && p.target.Some?
  {
    if !SameTarget(Target(p.target.value.0, p.target.value.1, p.lifetime.value), u) then was
    else if p.lifetime.value > 0 then Some(p.src)
    else if was == Some(p.src) then None
    else was
  }

  /** What a DAO with a target does with the routes of its destination, over the whole packet. */
  lemma {:induction false} DaoRoutes(s: State, p: Packet, onePreferredParent: bool, u: Target)
    requires Good(s) && LinksIdle(s) && p.Dao? && p.lifetime.Some? && p.target.Some?
    ensures NextHop(RoutesOf(ParseDao(s, p, onePreferredParent), p.dst), u)
            == HopAfterDao(NextHop(RoutesOf(s, p.dst), u), p, u)
  {
    DaoLinkedKeeps(s, p, onePreferredParent);
    DaoRouteEdits(DaoLink(DaoNodes(s, p), p, onePreferredParent), p, u);
  }

  // ---- error counters

  function Times(members: seq<Mac>, mac: Mac): nat {
    if members == [] then 0
    else Times(members[..|members| - 1], mac) + if members[|members| - 1] == mac then 1 else 0
  }

  /** dodag_set_nodes_changed counts one configuration error for every member whose configuration differs, and changes
      nothing else, in no object. */
  lemma {:induction false} FlagMembersCounts(s: State, members: seq<Mac>, flagged: set<Mac>, n: nat, ref: Ref)
    requires Good(s) && n <= |members|
    ensures Known(FlagMembers(s, members, flagged, n), ref) <==> Known(s, ref)
    ensures var c := ContentOf(s, ref);
            ContentOf(FlagMembers(s, members, flagged, n), ref) ==
              if ref.NodeRef? && ref.mac in flagged && Known(s, ref) && c.Node? then
                c.(errors := c.errors.(configMismatch := c.errors.configMismatch + Times(members[..n], ref.mac)))
              else c
  {
    if n == 0 {
      assert members[..0] == [];
    } else {
      FlagMembersCounts(s, members, flagged, n - 1, ref);
      FlagMembersGood(s, members, flagged, n - 1);
      assert members[..n][..n - 1] == members[..n - 1];
      EditErrorsAt(members[n - 1] in flagged, FlagMembers(s, members, flagged, n - 1), members[n - 1], ref);
    }
  }

  lemma {:induction false} EditErrorsAt(cond: bool, s: State, mac: Mac, ref: Ref)
    requires Good(s)
    ensures Known(EditErrorsIf(cond, s, mac, ConfigMismatch), ref) <==> Known(s, ref)
    ensures var c := ContentOf(s, ref);
            ContentOf(EditErrorsIf(cond, s, mac, ConfigMismatch), ref) ==
              if cond && ref == NodeRef(mac) && Known(s, ref) && c.Node? then
                c.(errors := c.errors.(configMismatch := c.errors.configMismatch + 1))
              else c
  {
    InvUnique(s);
    var c := ContentOf(s, NodeRef(mac));
    if c.Node? {
      TouchContent(s, NodeRef(mac), c.(errors := Bump(c.errors, ConfigMismatch)), ref);
    }
  }
}
