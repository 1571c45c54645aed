/**
 The collectors: what a DIS, DIO, DAO or data packet does to the network state, and the two invariants that span the
 kinds of objects. A node is in the member list of a DODAG exactly when it names that DODAG as its own, and with one
 preferred parent a child has one live link at most.

 Fields that are not part of the state enter as parts of the packet: whether a comparison of such fields finds a
 difference, and the settings and the global addresses of the nodes as they are when the packet is dealt with.
 */
module CollectorSpec {
  import opened Address
  import opened NetworkCommit
  import opened NetworkInvariant
  import opened NetworkState
  import opened Options
  import opened Routes
  import opened Sequences

  datatype Hop = Hop(rankError: bool, forwardingError: bool, towardRoot: bool, senderRank: nat)

  datatype Packet =
    | Dis(src: Mac)
    | Dio(src: Mac, instance: nat, dodag: DodagId, rank: nat, rootRank: nat, mop: nat,
          dodagDiffers: bool, configDiffers: bool, prefixDiffers: bool, flagged: set<Mac>)
    | Dao(src: Mac, dst: Mac, instance: nat, ipDiffers: bool, ipMismatch: bool, dodagIp: Option<Ip>,
          lifetime: Option<nat>, target: Option<(nat, Ip)>, childIp: Ip, parentIp: Ip)
    | Data(src: Mac, dst: Mac, differs: bool, hop: Option<Hop>, srcIp: Ip, dstIp: Ip, parentIp: Ip, dstRank: Option<nat>)

  const BROADCAST: Mac := 0xFFFF

  /** A DIO of a root: of rank 0, or of the rank that the settings give to roots. */
  predicate FromRoot(p: Packet)
    requires p.Dio?
  {
    p.rank == 0 || p.rank == p.rootRank
  }

  /** A packet toward the root whose sender has a lower rank than its destination, if that has one. */
  predicate UpwardError(p: Packet)
    requires p.Data?
  {
    p.hop.Some? && p.dstRank.Some? && p.hop.value.senderRank < p.dstRank.value
  }

  /** A packet away from the root whose sender has a higher rank. */
  predicate DownwardError(p: Packet)
    requires p.Data?
  {
    p.hop.Some? && p.dstRank.Some? && p.hop.value.senderRank > p.dstRank.value
  }

  datatype ErrorKind = Rank | Forward | Upward | Downward | RouteLoop | IpMismatch | DodagMismatch | ConfigMismatch

  function Bump(e: Errors, k: ErrorKind): Errors {
    match k
    case Rank => e.(rank := e.rank + 1)
    case Forward => e.(forward := e.forward + 1)
    case Upward => e.(upward := e.upward + 1)
    case Downward => e.(downward := e.downward + 1)
    case RouteLoop => e.(routeLoop := e.routeLoop + 1)
    case IpMismatch => e.(ipMismatch := e.ipMismatch + 1)
    case DodagMismatch => e.(dodagMismatch := e.dodagMismatch + 1)
    case ConfigMismatch => e.(configMismatch := e.configMismatch + 1)
  }

  // ---- reading the state

  ghost function DodagOf(s: State, mac: Mac): Option<DodagId> {
    var c := ContentOf(s, NodeRef(mac));
    if c.Node? then c.dodag else None
  }

  ghost function MembersOf(s: State, d: DodagId): seq<Mac> {
    var c := ContentOf(s, DodagRef(d));
    if c.Dodag? then c.members else []
  }

  ghost function RoutesOf(s: State, mac: Mac): seq<Route> {
    var c := ContentOf(s, NodeRef(mac));
    if c.Node? then c.routes else []
  }

  // ---- changes to nodes

  ghost function EditErrors(s: State, mac: Mac, k: ErrorKind): (s1: State)
    ensures SamePast(s, s1) && s1.links == s.links
  {
    var c := ContentOf(s, NodeRef(mac));
    if c.Node? then Touch(s, NodeRef(mac), c.(errors := Bump(c.errors, k))) else s
  }

  ghost function EditErrorsIf(cond: bool, s: State, mac: Mac, k: ErrorKind): (s1: State)
    ensures SamePast(s, s1) && s1.links == s.links
  {
    if cond then EditErrors(s, mac, k) else s
  }

  ghost function MarkIf(cond: bool, s: State, ref: Ref): (s1: State)
    ensures SamePast(s, s1) && (!ref.LinkRef? ==> s1.links == s.links)
  {
    if cond then Mark(s, ref) else s
  }

  /** node_set_dodag. */
  ghost function SetDodag(s: State, mac: Mac, d: Option<DodagId>): (s1: State)
    ensures SamePast(s, s1) && s1.links == s.links
  {
    var c := ContentOf(s, NodeRef(mac));
    if c.Node? && c.dodag != d then Touch(s, NodeRef(mac), c.(dodag := d)) else s
  }

  /** node_add_route: a route that was there before, through the same node, changes nothing. */
  ghost function AddNodeRoute(s: State, mac: Mac, t: Target, via: Mac): (s1: State)
    ensures SamePast(s, s1) && s1.links == s.links
  {
    var c := ContentOf(s, NodeRef(mac));
    if c.Node? && !WasThere(c.routes, t, via) then Touch(s, NodeRef(mac), c.(routes := Added(c.routes, t, via))) else s
  }

  /** node_del_route. */
  ghost function DelNodeRoute(s: State, mac: Mac, t: Target, via: Mac): (s1: State)
    ensures SamePast(s, s1) && s1.links == s.links
  {
    var c := ContentOf(s, NodeRef(mac));
    if c.Node? && WasThere(c.routes, t, via) then Touch(s, NodeRef(mac), c.(routes := Removed(c.routes, t, via))) else s
  }

  /** The search of a routing table for a route to the node's own parent. */
  predicate HasRouteTo(routes: seq<Route>, ip: Ip) {
    exists i :: 0 <= i < |routes| && routes[i].target.prefix == ip
  }

  // ---- changes to DODAGs and instances

  /** dodag_del_node. */
  ghost function DelNode(s: State, d: DodagId, mac: Mac): (s1: State)
    ensures SamePast(s, s1) && s1.links == s.links
  {
    var c := ContentOf(s, DodagRef(d));
    if c.Dodag? && mac in c.members then
      Touch(SetDodag(s, mac, None), DodagRef(d), c.(members := Without(c.members, mac)))
    else s
  }

  /** dodag_add_node. */
  ghost function AddNode(s: State, d: DodagId, mac: Mac): (s1: State)
    ensures SamePast(s, s1) && s1.links == s.links
  {
    var prev := DodagOf(s, mac);
    var left := if prev.Some? && prev.value != d && Known(s, DodagRef(prev.value)) then DelNode(s, prev.value, mac) else s;
    var c := ContentOf(left, DodagRef(d));
    if c.Dodag? && mac !in c.members then
      Touch(SetDodag(left, mac, Some(d)), DodagRef(d), c.(members := c.members + [mac]))
    else left
  }

  /** dodag_set_rpl_instance. */
  ghost function SetInstance(s: State, d: DodagId, id: nat): (s1: State)
    ensures SamePast(s, s1) && s1.links == s.links
  {
    var c := ContentOf(s, DodagRef(d));
    if c.Dodag? && c.instance != Some(id) then Touch(s, DodagRef(d), c.(instance := Some(id))) else s
  }

  /** rpl_instance_add_dodag. */
  ghost function AddDodag(s: State, id: nat, d: DodagId): (s1: State)
    ensures SamePast(s, s1) && s1.links == s.links
  {
    var c := ContentOf(s, InstanceRef(id));
    if c.Instance? && d !in c.dodags then
      Touch(SetInstance(s, d, id), InstanceRef(id), c.(dodags := c.dodags + [d]))
    else s
  }

  /** rpl_instance_set_mop. */
  ghost function SetMop(s: State, id: nat, mop: nat): (s1: State)
    ensures SamePast(s, s1) && s1.links == s.links
  {
    var c := ContentOf(s, InstanceRef(id));
    if c.Instance? && c.mop != mop then Touch(s, InstanceRef(id), c.(mop := mop)) else s
  }

  /** dodag_set_nodes_changed, over the first n members: those whose configuration differs get an error. */
  ghost function FlagMembers(s: State, members: seq<Mac>, flagged: set<Mac>, n: nat): (s1: State)
    requires n <= |members|
    ensures SamePast(s, s1) && s1.links == s.links
  {
    if n == 0 then s
    else EditErrorsIf(members[n - 1] in flagged, FlagMembers(s, members, flagged, n - 1), members[n - 1], ConfigMismatch)
  }

  // ---- changes to links

  /** links_deprecate_all_from, over the first n links. */
  ghost function Deprecate(s: State, child: Mac, parent: Mac, n: nat): (s1: State)
    requires n <= |s.links.rows|
    ensures SamePast(s, s1)
  {
    if n == 0 then s
    else
      var ref, s0 := s.links.rows[n - 1].ref, Deprecate(s, child, parent, n - 1);
      if ref.LinkRef? && ref.child == child && ref.parent != parent then Touch(s0, ref, Link(true)) else s0
  }

  /** link_update. */
  ghost function UpdateLink(s: State, ref: Ref): (s1: State)
    ensures SamePast(s, s1)
  {
    var s0 := Count(s, ref);
    if ContentOf(s0, ref) == Link(true) then Touch(s0, ref, Link(false)) else s0
  }

  /** What a DAO or a data packet toward the root does with the link of child and parent. */
  ghost function RefreshLink(s: State, child: Mac, parent: Mac, onePreferredParent: bool): (s1: State)
    ensures SamePast(s, s1)
  {
    var ref := LinkRef(child, parent);
    var s0 := Get(s, ref);
    UpdateLink(if onePreferredParent then Deprecate(s0, child, parent, |s0.links.rows|) else s0, ref)
  }

  // ---- the packets

  ghost function ParseDis(s: State, p: Packet): (s1: State)
    requires p.Dis?
    ensures SamePast(s, s1) && s1.links == s.links
  {
    Mark(Count(Get(s, NodeRef(p.src)), NodeRef(p.src)), NodeRef(p.src))
  }

  /** The objects that a DIO is about, and the membership of the node. */
  ghost function DioJoin(s: State, p: Packet): (s1: State)
    requires p.Dio?
    ensures SamePast(s, s1) && s1.links == s.links
  {
    AddNode(Get(Get(Get(s, InstanceRef(p.instance)), DodagRef(p.dodag)), NodeRef(p.src)), p.dodag, p.src)
  }

  /** What a DIO of a root tells of the instance and the DODAG. */
  ghost function DioRoot(s: State, p: Packet): (s1: State)
    requires p.Dio?
    ensures SamePast(s, s1) && s1.links == s.links
  {
    if FromRoot(p) then
      MarkIf(p.dodagDiffers, SetMop(AddDodag(s, p.instance, p.dodag), p.instance, p.mop), DodagRef(p.dodag))
    else s
  }

  ghost function DioNode(s: State, p: Packet): (s1: State)
    requires p.Dio?
    ensures SamePast(s, s1) && s1.links == s.links
  {
    var marked := Mark(Count(s, NodeRef(p.src)), NodeRef(p.src));
    EditErrorsIf(p.prefixDiffers, EditErrorsIf(p.configDiffers, marked, p.src, ConfigMismatch), p.src, ConfigMismatch)
  }

  ghost function ParseDio(s: State, p: Packet): (s1: State)
    requires p.Dio?
    ensures SamePast(s, s1) && s1.links == s.links
  {
    var s0 := DioNode(DioRoot(DioJoin(s, p), p), p);
    if FromRoot(p) then FlagMembers(s0, MembersOf(s0, p.dodag), p.flagged, |MembersOf(s0, p.dodag)|) else s0
  }

  /** The nodes and the instance that a DAO is about, and the check of its destination address. */
  ghost function DaoObjects(s: State, p: Packet): (s1: State)
    requires p.Dao?
    ensures SamePast(s, s1) && s1.links == s.links
  {
    var child := MarkIf(p.ipDiffers, Count(Get(s, NodeRef(p.src)), NodeRef(p.src)), NodeRef(p.src));
    EditErrorsIf(p.ipMismatch, Get(Get(child, NodeRef(p.dst)), InstanceRef(p.instance)), p.src, IpMismatch)
  }

  /** And the check of its DODAG. */
  ghost function DaoNodes(s: State, p: Packet): (s1: State)
    requires p.Dao?
    ensures SamePast(s, s1) && s1.links == s.links
  {
    var s0 := DaoObjects(s, p);
    var mismatch := p.dodagIp.Some? && DodagOf(s0, p.src).Some? && DodagOf(s0, p.dst).Some?
                    && DodagOf(s0, p.dst).value.ip != p.dodagIp.value;
    EditErrorsIf(mismatch, s0, p.src, DodagMismatch)
  }

  /** The link of a DAO: refreshed for a path lifetime above 0, removed for a No-Path DAO of the child's own address. */
  ghost function DaoLink(s: State, p: Packet, onePreferredParent: bool): (s1: State)
    requires p.Dao?
    ensures SamePast(s, s1)
  {
    if p.lifetime.None? then s
    else if p.lifetime.value > 0 then
      var s0 := RefreshLink(s, p.src, p.dst, onePreferredParent);
      EditErrorsIf(HasRouteTo(RoutesOf(s0, p.src), p.parentIp), s0, p.src, RouteLoop)
    else if p.target.Some? && SamePrefix(p.childIp, p.target.value.1, p.target.value.0) then Drop(s, LinkRef(p.src, p.dst))
    else s
  }

  ghost function DaoRoute(s: State, p: Packet): (s1: State)
    requires p.Dao?
    ensures SamePast(s, s1) && s1.links == s.links
  {
    if p.lifetime.None? || p.target.None? then s
    else
      var t := Target(p.target.value.0, p.target.value.1, p.lifetime.value);
      var s0 := if p.lifetime.value > 0 then AddNodeRoute(s, p.dst, t, p.src) else DelNodeRoute(s, p.dst, t, p.src);
      MarkIf(p.target.value.1 == p.childIp, s0, NodeRef(p.src))
  }

  ghost function ParseDao(s: State, p: Packet, onePreferredParent: bool): (s1: State)
    requires p.Dao?
    ensures SamePast(s, s1)
  {
    DaoRoute(DaoLink(DaoNodes(s, p), p, onePreferredParent), p)
  }

  /** The source of a data packet, its destination, and the errors that the hop-by-hop option reports. */
  ghost function DataNodes(s: State, p: Packet): (s1: State)
    requires p.Data?
    ensures SamePast(s, s1) && s1.links == s.links
  {
    var src := MarkIf(p.differs, Count(Get(s, NodeRef(p.src)), NodeRef(p.src)), NodeRef(p.src));
    if p.dst == 0 || p.dst == BROADCAST then src
    else
      var dst := Get(src, NodeRef(p.dst));
      if p.hop.None? then dst
      else EditErrorsIf(p.hop.value.forwardingError, EditErrorsIf(p.hop.value.rankError, dst, p.src, Rank), p.src, Forward)
  }

  ghost function DataUpward(s: State, p: Packet, onePreferredParent: bool): (s1: State)
    requires p.Data?
    ensures SamePast(s, s1)
  {
    var linked := RefreshLink(s, p.src, p.dst, onePreferredParent);
    var routed := AddNodeRoute(linked, p.dst, Target(128, p.srcIp, 0), p.src);
    var checked := EditErrorsIf(HasRouteTo(RoutesOf(routed, p.src), p.parentIp), routed, p.src, RouteLoop);
    EditErrorsIf(UpwardError(p), checked, p.src, Upward)
  }

  ghost function DataDownward(s: State, p: Packet): (s1: State)
    requires p.Data?
    ensures SamePast(s, s1) && s1.links == s.links
  {
    EditErrorsIf(DownwardError(p), AddNodeRoute(s, p.src, Target(128, p.dstIp, 0), p.dst), p.src, Downward)
  }

  ghost function ParseData(s: State, p: Packet, onePreferredParent: bool): (s1: State)
    requires p.Data?
    ensures SamePast(s, s1)
  {
    var s0 := DataNodes(s, p);
    if p.dst == 0 || p.dst == BROADCAST || p.hop.None? then s0
    else if p.hop.value.towardRoot then DataUpward(s0, p, onePreferredParent)
    else DataDownward(s0, p)
  }

  ghost function Parse(s: State, p: Packet, onePreferredParent: bool): (s1: State)
    ensures SamePast(s, s1)
  {
    match p
    case Dis(_) => ParseDis(s, p)
    case Dio(_, _, _, _, _, _, _, _, _, _) => ParseDio(s, p)
    case Dao(_, _, _, _, _, _, _, _, _, _) => ParseDao(s, p, onePreferredParent)
    case Data(_, _, _, _, _, _, _, _) => ParseData(s, p, onePreferredParent)
  }

  /** rpl_parser_end_packet: the packet event, the collector and the commit. */
  ghost function Receive(s: State, p: Packet, onePreferredParent: bool): State {
    Commit(Parse(Queue(s, PacketSeen), p, onePreferredParent))
  }
}
