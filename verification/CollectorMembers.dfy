/**
 The collectors keep the invariant of the network state, and the agreement between the DODAG that a node names and the
 member lists of the DODAGs.
 */
module CollectorMembers {
  import opened Address
  import opened CollectorSpec
  import opened NetworkCommit
  import opened NetworkInvariant
  import opened NetworkState
  import opened Options
  import opened Routes
  import opened Sequences

  ghost predicate Agrees(s: State, mac: Mac, d: DodagId) {
    DodagOf(s, mac) == Some(d) <==> mac in MembersOf(s, d)
  }

  ghost predicate Differ(m: seq<Mac>, i: nat, j: nat) {
    i < j < |m| ==> m[i] != m[j]
  }

  ghost predicate NoRepeat(m: seq<Mac>) {
    forall i: nat, j: nat {:trigger Differ(m, i, j)} :: Differ(m, i, j)
  }

  /** A routing table has one entry per prefix at most. */
  ghost predicate TableOk(s: State, mac: Mac) {
    Unique(RoutesOf(s, mac))
  }

  /** A node names a DODAG exactly when it is in the member list of that DODAG, where it stands once. */
  ghost predicate Members(s: State) {
    && (forall mac, d {:trigger Agrees(s, mac, d)} :: Agrees(s, mac, d))
    && (forall d {:trigger MembersOf(s, d)} :: NoRepeat(MembersOf(s, d)))
    && (forall mac {:trigger TableOk(s, mac)} :: TableOk(s, mac))
  }

  ghost predicate Good(s: State) {
    Inv(s) && Members(s)
  }

  /** So a node is in one member list at most, and what stands in a member list is a known node that names the DODAG. */
  lemma {:induction false} MemberIsKnown(s: State, mac: Mac, d: DodagId)
    requires Good(s) && mac in MembersOf(s, d)
    ensures Known(s, NodeRef(mac)) && Known(s, DodagRef(d)) && DodagOf(s, mac) == Some(d)
    ensures forall d1: DodagId :: mac in MembersOf(s, d1) ==> d1 == d
  {
    assert Agrees(s, mac, d);
    forall d1: DodagId | mac in MembersOf(s, d1) ensures d1 == d {
      assert Agrees(s, mac, d1);
    }
  }

  // ---- steps that leave memberships alone

  lemma {:induction false} SameMembership(s: State, s1: State)
    requires Members(s)
    requires forall mac {:trigger DodagOf(s1, mac)} :: DodagOf(s1, mac) == DodagOf(s, mac)
    requires forall mac {:trigger TableOk(s1, mac)} :: TableOk(s1, mac)
    requires forall d {:trigger MembersOf(s1, d)} :: MembersOf(s1, d) == MembersOf(s, d)
    ensures Members(s1)
  {
    forall mac, d ensures Agrees(s1, mac, d) {
      assert Agrees(s, mac, d);
    }
    forall d ensures NoRepeat(MembersOf(s1, d)) {
      assert NoRepeat(MembersOf(s, d));
    }
  }

  lemma {:induction false} GetGood(s: State, ref: Ref)
    requires Good(s)
    ensures Good(Get(s, ref)) && Known(Get(s, ref), ref)
  {
    GetKeepsInv(s, ref);
    InvUnique(s);
    var s1 := Get(s, ref);
    GetContent(s, ref, ref);
    forall mac ensures DodagOf(s1, mac) == DodagOf(s, mac) && TableOk(s1, mac) {
      assert TableOk(s, mac);
      GetContent(s, ref, NodeRef(mac));
    }
    forall d ensures MembersOf(s1, d) == MembersOf(s, d) {
      GetContent(s, ref, DodagRef(d));
    }
    SameMembership(s, s1);
  }

  lemma {:induction false} CountGood(s: State, ref: Ref)
    requires Good(s)
    ensures Good(Count(s, ref))
  {
    CountKeepsInv(s, ref);
    InvUnique(s);
    var s1 := Count(s, ref);
    forall mac ensures DodagOf(s1, mac) == DodagOf(s, mac) && TableOk(s1, mac) {
      assert TableOk(s, mac);
      CountContent(s, ref, NodeRef(mac));
    }
    forall d ensures MembersOf(s1, d) == MembersOf(s, d) {
      CountContent(s, ref, DodagRef(d));
    }
    SameMembership(s, s1);
  }

  /** New fields that leave memberships alone. */
  ghost predicate Neutral(s: State, ref: Ref, c: Content) {
    && Fits(ref, c)
    && (ref.NodeRef? ==> c.dodag == DodagOf(s, ref.mac) && Unique(c.routes))
    && (ref.DodagRef? ==> c.members == MembersOf(s, ref.dodag))
  }

  lemma {:induction false} TouchGood(s: State, ref: Ref, c: Content)
    requires Good(s) && Neutral(s, ref, c)
    ensures Good(Touch(s, ref, c))
  {
    TouchKeepsInv(s, ref, c);
    InvUnique(s);
    var s1 := Touch(s, ref, c);
    forall mac ensures DodagOf(s1, mac) == DodagOf(s, mac) && TableOk(s1, mac) {
      assert TableOk(s, mac);
      TouchContent(s, ref, c, NodeRef(mac));
    }
    forall d ensures MembersOf(s1, d) == MembersOf(s, d) {
      TouchContent(s, ref, c, DodagRef(d));
    }
    SameMembership(s, s1);
  }

  lemma {:induction false} DropLinkGood(s: State, ref: Ref)
    requires Good(s) && ref.LinkRef? && Idle(s, ref)
    ensures Good(Drop(s, ref))
  {
    DropKeepsInv(s, ref);
    InvUnique(s);
    var s1 := Drop(s, ref);
    forall mac ensures DodagOf(s1, mac) == DodagOf(s, mac) && TableOk(s1, mac) {
      assert TableOk(s, mac);
      DropContent(s, ref, NodeRef(mac));
    }
    forall d ensures MembersOf(s1, d) == MembersOf(s, d) {
      DropContent(s, ref, DodagRef(d));
    }
    SameMembership(s, s1);
  }

  lemma {:induction false} MarkIfGood(cond: bool, s: State, ref: Ref)
    requires Good(s)
    ensures Good(MarkIf(cond, s, ref)) && Good(Mark(s, ref))
  {
    ContentFits(s, ref);
    assert ref.NodeRef? ==> TableOk(s, ref.mac);
    TouchGood(s, ref, ContentOf(s, ref));
  }

  lemma {:induction false} EditErrorsIfGood(cond: bool, s: State, mac: Mac, k: ErrorKind)
    requires Good(s)
    ensures Good(EditErrorsIf(cond, s, mac, k))
  {
    var c := ContentOf(s, NodeRef(mac));
    ContentFits(s, NodeRef(mac));
    assert TableOk(s, mac);
    TouchGood(s, NodeRef(mac), c.(errors := Bump(c.errors, k)));
  }

  lemma {:induction false} RouteGood(s: State, mac: Mac, t: Target, via: Mac)
    requires Good(s)
    ensures Good(AddNodeRoute(s, mac, t, via)) && Good(DelNodeRoute(s, mac, t, via))
  {
    var c := ContentOf(s, NodeRef(mac));
    ContentFits(s, NodeRef(mac));
    assert TableOk(s, mac);
    AddedIsUpdate(c.routes, t, via, t);
    RemovedIsUpdate(c.routes, t, via, t);
    TouchGood(s, NodeRef(mac), c.(routes := Added(c.routes, t, via)));
    TouchGood(s, NodeRef(mac), c.(routes := Removed(c.routes, t, via)));
  }

  lemma {:induction false} InstanceGood(s: State, id: nat, d: DodagId, mop: nat)
    requires Good(s)
    ensures Good(SetInstance(s, d, id)) && Good(AddDodag(s, id, d)) && Good(SetMop(s, id, mop))
  {
    var c, i := ContentOf(s, DodagRef(d)), ContentOf(s, InstanceRef(id));
    ContentFits(s, DodagRef(d));
    ContentFits(s, InstanceRef(id));
    TouchGood(s, DodagRef(d), c.(instance := Some(id)));
    TouchGood(SetInstance(s, d, id), InstanceRef(id), i.(dodags := i.dodags + [d]));
    TouchGood(s, InstanceRef(id), i.(mop := mop));
  }

  lemma {:induction false} FlagMembersGood(s: State, members: seq<Mac>, flagged: set<Mac>, n: nat)
    requires Good(s) && n <= |members|
    ensures Good(FlagMembers(s, members, flagged, n))
  {
    if n == 0 {
    } else {
      FlagMembersGood(s, members, flagged, n - 1);
      EditErrorsIfGood(members[n - 1] in flagged, FlagMembers(s, members, flagged, n - 1), members[n - 1], ConfigMismatch);
    }
  }

  /** Flagging the members of a DODAG changes no member list. */
  lemma {:induction false} FlagMembersContent(s: State, members: seq<Mac>, flagged: set<Mac>, n: nat, d: DodagId)
    requires Good(s) && n <= |members|
    ensures MembersOf(FlagMembers(s, members, flagged, n), d) == MembersOf(s, d)
  {
    hide Touch, Good;
    if n == 0 {
    } else {
      FlagMembersContent(s, members, flagged, n - 1, d);
      FlagMembersGood(s, members, flagged, n - 1);
      var s0, ref := FlagMembers(s, members, flagged, n - 1), NodeRef(members[n - 1]);
      InvUnique(s0);
      var c := ContentOf(s0, ref);
      if c.Node? {
        TouchContent(s0, ref, c.(errors := Bump(c.errors, ConfigMismatch)), DodagRef(d));
      }
    }
  }

  lemma {:induction false} DeprecateGood(s: State, child: Mac, parent: Mac, n: nat)
    requires Good(s) && n <= |s.links.rows|
    ensures Good(Deprecate(s, child, parent, n))
  {
    if n == 0 {
    } else {
      DeprecateGood(s, child, parent, n - 1);
      var ref := s.links.rows[n - 1].ref;
      if ref.LinkRef? {
        TouchGood(Deprecate(s, child, parent, n - 1), ref, Link(true));
      }
    }
  }

  lemma {:induction false} RefreshGood(s: State, child: Mac, parent: Mac, onePreferredParent: bool)
    requires Good(s)
    ensures Good(RefreshLink(s, child, parent, onePreferredParent))
  {
    var ref := LinkRef(child, parent);
    GetGood(s, ref);
    var s0 := Get(s, ref);
    DeprecateGood(s0, child, parent, |s0.links.rows|);
    var s1 := if onePreferredParent then Deprecate(s0, child, parent, |s0.links.rows|) else s0;
    CountGood(s1, ref);
    TouchGood(Count(s1, ref), ref, Link(false));
  }

  // ---- joining and leaving a DODAG

  lemma {:induction false} WithoutMember(m: seq<Mac>, x: Mac, y: Mac)
    requires NoRepeat(m)
    ensures NoRepeat(Without(m, x)) && (y in Without(m, x) <==> y in m && y != x)
  {
    if m == [] {
    } else {
      var t := m[1..];
      assert m == [m[0]] + t;
      forall i: nat, j: nat ensures Differ(t, i, j) {
        assert Differ(m, i + 1, j + 1);
      }
      forall i: nat | i < |t| ensures t[i] != m[0] {
        assert Differ(m, 0, i + 1);
      }
      WithoutMember(t, x, y);
      if m[0] != x {
        var r := Without(t, x);
        forall i: nat, j: nat ensures Differ([m[0]] + r, i, j) {
          if 0 < i < j {
            assert Differ(r, i - 1, j - 1);
          } else if i == 0 < j < 1 + |r| {
            WithoutMember(t, x, r[j - 1]);
          }
        }
      }
    }
  }

  lemma {:induction false} AppendMember(m: seq<Mac>, x: Mac)
    requires NoRepeat(m) && x !in m
    ensures NoRepeat(m + [x])
  {
    forall i: nat, j: nat ensures Differ(m + [x], i, j) {
      assert Differ(m, i, j);
    }
  }

  /** Setting the DODAG of a node and the member list of a DODAG: what both become. */
  lemma {:induction false} JoinContent(s: State, mac: Mac, to: Option<DodagId>, d: DodagId, c: Content)
    requires Inv(s) && c.Dodag? && Known(s, NodeRef(mac)) && Known(s, DodagRef(d))
    requires forall m {:trigger TableOk(s, m)} :: TableOk(s, m)
    ensures var s1 := Touch(SetDodag(s, mac, to), DodagRef(d), c);
            && Inv(s1) && Known(s1, NodeRef(mac)) && Known(s1, DodagRef(d))
            && (forall m {:trigger TableOk(s1, m)} :: TableOk(s1, m))
            && (forall m {:trigger DodagOf(s1, m)} :: DodagOf(s1, m) == if m == mac then to else DodagOf(s, m))
            && (forall e {:trigger MembersOf(s1, e)} :: MembersOf(s1, e) == if e == d then c.members else MembersOf(s, e))
            && (forall e: DodagId {:trigger Known(s1, DodagRef(e))} :: Known(s1, DodagRef(e)) <==> Known(s, DodagRef(e)))
  {
    hide Touch;
    var n := ContentOf(s, NodeRef(mac));
    ContentFits(s, NodeRef(mac));
    TouchKeepsInv(s, NodeRef(mac), n.(dodag := to));
    var s0 := SetDodag(s, mac, to);
    assert s0 == Touch(s, NodeRef(mac), n.(dodag := to)) || (s0 == s && n.dodag == to);
    InvUnique(s);
    InvUnique(s0);
    TouchContent(s, NodeRef(mac), n.(dodag := to), NodeRef(mac));
    TouchContent(s, NodeRef(mac), n.(dodag := to), DodagRef(d));
    TouchKeepsInv(s0, DodagRef(d), c);
    var s1 := Touch(s0, DodagRef(d), c);
    TouchContent(s0, DodagRef(d), c, NodeRef(mac));
    TouchContent(s0, DodagRef(d), c, DodagRef(d));
    forall m ensures DodagOf(s1, m) == (if m == mac then to else DodagOf(s, m)) && TableOk(s1, m) {
      assert TableOk(s, m);
      TouchContent(s, NodeRef(mac), n.(dodag := to), NodeRef(m));
      TouchContent(s0, DodagRef(d), c, NodeRef(m));
    }
    forall e: DodagId ensures MembersOf(s1, e) == if e == d then c.members else MembersOf(s, e)
      ensures Known(s1, DodagRef(e)) <==> Known(s, DodagRef(e))
    {
      TouchContent(s, NodeRef(mac), n.(dodag := to), DodagRef(e));
      TouchContent(s0, DodagRef(d), c, DodagRef(e));
    }
  }

  lemma {:induction false} LeaveGood(s: State, d: DodagId, mac: Mac)
    requires Good(s) && DodagOf(s, mac) == Some(d)
    ensures Good(DelNode(s, d, mac)) && DodagOf(DelNode(s, d, mac), mac) == None
    ensures Known(DelNode(s, d, mac), NodeRef(mac))
    ensures forall e: DodagId {:trigger Known(DelNode(s, d, mac), DodagRef(e))} ::
              Known(DelNode(s, d, mac), DodagRef(e)) <==> Known(s, DodagRef(e))
  {
    assert Agrees(s, mac, d);
    var c := ContentOf(s, DodagRef(d));
    var s1 := DelNode(s, d, mac);
    JoinContent(s, mac, None, d, c.(members := Without(c.members, mac)));
    assert NoRepeat(MembersOf(s, d));
    forall m, e ensures Agrees(s1, m, e) {
      assert Agrees(s, m, e) && Agrees(s, mac, e);
      WithoutMember(c.members, mac, m);
    }
    forall e ensures NoRepeat(MembersOf(s1, e)) {
      assert NoRepeat(MembersOf(s, e));
      WithoutMember(c.members, mac, mac);
    }
  }

  lemma {:induction false} EnterGood(s: State, d: DodagId, mac: Mac)
    requires Good(s) && DodagOf(s, mac) == None && Known(s, NodeRef(mac)) && Known(s, DodagRef(d))
    ensures mac !in MembersOf(s, d) && ContentOf(s, DodagRef(d)).Dodag?
    ensures var c := ContentOf(s, DodagRef(d));
            var s1 := Touch(SetDodag(s, mac, Some(d)), DodagRef(d), c.(members := c.members + [mac]));
            Good(s1) && DodagOf(s1, mac) == Some(d)
  {
    assert Agrees(s, mac, d);
    var c := ContentOf(s, DodagRef(d));
    ContentFits(s, DodagRef(d));
    var s1 := Touch(SetDodag(s, mac, Some(d)), DodagRef(d), c.(members := c.members + [mac]));
    JoinContent(s, mac, Some(d), d, c.(members := c.members + [mac]));
    forall m, e ensures Agrees(s1, m, e) {
      assert Agrees(s, m, e) && Agrees(s, mac, e);
    }
    forall e ensures NoRepeat(MembersOf(s1, e)) {
      assert NoRepeat(MembersOf(s, e));
      AppendMember(c.members, mac);
    }
  }

  /** dodag_add_node: the DODAG that the node named before is found, and afterwards the node is in the new one alone. */
  lemma {:induction false} AddNodeGood(s: State, d: DodagId, mac: Mac)
    requires Good(s) && Known(s, NodeRef(mac)) && Known(s, DodagRef(d))
    ensures DodagOf(s, mac).Some? ==> Known(s, DodagRef(DodagOf(s, mac).value))
    ensures Good(AddNode(s, d, mac)) && DodagOf(AddNode(s, d, mac), mac) == Some(d)
  {
    var prev := DodagOf(s, mac);
    if prev.Some? {
      assert Agrees(s, mac, prev.value);
    }
    if prev == Some(d) {
      assert mac in MembersOf(s, d);
    } else {
      if prev.Some? {
        LeaveGood(s, prev.value, mac);
        EnterGood(DelNode(s, prev.value, mac), d, mac);
      } else {
        EnterGood(s, d, mac);
      }
    }
  }

  // ---- whole packets

  lemma {:induction false} DioGood(s: State, p: Packet)
    requires Good(s) && p.Dio?
    ensures Good(ParseDio(s, p))
  {
    GetGood(s, InstanceRef(p.instance));
    var a := Get(s, InstanceRef(p.instance));
    GetGood(a, DodagRef(p.dodag));
    var b := Get(a, DodagRef(p.dodag));
    GetGood(b, NodeRef(p.src));
    var c := Get(b, NodeRef(p.src));
    InvUnique(b);
    GetContent(b, NodeRef(p.src), DodagRef(p.dodag));
    AddNodeGood(c, p.dodag, p.src);
    var joined := DioJoin(s, p);
    InstanceGood(joined, p.instance, p.dodag, p.mop);
    InstanceGood(AddDodag(joined, p.instance, p.dodag), p.instance, p.dodag, p.mop);
    MarkIfGood(p.dodagDiffers, SetMop(AddDodag(joined, p.instance, p.dodag), p.instance, p.mop), DodagRef(p.dodag));
    DioNodeGood(DioRoot(joined, p), p);
    var s0 := DioNode(DioRoot(joined, p), p);
    FlagMembersGood(s0, MembersOf(s0, p.dodag), p.flagged, |MembersOf(s0, p.dodag)|);
  }

  lemma {:induction false} DioNodeGood(s: State, p: Packet)
    requires Good(s) && p.Dio?
    ensures Good(DioNode(s, p))
  {
    CountGood(s, NodeRef(p.src));
    MarkIfGood(true, Count(s, NodeRef(p.src)), NodeRef(p.src));
    var marked := Mark(Count(s, NodeRef(p.src)), NodeRef(p.src));
    EditErrorsIfGood(p.configDiffers, marked, p.src, ConfigMismatch);
    EditErrorsIfGood(p.prefixDiffers, EditErrorsIf(p.configDiffers, marked, p.src, ConfigMismatch), p.src, ConfigMismatch);
  }

  lemma {:induction false} DisGood(s: State, p: Packet)
    requires Good(s) && p.Dis?
    ensures Good(ParseDis(s, p))
  {
    GetGood(s, NodeRef(p.src));
    CountGood(Get(s, NodeRef(p.src)), NodeRef(p.src));
    MarkIfGood(true, Count(Get(s, NodeRef(p.src)), NodeRef(p.src)), NodeRef(p.src));
  }

  lemma {:induction false} DaoNodesGood(s: State, p: Packet)
    requires Good(s) && p.Dao?
    ensures Good(DaoNodes(s, p))
  {
    hide Good, Get, Count, MarkIf, EditErrors, DodagOf;
    GetGood(s, NodeRef(p.src));
    CountGood(Get(s, NodeRef(p.src)), NodeRef(p.src));
    MarkIfGood(p.ipDiffers, Count(Get(s, NodeRef(p.src)), NodeRef(p.src)), NodeRef(p.src));
    var child := MarkIf(p.ipDiffers, Count(Get(s, NodeRef(p.src)), NodeRef(p.src)), NodeRef(p.src));
    GetGood(child, NodeRef(p.dst));
    GetGood(Get(child, NodeRef(p.dst)), InstanceRef(p.instance));
    EditErrorsIfGood(p.ipMismatch, Get(Get(child, NodeRef(p.dst)), InstanceRef(p.instance)), p.src, IpMismatch);
    var s0 := EditErrorsIf(p.ipMismatch, Get(Get(child, NodeRef(p.dst)), InstanceRef(p.instance)), p.src, IpMismatch);
    EditErrorsIfGood(true, s0, p.src, DodagMismatch);
  }

  lemma {:induction false} DaoLinkGood(s: State, p: Packet, onePreferredParent: bool)
    requires Good(s) && p.Dao? && Idle(s, LinkRef(p.src, p.dst))
    ensures Good(DaoLink(s, p, onePreferredParent))
  {
    RefreshGood(s, p.src, p.dst, onePreferredParent);
    EditErrorsIfGood(true, RefreshLink(s, p.src, p.dst, onePreferredParent), p.src, RouteLoop);
    DropLinkGood(s, LinkRef(p.src, p.dst));
  }

  lemma {:induction false} DaoRouteGood(s: State, p: Packet)
    requires Good(s) && p.Dao?
    ensures Good(DaoRoute(s, p))
  {
    hide Good;
    if p.lifetime.Some? && p.target.Some? {
      var t := Target(p.target.value.0, p.target.value.1, p.lifetime.value);
      RouteGood(s, p.dst, t, p.src);
      MarkIfGood(true, AddNodeRoute(s, p.dst, t, p.src), NodeRef(p.src));
      MarkIfGood(true, DelNodeRoute(s, p.dst, t, p.src), NodeRef(p.src));
    }
  }

  lemma {:induction false} DataNodesGood(s: State, p: Packet)
    requires Good(s) && p.Data?
    ensures Good(DataNodes(s, p))
  {
    GetGood(s, NodeRef(p.src));
    CountGood(Get(s, NodeRef(p.src)), NodeRef(p.src));
    MarkIfGood(p.differs, Count(Get(s, NodeRef(p.src)), NodeRef(p.src)), NodeRef(p.src));
    var src := MarkIf(p.differs, Count(Get(s, NodeRef(p.src)), NodeRef(p.src)), NodeRef(p.src));
    GetGood(src, NodeRef(p.dst));
    if p.hop.Some? {
      EditErrorsIfGood(p.hop.value.rankError, Get(src, NodeRef(p.dst)), p.src, Rank);
      EditErrorsIfGood(p.hop.value.forwardingError,
                       EditErrorsIf(p.hop.value.rankError, Get(src, NodeRef(p.dst)), p.src, Rank), p.src, Forward);
    }
  }

  lemma {:induction false} DataGood(s: State, p: Packet, onePreferredParent: bool)
    requires Good(s) && p.Data?
    ensures Good(ParseData(s, p, onePreferredParent))
  {
    hide Good, Inv, RefreshLink;
    DataNodesGood(s, p);
    var s0 := DataNodes(s, p);
    RefreshGood(s0, p.src, p.dst, onePreferredParent);
    var linked := RefreshLink(s0, p.src, p.dst, onePreferredParent);
    RouteGood(linked, p.dst, Target(128, p.srcIp, 0), p.src);
    var routed := AddNodeRoute(linked, p.dst, Target(128, p.srcIp, 0), p.src);
    var loop := HasRouteTo(RoutesOf(routed, p.src), p.parentIp);
    EditErrorsIfGood(loop, routed, p.src, RouteLoop);
    EditErrorsIfGood(UpwardError(p), EditErrorsIf(loop, routed, p.src, RouteLoop), p.src, Upward);
    RouteGood(s0, p.src, Target(128, p.dstIp, 0), p.dst);
    EditErrorsIfGood(DownwardError(p), AddNodeRoute(s0, p.src, Target(128, p.dstIp, 0), p.dst), p.src, Downward);
  }

  /** Between packets no link has a pending change. */
  ghost predicate LinksIdle(s: State) {
    forall i: nat {:trigger s.links.rows[i]} :: i < |s.links.rows| ==> !s.links.rows[i].changed
  }

  /** Every packet keeps the invariant and the agreement of memberships. */
  lemma {:induction false} ParseGood(s: State, p: Packet, onePreferredParent: bool)
    requires Good(s) && LinksIdle(s)
    ensures Good(Parse(s, p, onePreferredParent))
  {
    hide Good, Inv;
    match p
    case Dis(_) => DisGood(s, p);
    case Dio(_, _, _, _, _, _, _, _, _, _) => DioGood(s, p);
    case Dao(_, _, _, _, _, _, _, _, _, _) =>
      DaoNodesGood(s, p);
      DaoLinkGood(DaoNodes(s, p), p, onePreferredParent);
      DaoRouteGood(DaoLink(DaoNodes(s, p), p, onePreferredParent), p);
    case Data(_, _, _, _, _, _, _, _) => DataGood(s, p, onePreferredParent);
  }
}
