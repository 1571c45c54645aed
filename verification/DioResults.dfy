/**
 A DIO from one end to the other: for each object of the network, what it is afterwards.
 */
module DioResults {
  import opened Address
  import opened CollectorEffects
  import opened CollectorMembers
  import opened CollectorSpec
  import opened DataResults
  import opened NetworkInvariant
  import opened NetworkState
  import opened Observations
  import opened Options
  import opened Routes
  import opened Sequences

  // ---- joining

  function WithDodag(r: Row, d: Option<DodagId>): Row {
    if r.content.Node? && r.content.dodag != d then r.(content := r.content.(dodag := d), changed := true) else r
  }

  function WithMembers(r: Row, ms: seq<Mac>): Row {
    if r.content.Dodag? then r.(content := r.content.(members := ms), changed := true) else r
  }

  /** The two setters of joining and leaving. */
  lemma {:induction false} MoveAt(b: State, s: State, mac: Mac, to: Option<DodagId>, d: DodagId, ms: seq<Mac>, ref: Ref)
    requires Good(s) && Told(b, s, ref) && ContentOf(s, DodagRef(d)).Dodag?
    ensures var s1 := Touch(SetDodag(s, mac, to), DodagRef(d), ContentOf(s, DodagRef(d)).(members := ms));
            && Told(b, s1, ref)
            && Found(s1, ref) ==
                 if Found(s, ref).None? then None
                 else if ref == NodeRef(mac) then Some(WithDodag(Found(s, ref).value, to))
                 else if ref == DodagRef(d) then Some(WithMembers(Found(s, ref).value, ms))
                 else Found(s, ref)
  {
    hide Good, Told, AllUnique, Touch, SetDodag, Found;
    GoodUnique(s);
    GoodFits(s, NodeRef(mac));
    GoodFits(s, DodagRef(d));
    GoodFits(s, ref);
    SetDodagAt(b, s, mac, to, ref);
    TouchAt(b, SetDodag(s, mac, to), DodagRef(d), ContentOf(s, DodagRef(d)).(members := ms), ref);
  }

  lemma {:induction false} LeaveAt(b: State, s: State, d: DodagId, mac: Mac, ref: Ref)
    requires Good(s) && Told(b, s, ref) && DodagOf(s, mac) == Some(d)
    ensures var s1 := DelNode(s, d, mac);
            && Good(s1) && Told(b, s1, ref) && DodagOf(s1, mac) == None && Known(s1, NodeRef(mac))
            && Found(s1, ref) ==
                 if Found(s, ref).None? then None
                 else if ref == NodeRef(mac) then Some(WithDodag(Found(s, ref).value, None))
                 else if ref == DodagRef(d) then Some(WithMembers(Found(s, ref).value, Without(MembersOf(s, d), mac)))
                 else Found(s, ref)
  {
    hide Good, Told, Touch, SetDodag, Found, WithDodag, WithMembers;
    LeaveGood(s, d, mac);
    GoodAgrees(s, mac, d);
    GoodFits(s, DodagRef(d));
    MoveAt(b, s, mac, None, d, Without(MembersOf(s, d), mac), ref);
  }

  lemma {:induction false} GoodAgrees(s: State, mac: Mac, d: DodagId)
    requires Good(s)
    ensures DodagOf(s, mac) == Some(d) <==> mac in MembersOf(s, d)
  {
    assert Agrees(s, mac, d);
  }

  lemma {:induction false} EnterAt(b: State, s: State, d: DodagId, mac: Mac, ref: Ref)
    requires Good(s) && Told(b, s, ref) && DodagOf(s, mac) == None && Known(s, NodeRef(mac)) && Known(s, DodagRef(d))
    ensures var s1 := AddNode(s, d, mac);
            && Good(s1) && Told(b, s1, ref)
            && Found(s1, ref) ==
                 if Found(s, ref).None? then None
                 else if ref == NodeRef(mac) then Some(WithDodag(Found(s, ref).value, Some(d)))
                 else if ref == DodagRef(d) then Some(WithMembers(Found(s, ref).value, MembersOf(s, d) + [mac]))
                 else Found(s, ref)
  {
    hide Good, Told, Touch, SetDodag, Found, WithDodag, WithMembers;
    EnterGood(s, d, mac);
    MoveAt(b, s, mac, Some(d), d, MembersOf(s, d) + [mac], ref);
  }

  /** What joining a DODAG says of an object, for a node that named another one or none before. */
  function Joined(r: Row, d: DodagId, mac: Mac, prev: Option<DodagId>): Row {
    if r.ref == NodeRef(mac) then WithDodag(r, Some(d))
    else if !r.ref.DodagRef? || !r.content.Dodag? || prev == Some(d) then r
    else if r.ref == DodagRef(d) then WithMembers(r, r.content.members + [mac])
    else if prev == Some(r.ref.dodag) then WithMembers(r, Without(r.content.members, mac))
    else r
  }

  lemma {:induction false} FoundIs(s: State, ref: Ref)
    requires Good(s) && Found(s, ref).Some?
    ensures Found(s, ref).value.ref == ref && Fits(ref, Found(s, ref).value.content)
    ensures ref.DodagRef? ==> MembersOf(s, ref.dodag) == Found(s, ref).value.content.members
    ensures ref.NodeRef? ==> DodagOf(s, ref.mac) == Found(s, ref).value.content.dodag
  {
    GoodFits(s, ref);
  }

  lemma {:induction false} JoinAt(b: State, s: State, d: DodagId, mac: Mac, ref: Ref)
    requires Good(s) && Told(b, s, ref) && Known(s, NodeRef(mac)) && Known(s, DodagRef(d))
    ensures var s1 := AddNode(s, d, mac);
            && Good(s1) && Told(b, s1, ref)
            && Found(s1, ref) ==
                 if Found(s, ref).None? then None else Some(Joined(Found(s, ref).value, d, mac, DodagOf(s, mac)))
  {
    hide Good, Told, Touch, SetDodag, Found, DelNode, MembersOf;
    var prev := DodagOf(s, mac);
    if Found(s, ref).Some? {
      FoundIs(s, ref);
    }
    AddNodeGood(s, d, mac);
    if prev == Some(d) {
      GoodAgrees(s, mac, d);
      StaysIn(s, d, mac);
    } else if prev.None? {
      EnterAt(b, s, d, mac, ref);
    } else {
      LeaveGood(s, prev.value, mac);
      LeaveAt(b, s, prev.value, mac, ref);
      var left := DelNode(s, prev.value, mac);
      if Found(left, ref).Some? {
        FoundIs(left, ref);
      }
      EnterAt(b, left, d, mac, ref);
      LeftThenJoins(s, d, mac);
    }
  }

  lemma {:induction false} StaysIn(s: State, d: DodagId, mac: Mac)
    requires Good(s) && DodagOf(s, mac) == Some(d) && mac in MembersOf(s, d)
    ensures AddNode(s, d, mac) == s
  {
  }

  lemma {:induction false} LeftThenJoins(s: State, d: DodagId, mac: Mac)
    requires Good(s) && DodagOf(s, mac).Some? && DodagOf(s, mac) != Some(d)
    requires Known(s, DodagRef(DodagOf(s, mac).value)) && DodagOf(DelNode(s, DodagOf(s, mac).value, mac), mac) == None
    ensures AddNode(s, d, mac) == AddNode(DelNode(s, DodagOf(s, mac).value, mac), d, mac)
  {
  }

  /** The objects that a DIO is about. */
  predicate Concerns(p: Packet, ref: Ref)
    requires p.Dio?
  {
    ref == InstanceRef(p.instance) || ref == DodagRef(p.dodag) || ref == NodeRef(p.src)
  }

  lemma {:induction false} DioJoinAt(b: State, s: State, p: Packet, ref: Ref)
    requires Good(s) && p.Dio? && Told(b, s, ref)
    ensures var s1 := DioJoin(s, p);
            && Good(s1) && Told(b, s1, ref)
            && Found(s1, ref) ==
                 if Concerns(p, ref) || Found(s, ref).Some? then Some(Joined(Was(s, ref), p.dodag, p.src, DodagOf(s, p.src)))
                 else None
  {
    hide Good, Told, Found, Get, AddNode, Joined, DodagOf;
    GetAt(b, s, InstanceRef(p.instance), ref);
    var s1 := Get(s, InstanceRef(p.instance));
    GetAt(b, s1, DodagRef(p.dodag), ref);
    var s2 := Get(s1, DodagRef(p.dodag));
    GetAt(b, s2, NodeRef(p.src), ref);
    var s3 := Get(s2, NodeRef(p.src));
    GetsKnow(s, p);
    JoinAt(b, s3, p.dodag, p.src, ref);
  }

  lemma {:induction false} GetsKnow(s: State, p: Packet)
    requires Good(s) && p.Dio?
    ensures var s3 := Get(Get(Get(s, InstanceRef(p.instance)), DodagRef(p.dodag)), NodeRef(p.src));
            Known(s3, NodeRef(p.src)) && Known(s3, DodagRef(p.dodag)) && DodagOf(s3, p.src) == DodagOf(s, p.src)
  {
    hide Good, Get, AllUnique;
    var s1 := Get(s, InstanceRef(p.instance));
    var s2 := Get(s1, DodagRef(p.dodag));
    GetGood(s, InstanceRef(p.instance));
    GetGood(s1, DodagRef(p.dodag));
    GetGood(s2, NodeRef(p.src));
    GoodUnique(s);
    GoodUnique(s1);
    GoodUnique(s2);
    GetContent(s, InstanceRef(p.instance), NodeRef(p.src));
    GetContent(s1, DodagRef(p.dodag), NodeRef(p.src));
    GetContent(s2, NodeRef(p.src), NodeRef(p.src));
    GetContent(s2, NodeRef(p.src), DodagRef(p.dodag));
  }

  // ---- the root

  function WithInstance(r: Row, id: nat): Row {
    if r.content.Dodag? && r.content.instance != Some(id) then r.(content := r.content.(instance := Some(id)), changed := true)
    else r
  }

  function WithListed(r: Row, d: DodagId): Row {
    if r.content.Instance? then r.(content := r.content.(dodags := r.content.dodags + [d]), changed := true) else r
  }

  function WithMop(r: Row, mop: nat): Row {
    if r.content.Instance? && r.content.mop != mop then r.(content := r.content.(mop := mop), changed := true) else r
  }

  /** The instance lists the DODAG. */
  ghost predicate Lists(s: State, id: nat, d: DodagId) {
    Was(s, InstanceRef(id)).content.Instance? && d in Was(s, InstanceRef(id)).content.dodags
  }

  lemma {:induction false} SetInstanceAt(b: State, s: State, d: DodagId, id: nat, ref: Ref)
    requires Good(s) && Told(b, s, ref)
    ensures var s1 := SetInstance(s, d, id);
            && Good(s1) && Told(b, s1, ref)
            && Found(s1, ref) == if ref == DodagRef(d) && Found(s, ref).Some? then Some(WithInstance(Found(s, ref).value, id))
                                 else Found(s, ref)
  {
    hide Good, Told;
    InstanceGood(s, id, d, 0);
    GoodUnique(s);
    var c := ContentOf(s, DodagRef(d));
    if c.Dodag? {
      TouchAt(b, s, DodagRef(d), c.(instance := Some(id)), ref);
    }
  }

  lemma {:induction false} SetMopAt(b: State, s: State, id: nat, mop: nat, ref: Ref)
    requires Good(s) && Told(b, s, ref)
    ensures var s1 := SetMop(s, id, mop);
            && Good(s1) && Told(b, s1, ref)
            && Found(s1, ref) == if ref == InstanceRef(id) && Found(s, ref).Some? then Some(WithMop(Found(s, ref).value, mop))
                                 else Found(s, ref)
  {
    hide Good, Told;
    InstanceGood(s, id, DodagId(Ip(0, 0, 0, 0), 0), mop);
    GoodUnique(s);
    var c := ContentOf(s, InstanceRef(id));
    if c.Instance? {
      TouchAt(b, s, InstanceRef(id), c.(mop := mop), ref);
    }
  }

  lemma {:induction false} AddDodagAt(b: State, s: State, id: nat, d: DodagId, ref: Ref)
    requires Good(s) && Told(b, s, ref)
    ensures var s1 := AddDodag(s, id, d);
            && Good(s1) && Told(b, s1, ref)
            && Found(s1, ref) ==
                 if Lists(s, id, d) || Found(s, ref).None? then Found(s, ref)
                 else if ref == DodagRef(d) then Some(WithInstance(Found(s, ref).value, id))
                 else if ref == InstanceRef(id) then Some(WithListed(Found(s, ref).value, d))
                 else Found(s, ref)
  {
    hide Good, Told, SetInstance, Touch, Found, AllUnique;
    InstanceGood(s, id, d, 0);
    GoodFits(s, InstanceRef(id));
    GoodFits(s, ref);
    var c, s0 := ContentOf(s, InstanceRef(id)), SetInstance(s, d, id);
    SetInstanceAt(b, s, d, id, ref);
    GoodUnique(s0);
    TouchAt(b, s0, InstanceRef(id), c.(dodags := c.dodags + [d]), ref);
  }

  /** What a DIO of a root says of an object. */
  function Rooted(p: Packet, r: Row, lists: bool): Row
    requires p.Dio?
  {
    if r.ref == DodagRef(p.dodag) then Marked(p.dodagDiffers, if lists then r else WithInstance(r, p.instance))
    else if r.ref == InstanceRef(p.instance) then WithMop(if lists then r else WithListed(r, p.dodag), p.mop)
    else r
  }

  lemma {:induction false} DioRootAt(b: State, s: State, p: Packet, ref: Ref)
    requires Good(s) && p.Dio? && Told(b, s, ref)
    ensures var s1 := DioRoot(s, p);
            && Good(s1) && Told(b, s1, ref)
            && Found(s1, ref) ==
                 if Found(s, ref).None? then None
                 else if p.rank == 0 || p.rank == p.rootRank then
                   Some(Rooted(p, Found(s, ref).value, Lists(s, p.instance, p.dodag)))
                 else Found(s, ref)
  {
    hide Good, Told, Found, AddDodag, SetMop, MarkIf, WithInstance, WithListed, WithMop, Marked, Lists;
    if Found(s, ref).Some? {
      FoundIs(s, ref);
    }
    AddDodagAt(b, s, p.instance, p.dodag, ref);
    var added := AddDodag(s, p.instance, p.dodag);
    SetMopAt(b, added, p.instance, p.mop, ref);
    MarkIfAt(b, p.dodagDiffers, SetMop(added, p.instance, p.mop), DodagRef(p.dodag), ref);
  }

  // ---- the sender and the members

  function DioHeard(p: Packet, r: Row): Row
    requires p.Dio?
  {
    Erred(p.prefixDiffers, Erred(p.configDiffers, Marked(true, Counted(r)), ConfigMismatch), ConfigMismatch)
  }

  lemma {:induction false} DioNodeAt(b: State, s: State, p: Packet, ref: Ref)
    requires Good(s) && p.Dio? && Told(b, s, ref)
    ensures var s1 := DioNode(s, p);
            && Good(s1) && Told(b, s1, ref)
            && Found(s1, ref) == if ref == NodeRef(p.src) && Found(s, ref).Some? then Some(DioHeard(p, Found(s, ref).value))
                                 else Found(s, ref)
  {
    hide Good, Told, Found, Count, Mark, EditErrorsIf;
    CountAt(b, s, NodeRef(p.src), ref);
    var counted := Count(s, NodeRef(p.src));
    MarkIfAt(b, true, counted, NodeRef(p.src), ref);
    var marked := Mark(counted, NodeRef(p.src));
    ErrorAt(b, p.configDiffers, marked, p.src, ConfigMismatch, ref);
    ErrorAt(b, p.prefixDiffers, EditErrorsIf(p.configDiffers, marked, p.src, ConfigMismatch), p.src, ConfigMismatch, ref);
  }

  /** k configuration errors more. */
  function Blamed(r: Row, k: nat): Row {
    if k == 0 || !r.content.Node? then r
    else r.(content := r.content.(errors := r.content.errors.(configMismatch := r.content.errors.configMismatch + k)),
            changed := true)
  }

  lemma {:induction false} FlagAt(b: State, s: State, members: seq<Mac>, flagged: set<Mac>, n: nat, ref: Ref)
    requires Good(s) && n <= |members| && Told(b, s, ref)
    ensures var s1 := FlagMembers(s, members, flagged, n);
            && Good(s1) && Told(b, s1, ref)
            && Found(s1, ref) ==
                 if ref.NodeRef? && ref.mac in flagged && Found(s, ref).Some? then
                   Some(Blamed(Found(s, ref).value, Times(members[..n], ref.mac)))
                 else Found(s, ref)
  {
    hide Good, Told, Found, EditErrorsIf;
    if n == 0 {
      assert members[..0] == [];
    } else {
      FlagAt(b, s, members, flagged, n - 1, ref);
      assert members[..n][..n - 1] == members[..n - 1];
      ErrorAt(b, members[n - 1] in flagged, FlagMembers(s, members, flagged, n - 1), members[n - 1], ConfigMismatch, ref);
    }
  }

  lemma {:induction false} TimesOnce(m: seq<Mac>, x: Mac)
    requires NoRepeat(m)
    ensures Times(m, x) == One(x in m)
  {
    if m == [] {
    } else {
      var t, last := m[..|m| - 1], m[|m| - 1];
      forall i: nat, j: nat ensures Differ(t, i, j) {
        assert Differ(m, i, j);
      }
      TimesOnce(t, x);
      assert m == t + [last];
      forall i: nat | i < |t| ensures t[i] != last {
        assert Differ(m, i, |m| - 1);
      }
    }
  }

  // ---- the whole packet

  /** What a DIO says of an object before the members are gone through. */
  function DioEdited(p: Packet, r: Row, prev: Option<DodagId>, lists: bool): Row
    requires p.Dio?
  {
    var joined := Joined(r, p.dodag, p.src, prev);
    var rooted := if p.rank == 0 || p.rank == p.rootRank then Rooted(p, joined, lists) else joined;
    if r.ref == NodeRef(p.src) then DioHeard(p, rooted) else rooted
  }

  lemma {:induction false} ListsStill(s: State, p: Packet)
    requires Good(s) && p.Dio?
    ensures Lists(DioJoin(s, p), p.instance, p.dodag) <==> Lists(s, p.instance, p.dodag)
  {
    hide Good, Told, DioJoin, DodagOf;
    var ref := InstanceRef(p.instance);
    ToldNothing(s, ref);
    DioJoinAt(s, s, p, ref);
  }

  lemma {:induction false} RefStays(p: Packet, r: Row, prev: Option<DodagId>, lists: bool)
    requires p.Dio?
    ensures Joined(r, p.dodag, p.src, prev).ref == r.ref && DioEdited(p, r, prev, lists).ref == r.ref
    ensures Rooted(p, r, lists).ref == r.ref
  {
  }

  lemma {:induction false} DioEditedAt(b: State, s: State, p: Packet, ref: Ref)
    requires Good(s) && p.Dio? && Told(b, s, ref)
    ensures var s1 := DioNode(DioRoot(DioJoin(s, p), p), p);
            && Good(s1) && Told(b, s1, ref)
            && Found(s1, ref) ==
                 if Concerns(p, ref) || Found(s, ref).Some? then
                   Some(DioEdited(p, Was(s, ref), DodagOf(s, p.src), Lists(s, p.instance, p.dodag)))
                 else None
  {
    hide Good, Told, Found, Was, DioJoin, DioRoot, DioNode, Joined, Rooted, DioHeard, DodagOf, Lists, Concerns;
    WasRef(s, ref);
    ListsStill(s, p);
    DioJoinAt(b, s, p, ref);
    var joined := DioJoin(s, p);
    DioRootAt(b, joined, p, ref);
    DioNodeAt(b, DioRoot(joined, p), p, ref);
    SourceConcerns(p);
  }

  lemma {:induction false} SourceConcerns(p: Packet)
    requires p.Dio?
    ensures Concerns(p, NodeRef(p.src))
  {
  }

  lemma {:induction false} WasRef(s: State, ref: Ref)
    ensures Was(s, ref).ref == ref
  {
  }

  /** The row of an object after a DIO. */
  function DioRow(p: Packet, r: Row, prev: Option<DodagId>, lists: bool): Row
    requires p.Dio?
  {
    var edited := DioEdited(p, r, prev, lists);
    if (p.rank == 0 || p.rank == p.rootRank) && edited.ref.NodeRef? && edited.ref.mac in p.flagged then
      Blamed(edited, One(edited.content.Node? && edited.content.dodag == Some(p.dodag)))
    else edited
  }

  lemma {:induction false} DioAt(b: State, s: State, p: Packet, ref: Ref)
    requires Good(s) && p.Dio? && Told(b, s, ref)
    ensures var s1 := ParseDio(s, p);
            && Told(b, s1, ref)
            && Found(s1, ref) ==
                 if Concerns(p, ref) || Found(s, ref).Some? then
                   Some(DioRow(p, Was(s, ref), DodagOf(s, p.src), Lists(s, p.instance, p.dodag)))
                 else None
  {
    hide Good, Told, Found, Was, DioJoin, DioRoot, DioNode, DioEdited, DodagOf, Lists, Concerns, MembersOf, FlagMembers, Blamed;
    DioEditedAt(b, s, p, ref);
    var s0 := DioNode(DioRoot(DioJoin(s, p), p), p);
    if Found(s0, ref).Some? {
      FoundIs(s0, ref);
    }
    var ms := MembersOf(s0, p.dodag);
    FlagAt(b, s0, ms, p.flagged, |ms|, ref);
    assert ms[..|ms|] == ms;
    GoodNoRepeat(s0, p.dodag);
    if ref.NodeRef? {
      TimesOnce(ms, ref.mac);
      GoodAgrees(s0, ref.mac, p.dodag);
    }
  }

  lemma {:induction false} GoodNoRepeat(s: State, d: DodagId)
    requires Good(s)
    ensures NoRepeat(MembersOf(s, d))
  {
    assert NoRepeat(MembersOf(s, d));
  }

  /** A DIO is told in full: one Created event for an object that is new, one Updated event for any other that is marked
      for the first time, and no more. */
  lemma {:induction false} DioTold(b: State, s: State, p: Packet, ref: Ref)
    requires Good(s) && p.Dio? && Told(b, s, ref)
    ensures Told(b, ParseDio(s, p), ref)
  {
    hide *;
    DioAt(b, s, p, ref);
  }

  // ---- the results

  /** The row of a node, edited. */
  lemma {:induction false} EditedNode(p: Packet, w: Row, m: Mac, prev: Option<DodagId>, lists: bool)
    requires p.Dio? && w.ref == NodeRef(m) && w.content.Node?
    ensures var r := DioEdited(p, w, prev, lists);
            && r.ref == w.ref && r.content.Node? && r.content.dodag == (if m == p.src then Some(p.dodag) else w.content.dodag)
            && r.content.routes == w.content.routes && r.count == w.count + One(m == p.src)
            && (if m == p.src then r.changed else r == w)
            && r.content.errors == w.content.errors.(configMismatch :=
                 w.content.errors.configMismatch + One(m == p.src && p.configDiffers) + One(m == p.src && p.prefixDiffers))
  {
  }

  /** A DIO and a node. The sender names the DODAG of the DIO and has one packet more. Each option of the DIO that differs
      from the DODAG's counts one configuration error for it, and a DIO of a root, of rank 0 or of the rank that the
      settings give to roots, counts one for every member of the DODAG whose configuration differs. Nothing else of any
      node changes. */
  lemma {:induction false} DioNodes(s: State, p: Packet, m: Mac)
    requires Good(s) && p.Dio?
    ensures var s1, ref := ParseDio(s, p), NodeRef(m);
            && (Known(s1, ref) <==> Known(s, ref) || m == p.src)
            && (Known(s1, ref) ==>
                  var w, r := Was(s, ref), RowOf(s1, ref);
                  && w.content.Node? && r.content.Node?
                  && r.content.dodag == (if m == p.src then Some(p.dodag) else w.content.dodag)
                  && r.content.routes == w.content.routes && r.count == w.count + One(m == p.src)
                  && (r.changed <==> w.changed || r.content != w.content || m == p.src)
                  && var e, f := w.content.errors, r.content.errors;
                     && f.configMismatch == e.configMismatch + One(m == p.src && p.configDiffers) + One(m == p.src && p.prefixDiffers)
                                            + One((p.rank == 0 || p.rank == p.rootRank) && m in p.flagged
                                                  && r.content.dodag == Some(p.dodag))
                     && f.rank == e.rank && f.forward == e.forward && f.upward == e.upward && f.downward == e.downward
                     && f.routeLoop == e.routeLoop && f.ipMismatch == e.ipMismatch && f.dodagMismatch == e.dodagMismatch)
  {
    hide Good, Told, ParseDio, DodagOf, Lists, DioEdited;
    ToldNothing(s, NodeRef(m));
    DioAt(s, s, p, NodeRef(m));
    GoodFits(s, NodeRef(m));
    WasRef(s, NodeRef(m));
    EditedNode(p, Was(s, NodeRef(m)), m, DodagOf(s, p.src), Lists(s, p.instance, p.dodag));
  }

  /** A DIO and an instance. A DIO of a root sets the mode of operation of its instance and lists its DODAG last, if it
      was not listed; any other DIO leaves the instance as it is. No other instance changes. */
  lemma {:induction false} DioInstances(s: State, p: Packet, id: nat)
    requires Good(s) && p.Dio?
    ensures var s1, ref := ParseDio(s, p), InstanceRef(id);
            && (Known(s1, ref) <==> Known(s, ref) || id == p.instance)
            && (Known(s1, ref) ==>
                  var w, r := Was(s, ref), RowOf(s1, ref);
                  && w.content.Instance? && r.content.Instance? && r.count == w.count
                  && (r.changed <==> w.changed || r.content != w.content)
                  && (if id == p.instance && (p.rank == 0 || p.rank == p.rootRank) then
                        && r.content.mop == p.mop
                        && r.content.dodags == if p.dodag in w.content.dodags then w.content.dodags
                                               else w.content.dodags + [p.dodag]
                      else r.content == w.content))
  {
    hide Good, Told, ParseDio, DodagOf;
    ToldNothing(s, InstanceRef(id));
    DioAt(s, s, p, InstanceRef(id));
    GoodFits(s, InstanceRef(id));
  }

  lemma {:induction false} LeaverCounted(s: State, mac: Mac, d: DodagId)
    requires Good(s) && DodagOf(s, mac) == Some(d)
    ensures |Without(MembersOf(s, d), mac)| < |MembersOf(s, d)|
  {
    GoodAgrees(s, mac, d);
    WithoutShorter(MembersOf(s, d), mac);
  }

  lemma {:induction false} WithoutShorter(m: seq<Mac>, x: Mac)
    requires x in m
    ensures |Without(m, x)| < |m|
  {
    if m[0] != x {
      WithoutShorter(m[1..], x);
    }
  }

  /** A DIO and a DODAG. The sender stands last in the member list of the DODAG of the DIO, if it was not in it, and
      leaves the list of the one it named before. A DIO of a root makes its instance that of a DODAG it did not list; no
      other instance field changes. */
  lemma {:induction false} DioDodags(s: State, p: Packet, d: DodagId)
    requires Good(s) && p.Dio?
    ensures var s1, ref := ParseDio(s, p), DodagRef(d);
            && (Known(s1, ref) <==> Known(s, ref) || d == p.dodag)
            && (Known(s1, ref) ==>
                  var w, r := Was(s, ref), RowOf(s1, ref);
                  && w.content.Dodag? && r.content.Dodag? && r.count == w.count
                  && (r.changed <==> w.changed || r.content != w.content
                                     || (d == p.dodag && (p.rank == 0 || p.rank == p.rootRank) && p.dodagDiffers))
                  && r.content.members == (if DodagOf(s, p.src) == Some(p.dodag) then w.content.members
                                           else if d == p.dodag then w.content.members + [p.src]
                                           else if DodagOf(s, p.src) == Some(d) then Without(w.content.members, p.src)
                                           else w.content.members)
                  && r.content.instance == if d == p.dodag && (p.rank == 0 || p.rank == p.rootRank)
                                              && !Lists(s, p.instance, p.dodag) then Some(p.instance)
                                           else w.content.instance)
  {
    hide Good, Told, ParseDio, DodagOf, Lists, MembersOf;
    ToldNothing(s, DodagRef(d));
    DioAt(s, s, p, DodagRef(d));
    GoodFits(s, DodagRef(d));
    if Found(s, DodagRef(d)).Some? {
      FoundIs(s, DodagRef(d));
    }
    if DodagOf(s, p.src) == Some(d) {
      AddNodeFinds(s, p.src, d);
      LeaverCounted(s, p.src, d);
    }
  }

  lemma {:induction false} AddNodeFinds(s: State, mac: Mac, d: DodagId)
    requires Good(s) && DodagOf(s, mac) == Some(d)
    ensures Known(s, DodagRef(d))
  {
    GoodAgrees(s, mac, d);
    MemberIsKnown(s, mac, d);
  }

  /** A DIO changes no link. */
  lemma {:induction false} DioLinks(s: State, p: Packet, c: Mac, q: Mac)
    requires Good(s) && p.Dio?
    ensures Found(ParseDio(s, p), LinkRef(c, q)) == Found(s, LinkRef(c, q))
  {
    hide Good, Told, ParseDio, DodagOf, Lists;
    ToldNothing(s, LinkRef(c, q));
    DioAt(s, s, p, LinkRef(c, q));
    GoodFits(s, LinkRef(c, q));
  }
}
