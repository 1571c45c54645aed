/**
 The links of a child, the two clearing operations of the user interface, and what holds over every run of packets and
 clearings.
 */
module CollectorRuns {
  import opened Address
  import opened CollectorMembers
  import opened CollectorSpec
  import opened NetworkCommit
  import opened NetworkInvariant
  import opened NetworkState
  import opened Options
  import opened Routes
  import opened Sequences

  // ---- one live link per child

  /** The link is there and not deprecated. */
  ghost predicate Live(s: State, child: Mac, parent: Mac) {
    Known(s, LinkRef(child, parent)) && ContentOf(s, LinkRef(child, parent)) == Link(false)
  }

  ghost predicate OneParent(s: State) {
    forall c: Mac, p: Mac, q: Mac {:trigger Live(s, c, p), Live(s, c, q)} :: Live(s, c, p) && Live(s, c, q) ==> p == q
  }

  lemma {:induction false} SameLinks(s: State, s1: State)
    requires s1.links == s.links
    ensures OneParent(s) ==> OneParent(s1)
    ensures forall c: Mac, p: Mac {:trigger Live(s1, c, p)} :: Live(s1, c, p) <==> Live(s, c, p)
  {
    forall c: Mac, p: Mac ensures Live(s1, c, p) <==> Live(s, c, p) {
      assert K(s, Links) == K(s1, Links);
    }
  }

  /** links_deprecate_all_from, after n links: those of the child to other parents are deprecated. */
  lemma {:induction false} DeprecateContent(s: State, child: Mac, parent: Mac, n: nat, c: Mac, p: Mac)
    requires AllUnique(s) && n <= |s.links.rows|
    ensures var s1, ref := Deprecate(s, child, parent, n), LinkRef(c, p);
            && AllUnique(s1) && (Known(s1, ref) <==> Known(s, ref))
            && ContentOf(s1, ref) ==
                 if c == child && p != parent && Known(s, ref) && PlaceOf(s.links.rows, ref) < n then Link(true)
                 else ContentOf(s, ref)
  {
    hide Touch;
    if n == 0 {
    } else {
      DeprecateContent(s, child, parent, n - 1, c, p);
      var s0, row := Deprecate(s, child, parent, n - 1), s.links.rows[n - 1].ref;
      if row.LinkRef? {
        assert UniqueRefs(K(s, Links).rows);
        PlaceIs(s.links.rows, row, n - 1);
        DeprecateContent(s, child, parent, n - 1, row.child, row.parent);
        TouchContent(s0, row, Link(true), LinkRef(c, p));
      }
    }
  }

  lemma {:induction false} UpdateLinkContent(s: State, ref: Ref, other: Ref)
    requires AllUnique(s) && Known(s, ref) && ContentOf(s, ref).Link?
    ensures Known(UpdateLink(s, ref), other) <==> Known(s, other)
    ensures ContentOf(UpdateLink(s, ref), other) == if other == ref then Link(false) else ContentOf(s, other)
  {
    var s0 := Count(s, ref);
    CountContent(s, ref, ref);
    CountContent(s, ref, other);
    TouchContent(s0, ref, Link(false), other);
  }

  /** After a DAO or a packet toward the root the link of child and parent is live; with one preferred parent it is the
      only live link of the child. The links of other children stay as they are. */
  lemma {:induction false} RefreshLive(s: State, child: Mac, parent: Mac, onePreferredParent: bool, c: Mac, p: Mac)
    requires Inv(s)
    ensures Live(RefreshLink(s, child, parent, onePreferredParent), c, p) <==>
              if c == child && p == parent then true
              else Live(s, c, p) && !(onePreferredParent && c == child)
  {
    InvUnique(s);
    ContentFits(s, LinkRef(child, parent));
    ContentFits(s, LinkRef(c, p));
    RefreshLinkLive(s, child, parent, onePreferredParent, c, p);
  }

  lemma {:induction false} RefreshLinkLive(s: State, child: Mac, parent: Mac, onePreferredParent: bool, c: Mac, p: Mac)
    requires AllUnique(s) && ContentOf(s, LinkRef(child, parent)).Link? && ContentOf(s, LinkRef(c, p)).Link?
    ensures Live(RefreshLink(s, child, parent, onePreferredParent), c, p) <==>
              if c == child && p == parent then true
              else Live(s, c, p) && !(onePreferredParent && c == child)
  {
    var ref, other := LinkRef(child, parent), LinkRef(c, p);
    var s0 := Get(s, ref);
    GetContent(s, ref, ref);
    GetContent(s, ref, other);
    DeprecateContent(s0, child, parent, |s0.links.rows|, c, p);
    DeprecateContent(s0, child, parent, |s0.links.rows|, child, parent);
    var s1 := if onePreferredParent then Deprecate(s0, child, parent, |s0.links.rows|) else s0;
    UpdateLinkContent(s1, ref, other);
  }

  lemma {:induction false} RefreshOneParent(s: State, child: Mac, parent: Mac)
    requires Good(s) && OneParent(s)
    ensures OneParent(RefreshLink(s, child, parent, true))
  {
    var s1 := RefreshLink(s, child, parent, true);
    forall c: Mac, p: Mac, q: Mac | Live(s1, c, p) && Live(s1, c, q) ensures p == q {
      RefreshLive(s, child, parent, true, c, p);
      RefreshLive(s, child, parent, true, c, q);
    }
  }

  lemma {:induction false} DropLive(s: State, ref: Ref, c: Mac, p: Mac)
    requires Inv(s) && ref.LinkRef?
    ensures Live(Drop(s, ref), c, p) <==> LinkRef(c, p) != ref && Live(s, c, p)
  {
    InvUnique(s);
    DropContent(s, ref, LinkRef(c, p));
  }

  lemma {:induction false} DropOneParent(s: State, ref: Ref)
    requires Inv(s) && ref.LinkRef? && OneParent(s)
    ensures OneParent(Drop(s, ref))
  {
    forall c: Mac, p: Mac, q: Mac | Live(Drop(s, ref), c, p) && Live(Drop(s, ref), c, q) ensures p == q {
      DropLive(s, ref, c, p);
      DropLive(s, ref, c, q);
    }
  }

  lemma {:induction false} DaoLinkOneParent(s: State, p: Packet)
    requires Good(s) && OneParent(s) && p.Dao?
    ensures OneParent(DaoLink(s, p, true))
  {
    if p.lifetime.Some? {
      if p.lifetime.value > 0 {
        RefreshOneParent(s, p.src, p.dst);
        SameLinks(RefreshLink(s, p.src, p.dst, true), DaoLink(s, p, true));
      } else {
        DropOneParent(s, LinkRef(p.src, p.dst));
      }
    }
  }

  lemma {:induction false} ParseOneParent(s: State, p: Packet)
    requires Good(s) && LinksIdle(s) && OneParent(s)
    ensures OneParent(Parse(s, p, true))
  {
    hide Good, OneParent, LinksIdle, DaoNodes, DaoLink, DataNodes, RefreshLink, DataDownward, ParseDis, ParseDio;
    match p
    case Dis(_) => SameLinks(s, ParseDis(s, p));
    case Dio(_, _, _, _, _, _, _, _, _, _) => SameLinks(s, ParseDio(s, p));
    case Dao(_, _, _, _, _, _, _, _, _, _) =>
      var s0 := DaoNodes(s, p);
      SameLinks(s, s0);
      DaoNodesGood(s, p);
      DaoLinkOneParent(s0, p);
      SameLinks(DaoLink(s0, p, true), ParseDao(s, p, true));
    case Data(_, _, _, _, _, _, _, _) =>
      var s0 := DataNodes(s, p);
      SameLinks(s, s0);
      DataNodesGood(s, p);
      RefreshOneParent(s0, p.src, p.dst);
      SameLinks(RefreshLink(s0, p.src, p.dst, true), DataUpward(s0, p, true));
      SameLinks(s0, DataDownward(s0, p));
  }

  /** A DAO with a path lifetime above 0 leaves the child with the link to its destination and, with one preferred
      parent, with no other live link. */
  lemma {:induction false} DaoLeavesOneLink(s: State, p: Packet, parent: Mac)
    requires Good(s) && p.Dao? && p.lifetime.Some? && p.lifetime.value > 0
    ensures Live(ParseDao(s, p, true), p.src, parent) <==> parent == p.dst
  {
    var s0 := DaoNodes(s, p);
    DaoNodesGood(s, p);
    RefreshLive(s0, p.src, p.dst, true, p.src, parent);
    SameLinks(RefreshLink(s0, p.src, p.dst, true), DaoLink(s0, p, true));
    SameLinks(DaoLink(s0, p, true), ParseDao(s, p, true));
  }

  // ---- commits

  lemma {:induction false} CommitContent(s: State, ref: Ref)
    requires AllUnique(s)
    ensures (Known(Commit(s), ref) <==> Known(s, ref)) && ContentOf(Commit(s), ref) == ContentOf(s, ref)
  {
    var t := TagOf(ref);
    KOfPublish(s, t);
    var rows := K(s, t).rows;
    assert UniqueRefs(rows);
    FreezeUnique(rows);
    if Has(rows, ref) {
      PlaceIs(Unchanged(rows), ref, PlaceOf(rows, ref));
    }
    if Has(Unchanged(rows), ref) {
      assert RefAt(rows, ref, PlaceOf(Unchanged(rows), ref));
    }
  }

  lemma {:induction false} CommitGood(s: State)
    requires Good(s)
    ensures Good(Commit(s)) && LinksIdle(Commit(s)) && (OneParent(s) ==> OneParent(Commit(s)))
  {
    InvUnique(s);
    CommitSettles(s);
    var s1 := Commit(s);
    forall mac ensures DodagOf(s1, mac) == DodagOf(s, mac) && TableOk(s1, mac) {
      assert TableOk(s, mac);
      CommitContent(s, NodeRef(mac));
    }
    forall d ensures MembersOf(s1, d) == MembersOf(s, d) {
      CommitContent(s, DodagRef(d));
    }
    SameMembership(s, s1);
    assert K(s, Links) == s.links && Settled(K(s1, Links));
    forall i: nat | i < |s1.links.rows| ensures !s1.links.rows[i].changed {
      assert Unchanged(s1.links.rows)[i] == s1.links.rows[i];
    }
    if OneParent(s) {
      forall c: Mac, p: Mac, q: Mac | Live(s1, c, p) && Live(s1, c, q) ensures p == q {
        CommitContent(s, LinkRef(c, p));
        CommitContent(s, LinkRef(c, q));
        assert Live(s, c, p) && Live(s, c, q);
      }
    }
  }

  // ---- clearing the deprecated links

  predicate Dead(r: Row) {
    r.ref.LinkRef? && r.content == Link(true)
  }

  /** The place of the first deprecated link, or the length: the search that each round begins anew. */
  function FirstDead(rows: seq<Row>): (i: nat)
    ensures i <= |rows| && (i < |rows| ==> Dead(rows[i])) && forall j :: 0 <= j < i ==> !Dead(rows[j])
  {
    if rows == [] then 0
    else if Dead(rows[0]) then 0
    else
      assert forall j :: 0 < j < |rows| ==> rows[j] == rows[1..][j - 1];
      1 + FirstDead(rows[1..])
  }

  /** links_clear_all_deprecated: rounds of removing the first deprecated link, until none is left. */
  ghost function ClearLinks(s: State): State
    requires AllUnique(s)
    decreases |s.links.rows|
  {
    var i := FirstDead(s.links.rows);
    if i == |s.links.rows| then s
    else
      assert RefAt(K(s, Links).rows, s.links.rows[i].ref, i);
      DropContent(s, s.links.rows[i].ref, s.links.rows[i].ref);
      ClearLinks(Drop(s, s.links.rows[i].ref))
  }

  function LiveRow(r: Row): seq<Row> {
    if Dead(r) then [] else [r]
  }

  function LiveRows(rows: seq<Row>): seq<Row> {
    if rows == [] then [] else LiveRow(rows[0]) + LiveRows(rows[1..])
  }

  function Farewell(r: Row): seq<Event> {
    if Dead(r) then [Deleted(r.ref)] else []
  }

  function Farewells(rows: seq<Row>): seq<Event> {
    if rows == [] then [] else Farewell(rows[0]) + Farewells(rows[1..])
  }

  lemma {:induction false} Regroup<T>(a: seq<T>, b: seq<T>, c: seq<T>)
    ensures a + (b + c) == (a + b) + c
  {
  }

  lemma {:induction false} LiveOfAppend(a: seq<Row>, b: seq<Row>)
    ensures LiveRows(a + b) == LiveRows(a) + LiveRows(b) && Farewells(a + b) == Farewells(a) + Farewells(b)
    decreases |a|
  {
    if a == [] {
      assert a + b == b;
    } else {
      var r, t := a[0], a[1..];
      LiveOfAppend(t, b);
      assert (a + b)[0] == r && (a + b)[1..] == t + b;
      Regroup(LiveRow(r), LiveRows(t), LiveRows(b));
      Regroup(Farewell(r), Farewells(t), Farewells(b));
    }
  }

  lemma {:induction false} AllLive(a: seq<Row>)
    requires forall j :: 0 <= j < |a| ==> !Dead(a[j])
    ensures LiveRows(a) == a && Farewells(a) == []
    decreases |a|
  {
    if a == [] {
    } else {
      AllLive(a[1..]);
      assert a == [a[0]] + a[1..];
    }
  }

  lemma {:induction false} RemoveFirstDead(rows: seq<Row>, i: nat)
    requires i < |rows| && Dead(rows[i]) && forall j :: 0 <= j < i ==> !Dead(rows[j])
    ensures LiveRows(RemoveAt(rows, i)) == LiveRows(rows)
    ensures Farewells(rows) == [Deleted(rows[i].ref)] + Farewells(RemoveAt(rows, i))
  {
    var a, r, b := rows[..i], rows[i], rows[i + 1..];
    var t := [r] + b;
    assert rows == a + t && RemoveAt(rows, i) == a + b;
    AllLive(a);
    LiveOfAppend(a, b);
    LiveOfAppend(a, t);
    DeadHead(r, b);
    assert [] + Farewells(b) == Farewells(b) && [] + Farewells(t) == Farewells(t);
  }

  lemma {:induction false} DeadHead(r: Row, b: seq<Row>)
    requires Dead(r)
    ensures LiveRows([r] + b) == LiveRows(b) && Farewells([r] + b) == [Deleted(r.ref)] + Farewells(b)
  {
    assert ([r] + b)[0] == r && ([r] + b)[1..] == b;
    assert LiveRow(r) + LiveRows(b) == LiveRows(b);
  }

  lemma {:induction false} DropFirstDead(s: State)
    requires AllUnique(s) && FirstDead(s.links.rows) < |s.links.rows|
    ensures var i := FirstDead(s.links.rows);
            var ref := s.links.rows[i].ref;
            && Known(s, ref) && RowOf(s, ref) == s.links.rows[i]
            && Drop(s, ref) == s.(links := s.links.(rows := RemoveAt(s.links.rows, i)), events := s.events + [Deleted(ref)])
  {
    var i := FirstDead(s.links.rows);
    RowOfIs(s, s.links.rows[i].ref, i);
    assert UniqueRefs(K(s, Links).rows);
    PlaceIs(s.links.rows, s.links.rows[i].ref, i);
  }

  lemma {:induction false} AppendAll(a: seq<Event>, e: Event, b: seq<Event>)
    ensures (a + [e]) + b == a + ([e] + b)
  {
  }

  /** Clearing keeps exactly the live links, in their order, and queues one Deleted event for each of the others, in
      theirs. Nothing else changes. */
  lemma {:induction false} ClearLinksIsFilter(s: State)
    requires AllUnique(s)
    ensures ClearLinks(s) == s.(links := s.links.(rows := LiveRows(s.links.rows)), events := s.events + Farewells(s.links.rows))
    decreases |s.links.rows|
  {
    var i := FirstDead(s.links.rows);
    if i == |s.links.rows| {
      AllLive(s.links.rows);
      assert s.events + [] == s.events;
    } else {
      var ref := s.links.rows[i].ref;
      DropFirstDead(s);
      DropContent(s, ref, ref);
      ClearLinksIsFilter(Drop(s, ref));
      RemoveFirstDead(s.links.rows, i);
      AppendAll(s.events, Deleted(ref), Farewells(RemoveAt(s.links.rows, i)));
    }
  }

  lemma {:induction false} ClearLinksGood(s: State)
    requires Good(s) && LinksIdle(s)
    ensures AllUnique(s) && Good(ClearLinks(s)) && LinksIdle(ClearLinks(s))
    ensures OneParent(s) ==> OneParent(ClearLinks(s))
    decreases |s.links.rows|
  {
    InvUnique(s);
    var i := FirstDead(s.links.rows);
    if i < |s.links.rows| {
      var ref := s.links.rows[i].ref;
      ClearRound(s);
      if OneParent(s) {
        DropOneParent(s, ref);
      }
      ClearLinksGood(Drop(s, ref));
    }
  }

  /** One round of the clearing. */
  lemma {:induction false} ClearRound(s: State)
    requires Good(s) && LinksIdle(s) && FirstDead(s.links.rows) < |s.links.rows|
    ensures AllUnique(s)
    ensures var ref := s.links.rows[FirstDead(s.links.rows)].ref;
            var s1 := Drop(s, ref);
            && Known(s, ref) && RowOf(s, ref) == s.links.rows[FirstDead(s.links.rows)]
            && Good(s1) && LinksIdle(s1) && AllUnique(s1) && ClearLinks(s1) == ClearLinks(s)
            && |s1.links.rows| == |s.links.rows| - 1
  {
    InvUnique(s);
    var i := FirstDead(s.links.rows);
    var ref := s.links.rows[i].ref;
    DropFirstDead(s);
    DropLinkGood(s, ref);
    var s1 := Drop(s, ref);
    InvUnique(s1);
    forall j: nat | j < |s1.links.rows| ensures !s1.links.rows[j].changed {
      assert s1.links.rows[j] == s.links.rows[if j < i then j else j + 1];
    }
  }

  lemma {:induction false} FirstDeadIs(rows: seq<Row>, i: nat)
    requires i < |rows| && Dead(rows[i]) && forall j :: 0 <= j < i ==> !Dead(rows[j])
    ensures FirstDead(rows) == i
  {
  }

  // ---- clearing the errors

  /** nodes_clear_all_errors, over the first n nodes. */
  ghost function ClearErrors(s: State, n: nat): (s1: State)
    requires n <= |s.nodes.rows|
    ensures SamePast(s, s1) && s1.links == s.links
  {
    if n == 0 then s
    else
      var s0, ref := ClearErrors(s, n - 1), s.nodes.rows[n - 1].ref;
      var c := ContentOf(s0, ref);
      if ref.NodeRef? && c.Node? then Touch(s0, ref, c.(errors := NO_ERRORS)) else s0
  }

  lemma {:induction false} ClearErrorsSnoc(s: State, n: nat)
    requires n < |s.nodes.rows|
    ensures var s0, ref := ClearErrors(s, n), s.nodes.rows[n].ref;
            var c := ContentOf(s0, ref);
            ClearErrors(s, n + 1) == if ref.NodeRef? && c.Node? then Touch(s0, ref, c.(errors := NO_ERRORS)) else s0
  {
  }

  lemma {:induction false} ClearErrorsNone(s: State)
    ensures ClearErrors(s, 0) == s
  {
  }

  lemma {:induction false} ClearErrorsGood(s: State, n: nat)
    requires Good(s) && n <= |s.nodes.rows|
    ensures Good(ClearErrors(s, n))
  {
    if n == 0 {
    } else {
      ClearErrorsGood(s, n - 1);
      var s0, ref := ClearErrors(s, n - 1), s.nodes.rows[n - 1].ref;
      var c := ContentOf(s0, ref);
      if ref.NodeRef? && c.Node? {
        assert TableOk(s0, ref.mac);
        TouchGood(s0, ref, c.(errors := NO_ERRORS));
      }
    }
  }

  // ---- runs

  /** A frame that the dissector took for bad, or that is of no RPL type, is dropped before anything else happens. */
  datatype Op = Packet(p: Packet) | Dropped | ClearDeprecated | ClearAllErrors

  ghost function Step(s: State, op: Op, onePreferredParent: bool): State {
    match op
    case Packet(p) => Receive(s, p, onePreferredParent)
    case Dropped => s
    case ClearDeprecated => if AllUnique(s) then ClearLinks(s) else s
    case ClearAllErrors => ClearErrors(s, |s.nodes.rows|)
  }

  ghost function Run(ops: seq<Op>, onePreferredParent: bool): State {
    if ops == [] then EMPTY else Step(Run(ops[..|ops| - 1], onePreferredParent), ops[|ops| - 1], onePreferredParent)
  }

  /** What holds between any two operations. */
  ghost predicate Between(s: State, onePreferredParent: bool) {
    Good(s) && LinksIdle(s) && (onePreferredParent ==> OneParent(s))
  }

  lemma {:induction false} PacketEventGood(s: State)
    requires Good(s)
    ensures Good(Queue(s, PacketSeen))
  {
    PacketKeepsInv(s);
    var s1 := Queue(s, PacketSeen);
    forall mac ensures DodagOf(s1, mac) == DodagOf(s, mac) && TableOk(s1, mac) {
      assert TableOk(s, mac);
    }
    forall d ensures MembersOf(s1, d) == MembersOf(s, d) {
    }
    SameMembership(s, s1);
  }

  lemma {:induction false} ReceiveKeeps(s: State, p: Packet, onePreferredParent: bool)
    requires Between(s, onePreferredParent)
    ensures Between(Receive(s, p, onePreferredParent), onePreferredParent)
  {
    var s0 := Queue(s, PacketSeen);
    PacketEventGood(s);
    SameLinks(s, s0);
    ParseGood(s0, p, onePreferredParent);
    if onePreferredParent {
      ParseOneParent(s0, p);
    }
    CommitGood(Parse(s0, p, onePreferredParent));
  }

  lemma {:induction false} StepKeeps(s: State, op: Op, onePreferredParent: bool)
    requires Between(s, onePreferredParent)
    ensures Between(Step(s, op, onePreferredParent), onePreferredParent)
  {
    match op
    case Packet(p) => ReceiveKeeps(s, p, onePreferredParent);
    case Dropped =>
    case ClearDeprecated => ClearLinksGood(s);
    case ClearAllErrors =>
      ClearErrorsGood(s, |s.nodes.rows|);
      SameLinks(s, ClearErrors(s, |s.nodes.rows|));
  }

  /** Over every run the invariant holds, memberships agree both ways and, with one preferred parent, a child has one
      live link at most. */
  lemma {:induction false} RunKeeps(ops: seq<Op>, onePreferredParent: bool)
    ensures Between(Run(ops, onePreferredParent), onePreferredParent)
  {
    if ops == [] {
      EmptyIsInv();
      forall d ensures MembersOf(EMPTY, d) == [] {
      }
      forall mac, d ensures Agrees(EMPTY, mac, d) && TableOk(EMPTY, mac) {
      }
    } else {
      RunKeeps(ops[..|ops| - 1], onePreferredParent);
      StepKeeps(Run(ops[..|ops| - 1], onePreferredParent), ops[|ops| - 1], onePreferredParent);
    }
  }

  /** After every packet the queue is empty and every kind of object agrees with its newest snapshot. */
  lemma {:induction false} PacketSettles(ops: seq<Op>, p: Packet, onePreferredParent: bool, t: Tag)
    ensures Run(ops + [Packet(p)], onePreferredParent).events == []
    ensures Settled(K(Run(ops + [Packet(p)], onePreferredParent), t))
  {
    var s := Run(ops, onePreferredParent);
    assert (ops + [Packet(p)])[..|ops|] == ops;
    RunKeeps(ops, onePreferredParent);
    PacketEventGood(s);
    ParseGood(Queue(s, PacketSeen), p, onePreferredParent);
    var s1 := Parse(Queue(s, PacketSeen), p, onePreferredParent);
    CommitSettles(s1);
    assert K(s1, t) == K(s1, t);
  }

  /** What was published before stays as a beginning of what is published. */
  ghost predicate Extends(s: State, s1: State) {
    && (forall t: Tag {:trigger K(s, t)} :: K(s, t).history <= K(s1, t).history)
    && s.wsn <= s1.wsn
  }

  lemma {:induction false} SamePastExtends(s: State, s1: State)
    requires SamePast(s, s1)
    ensures Extends(s, s1)
  {
    forall t: Tag ensures K(s, t).history <= K(s1, t).history {
    }
  }

  lemma {:induction false} ReceiveExtends(s: State, p: Packet, onePreferredParent: bool)
    requires Good(s) && LinksIdle(s)
    ensures Extends(s, Receive(s, p, onePreferredParent))
  {
    hide Parse, Publish, Commit, Inv, Settled, KindOk;
    PacketEventGood(s);
    ParseGood(Queue(s, PacketSeen), p, onePreferredParent);
    var s0 := Parse(Queue(s, PacketSeen), p, onePreferredParent);
    CommitSettles(s0);
    forall t: Tag ensures K(s, t).history <= K(Commit(s0), t).history {
      assert K(s0, t).history == K(s, t).history;
    }
  }

  lemma {:induction false} StepExtends(s: State, op: Op, onePreferredParent: bool)
    requires Between(s, onePreferredParent)
    ensures Extends(s, Step(s, op, onePreferredParent))
  {
    hide Receive, OneParent, ClearErrors, SamePast, Inv, Extends;
    match op
    case Packet(p) => ReceiveExtends(s, p, onePreferredParent);
    case Dropped => SamePastExtends(s, s);
    case ClearDeprecated =>
      InvUnique(s);
      ClearLinksIsFilter(s);
      SamePastExtends(s, ClearLinks(s));
    case ClearAllErrors => SamePastExtends(s, ClearErrors(s, |s.nodes.rows|));
  }

  /** Snapshots are frozen: whatever follows, a published snapshot stays what it was, and so do the versions of the
      network. */
  lemma {:induction false} SnapshotsFrozen(ops: seq<Op>, n: nat, onePreferredParent: bool)
    requires n <= |ops|
    ensures Extends(Run(ops[..n], onePreferredParent), Run(ops, onePreferredParent))
    decreases |ops|
  {
    if n == |ops| {
      assert ops[..n] == ops;
    } else {
      var before := ops[..|ops| - 1];
      assert before[..n] == ops[..n];
      SnapshotsFrozen(before, n, onePreferredParent);
      RunKeeps(before, onePreferredParent);
      StepExtends(Run(before, onePreferredParent), ops[|ops| - 1], onePreferredParent);
      var a, b, c := Run(ops[..n], onePreferredParent), Run(before, onePreferredParent), Run(ops, onePreferredParent);
      forall t: Tag ensures K(a, t).history <= K(c, t).history {
        assert K(a, t).history <= K(b, t).history && K(b, t).history <= K(c, t).history;
      }
    }
  }
}
