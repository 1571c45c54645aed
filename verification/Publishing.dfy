/**
 What the outside is told of a packet and what is published of it: exactly the objects that it created, changed or
 removed.
 */
module Publishing {
  import opened CollectorMembers
  import opened CollectorRuns
  import opened CollectorSpec
  import opened DaoResults
  import opened DataResults
  import opened DioResults
  import opened NetworkCommit
  import opened NetworkInvariant
  import opened NetworkState
  import opened Observations
  import opened Options

  /** The state after a packet has been announced and collected, before it is committed. */
  ghost function Collected(s: State, p: Packet, onePreferredParent: bool): State {
    Parse(Queue(s, PacketSeen), p, onePreferredParent)
  }

  lemma {:induction false} AnnouncedAt(s: State, ref: Ref)
    ensures var s0 := Queue(s, PacketSeen);
            && Found(s0, ref) == Found(s, ref) && About(s0.events, ref) == About(s.events, ref)
            && Packets(s0.events) == Packets(s.events) + 1
  {
    AboutSnoc(s.events, PacketSeen, ref);
    PacketsSnoc(s.events, PacketSeen);
  }

  lemma {:induction false} ParseTold(s: State, p: Packet, onePreferredParent: bool, ref: Ref)
    requires Good(s) && LinksIdle(s)
    ensures var s1 := Parse(s, p, onePreferredParent);
            && About(s1.events, ref) == About(s.events, ref) + News(ref, Found(s, ref), Found(s1, ref))
            && Packets(s1.events) == Packets(s.events)
  {
    hide Good, LinksIdle, About, News, Found, Packets, ParseDis, ParseDio, ParseDao, ParseData;
    ToldNothing(s, ref);
    match p
    case Dis(_) => DisResult(s, s, p, ref);
    case Dio(_, _, _, _, _, _, _, _, _, _) => DioTold(s, s, p, ref);
    case Dao(_, _, _, _, _, _, _, _, _, _) => DaoTold(s, p, onePreferredParent, ref);
    case Data(_, _, _, _, _, _, _, _) => DataTold(s, s, p, onePreferredParent, ref);
  }

  /** Every packet is announced once. Of each object it queues one Created event if the object is new, one Deleted event if
      it is gone, one Updated event if it is marked now and was not before, and nothing otherwise. */
  lemma {:induction false} PacketTold(s: State, p: Packet, onePreferredParent: bool, ref: Ref)
    requires Good(s) && LinksIdle(s)
    ensures var s1 := Collected(s, p, onePreferredParent);
            && Packets(s1.events) == Packets(s.events) + 1
            && About(s1.events, ref) == About(s.events, ref) +
                 if !Known(s, ref) && Known(s1, ref) then [Created(ref)]
                 else if Known(s, ref) && !Known(s1, ref) then [Deleted(ref)]
                 else if Known(s, ref) && !RowOf(s, ref).changed && RowOf(s1, ref).changed then [Updated(ref)]
                 else []
  {
    hide Good, LinksIdle, About, Packets, Parse, Queue;
    AnnouncedAt(s, ref);
    AnnouncedGood(s);
    ParseTold(Queue(s, PacketSeen), p, onePreferredParent, ref);
  }

  lemma {:induction false} AnnouncedGood(s: State)
    requires Good(s) && LinksIdle(s)
    ensures Good(Queue(s, PacketSeen)) && LinksIdle(Queue(s, PacketSeen))
  {
    PacketEventGood(s);
  }

  lemma {:induction false} AboutMember(events: seq<Event>, ref: Ref)
    ensures About(events, ref) != [] <==> exists j: nat {:trigger events[j]} :: j < |events| && IsAbout(events[j], ref)
  {
    if events == [] {
    } else {
      var before := events[..|events| - 1];
      AboutMember(before, ref);
      if j: nat :| j < |events| && IsAbout(events[j], ref) {
        assert j < |before| ==> before[j] == events[j];
      }
      if j: nat :| j < |before| && IsAbout(before[j], ref) {
        assert events[j] == before[j];
      }
    }
  }

  /** Something is told of an object of the kind. */
  ghost predicate Mentioned(events: seq<Event>, t: Tag) {
    exists ref {:trigger About(events, ref)} :: TagOf(ref) == t && About(events, ref) != []
  }

  lemma {:induction false} MentionedIff(events: seq<Event>, t: Tag)
    ensures Mentioned(events, t) <==> HasEvent(events, t)
  {
    if ref :| TagOf(ref) == t && About(events, ref) != [] {
      AboutMember(events, ref);
      var j: nat :| j < |events| && IsAbout(events[j], ref);
      assert EventAbout(events, t, j);
    }
    if j: nat :| EventAbout(events, t, j) {
      AboutMember(events, events[j].ref);
      assert IsAbout(events[j], events[j].ref);
    }
  }

  /** A commit publishes one new snapshot, of the working set as it is, of each kind of which something is told, and no
      snapshot of any other; and one new version of the network if there is any. */
  lemma {:induction false} CommitPublishes(s: State, t: Tag)
    ensures K(Commit(s), t).history ==
              if Mentioned(s.events, t) then K(s, t).history + [Freeze(K(s, t).rows)] else K(s, t).history
    ensures |Commit(s).wsn| == |s.wsn| + One(exists u: Tag {:trigger Mentioned(s.events, u)} :: Mentioned(s.events, u))
  {
    hide Mentioned, HasEvent, About;
    KOfPublish(s, t);
    MentionedIff(s.events, t);
    MentionedIff(s.events, Nodes);
    MentionedIff(s.events, Dodags);
    MentionedIff(s.events, Instances);
    MentionedIff(s.events, Links);
    if u: Tag :| Mentioned(s.events, u) {
      assert u == Nodes || u == Dodags || u == Instances || u == Links;
    }
  }

  /** What has changed is published, and nothing else is: if nothing is pending, a packet leads to a new snapshot of a kind
      if and only if it creates, changes or removes an object of that kind. */
  lemma {:induction false} PacketPublishes(s: State, p: Packet, onePreferredParent: bool, t: Tag)
    requires Between(s, onePreferredParent) && s.events == []
    ensures var s1, after := Collected(s, p, onePreferredParent), Receive(s, p, onePreferredParent);
            |K(after, t).history| == |K(s, t).history| + One(
              exists ref {:trigger Known(s1, ref)} ::
                TagOf(ref) == t && ((Known(s1, ref) <==> !Known(s, ref)) || (Known(s1, ref) && RowOf(s1, ref).changed)))
  {
    hide Good, LinksIdle, About, Packets, Parse, Commit, Freeze, Known, RowOf;
    var s1 := Collected(s, p, onePreferredParent);
    CommitPublishes(s1, t);
    ParseSamePast(s, p, onePreferredParent, t);
    forall ref ensures About(s1.events, ref) != [] <==>
                         (Known(s1, ref) <==> !Known(s, ref)) || (Known(s1, ref) && RowOf(s1, ref).changed)
    {
      PacketTold(s, p, onePreferredParent, ref);
      NothingPending(s, ref);
    }
    if Mentioned(s1.events, t) {
      var ref :| TagOf(ref) == t && About(s1.events, ref) != [];
      assert Known(s1, ref) || !Known(s1, ref);
    }
  }

  lemma {:induction false} ParseSamePast(s: State, p: Packet, onePreferredParent: bool, t: Tag)
    ensures K(Collected(s, p, onePreferredParent), t).history == K(s, t).history
  {
    assert SamePast(Queue(s, PacketSeen), Collected(s, p, onePreferredParent));
  }

  lemma {:induction false} NothingPending(s: State, ref: Ref)
    requires Good(s) && s.events == []
    ensures About(s.events, ref) == [] && (Known(s, ref) ==> !RowOf(s, ref).changed)
  {
    var t := TagOf(ref);
    assert KindOk(s, t);
    if Known(s, ref) {
      assert RowOk(K(s, t), t, s.events, PlaceOf(K(s, t).rows, ref));
    }
  }

  // ---- the requests of the user interface

  lemma {:induction false} PlaceOfNode(s: State, i: nat)
    requires Good(s) && i < |s.nodes.rows|
    ensures Known(s, s.nodes.rows[i].ref) && s.nodes.rows[i].ref.NodeRef? && PlaceOf(s.nodes.rows, s.nodes.rows[i].ref) == i
  {
    assert KindOk(s, Nodes) && RowOk(K(s, Nodes), Nodes, s.events, i);
    PlaceIs(K(s, Nodes).rows, s.nodes.rows[i].ref, i);
  }

  /** nodes_clear_all_errors, after n nodes. */
  lemma {:induction false} ClearErrorsAt(b: State, s: State, n: nat, ref: Ref)
    requires Good(s) && n <= |s.nodes.rows| && Told(b, s, ref)
    ensures var s1 := ClearErrors(s, n);
            && Good(s1) && Told(b, s1, ref)
            && Found(s1, ref) ==
                 if ref.NodeRef? && Found(s, ref).Some? && Found(s, ref).value.content.Node? && PlaceOf(s.nodes.rows, ref) < n then
                   Some(Found(s, ref).value.(content := Found(s, ref).value.content.(errors := NO_ERRORS), changed := true))
                 else Found(s, ref)
  {
    hide Told, Good, Touch, AllUnique;
    if n == 0 {
    } else {
      ClearErrorsGood(s, n - 1);
      ClearErrorsGood(s, n);
      ClearErrorsAt(b, s, n - 1, ref);
      var s0, node := ClearErrors(s, n - 1), s.nodes.rows[n - 1].ref;
      PlaceOfNode(s, n - 1);
      GoodUnique(s0);
      GoodFits(s0, node);
      TouchAt(b, s0, node, ContentOf(s0, node).(errors := NO_ERRORS), ref);
    }
  }

  /** Clearing the errors: every node has zero counters afterwards, is marked, and keeps the rest of its fields. No other
      object changes, and every node is told of that was not marked before. */
  lemma {:induction false} ClearErrorsResult(s: State, ref: Ref)
    requires Good(s)
    ensures var s1 := ClearErrors(s, |s.nodes.rows|);
            && Told(s, s1, ref)
            && Found(s1, ref) ==
                 if ref.NodeRef? && Known(s, ref) then
                   var w := RowOf(s, ref);
                   if w.content.Node? then
                     Some(Row(ref, Node(w.content.dodag, w.content.routes, Errors(0, 0, 0, 0, 0, 0, 0, 0)), w.count, true))
                   else None
                 else Found(s, ref)
  {
    hide Told, Good, ClearErrors;
    ToldNothing(s, ref);
    GoodFits(s, ref);
    ClearErrorsAt(s, s, |s.nodes.rows|, ref);
  }

  /** Clearing the deprecated links: a link is there afterwards, as it was, if and only if it was there and not deprecated.
      Every other is told to be gone, and nothing else changes or is told. */
  lemma {:induction false} ClearLinksResult(s: State, ref: Ref)
    requires Good(s) && LinksIdle(s)
    ensures AllUnique(s)
    ensures var s1 := ClearLinks(s);
            && Found(s1, ref) ==
                 (if ref.LinkRef? && Known(s, ref) && RowOf(s, ref).content != Link(false) then None else Found(s, ref))
            && About(s1.events, ref) == About(s.events, ref) + News(ref, Found(s, ref), Found(s1, ref))
    decreases |s.links.rows|
  {
    hide Good, LinksIdle, AllUnique, Drop, About;
    GoodUnique(s);
    var i := FirstDead(s.links.rows);
    if i == |s.links.rows| {
      if ref.LinkRef? && Known(s, ref) {
        assert !Dead(s.links.rows[PlaceOf(s.links.rows, ref)]);
        GoodFits(s, ref);
      }
    } else {
      ClearRound(s);
      DropAt(s, s.links.rows[i].ref, ref);
      ClearLinksResult(Drop(s, s.links.rows[i].ref), ref);
    }
  }
}
