/**
 The analyser's store and the collectors that change it, one packet at a time. Every method is the function of the same
 purpose on the abstract state.
 */
module Collector {
  import opened Address
  import opened CollectorMembers
  import opened CollectorRuns
  import opened CollectorSpec
  import opened NetworkCommit
  import opened NetworkInvariant
  import opened NetworkObjects
  import opened NetworkState
  import opened NetworkStore
  import opened ObjectKeys
  import opened Options
  import opened RouteLists
  import opened Routes
  import opened Sequences
  import H = HashContainer
  import OrderedMap

  /** After j events: the kinds that they are about have their new snapshot, the others are as they were. */
  ghost predicate SeenUpTo(s: State, now: State, seen: set<Tag>, j: nat, t: Tag) {
    j <= |s.events| ==>
      && (t in seen <==> HasEvent(s.events[..j], t))
      && K(now, t) == if t in seen then AddVersion(K(s, t)) else K(s, t)
  }

  function Number(t: Tag): nat {
    match t
    case Nodes => 0
    case Dodags => 1
    case Instances => 2
    case Links => 3
  }

  class Store {
    const nodes: Family
    const dodags: Family
    const instances: Family
    const links: Family
    var events: seq<Event>
    var wsn: seq<Versions>

    ghost var repr: set<object>

    constructor (hash: OrderedMap.Key -> nat)
      ensures Valid() && View() == EMPTY && fresh(repr)
    {
      hide Family.Valid, Valid, View, FamOk, Separate, Foot;
      nodes := new Family(Nodes, hash);
      dodags := new Family(Dodags, hash);
      instances := new Family(Instances, hash);
      links := new Family(Links, hash);
      events, wsn := [], [];
      repr := {this, nodes, dodags, instances, links};
      new;
      EmptyIsValid();
    }

    lemma {:induction false} EmptyIsValid()
      requires this in repr && nodes in repr && dodags in repr && instances in repr && links in repr
      requires nodes != dodags && nodes != instances && nodes != links && dodags != instances && dodags != links && instances != links
      requires forall t: Tag {:trigger Fam(t)} :: Fam(t).Valid() && Fam(t).tag == t && Fam(t).view == Kind([], [])
      requires forall t: Tag {:trigger Fam(t)} :: Fam(t).live == {} && Fam(t).frozen == {} && Fam(t).cells == {}
      requires events == [] && wsn == []
      ensures Valid() && View() == EMPTY
    {
      hide Family.Valid;
      forall t: Tag ensures FamOk(t) {
        assert Foot(t) == {Fam(t)};
      }
      ViewIs(EMPTY);
    }

    function Fam(t: Tag): Family {
      match t
      case Nodes => nodes
      case Dodags => dodags
      case Instances => instances
      case Links => links
    }

    /** All that belongs to a family: itself, its objects and their cells. */
    ghost function Foot(t: Tag): set<object>
      reads Fam(t)
    {
      var family: set<object> := {Fam(t)};
      family + Fam(t).live + Fam(t).frozen + Fam(t).cells
    }

    /** A family is in order and lies within the store. */
    ghost predicate FamOk(t: Tag)
      reads this`repr, Fam(t), Foot(t)
    {
      Foot(t) <= repr && this !in Foot(t) && Fam(t).tag == t && Fam(t).Valid()
    }

    ghost predicate Separate(t: Tag, u: Tag)
      reads nodes, dodags, instances, links
    {
      t != u ==> Foot(t) !! Foot(u)
    }

    ghost predicate Valid()
      reads this, repr, nodes, dodags, instances, links, Foot(Nodes), Foot(Dodags), Foot(Instances), Foot(Links)
    {
      && this in repr
      && (forall t: Tag {:trigger FamOk(t)} :: FamOk(t))
      && (forall t: Tag, u: Tag {:trigger Separate(t, u)} :: Separate(t, u))
      && AllUnique(View())
    }

    ghost function View(): State
      reads this, nodes, dodags, instances, links
    {
      State(nodes.view, dodags.view, instances.view, links.view, events, wsn)
    }

    lemma {:induction false} ViewIs(s: State)
      requires forall t: Tag {:trigger Fam(t)} :: K(s, t) == Fam(t).view
      requires s.events == events && s.wsn == wsn
      ensures View() == s
    {
      assert Fam(Nodes) == nodes && Fam(Dodags) == dodags && Fam(Instances) == instances && Fam(Links) == links;
    }

    lemma {:induction false} KOfView(t: Tag)
      ensures K(View(), t) == Fam(t).view && View().events == events && View().wsn == wsn
    {
    }

    /** An object of the working set. */
    ghost predicate Holds(o: Obj)
      reads nodes, dodags, instances, links
    {
      o in Fam(TagOf(o.ref)).live
    }

    /** The row of a working object in the abstract state, and its fields. */
    lemma {:induction false} RowOfObject(o: Obj)
      requires Valid() && Holds(o)
      ensures Known(View(), o.ref) && RowOf(View(), o.ref) == Row(o.ref, o.content, o.count, o.changed)
      ensures ContentOf(View(), o.ref) == o.content && o.fields == FieldsOf(o.content) && Fits(o.ref, o.content)
    {
      var t := TagOf(o.ref);
      assert FamOk(t);
      var i := Fam(t).PlaceInWork(o);
      KOfView(t);
      RowOfIs(View(), o.ref, i);
      assert Stored(o, Fam(t).cells);
    }

    lemma {:induction false} OthersApart(t: Tag)
      requires Valid()
      ensures forall u: Tag {:trigger Number(u)} :: Number(u) != Number(t) ==> Foot(u) !! Foot(t) && this !in Foot(u)
      ensures this in repr && this !in Foot(t) && Foot(t) <= repr && Fam(t) in Foot(t)
    {
      assert FamOk(t);
      forall u: Tag ensures Number(u) != Number(t) ==> Foot(u) !! Foot(t) && this !in Foot(u) {
        assert Separate(u, t) && FamOk(u);
      }
    }

    lemma {:induction false} WorkingLength(t: Tag)
      requires Valid()
      ensures |Fam(t).working| == |K(View(), t).rows|
    {
      assert FamOk(t);
      KOfView(t);
    }

    /** A place of the working container. */
    lemma {:induction false} WorkingAt(t: Tag, i: nat)
      requires Valid() && i < |Fam(t).working|
      ensures |Fam(t).working| == |K(View(), t).rows| && TagOf(Fam(t).working[i].ref) == t
      ensures Holds(Fam(t).working[i]) && Fam(t).working[i].ref == K(View(), t).rows[i].ref
    {
      assert FamOk(t) && Fam(t).WorkOk(i);
      KOfView(t);
    }

    // ---- the elementary changes

    twostate lemma FamsStay(new t: Tag)
      requires old(Valid()) && this in repr && old(repr) <= repr && FamOk(t) && fresh(Foot(t) - old(Foot(t)))
      requires forall u: Tag {:trigger Number(u)} :: Number(u) != Number(t) ==> unchanged(old(Foot(u)))
      ensures forall u: Tag {:trigger FamOk(u)} :: FamOk(u)
      ensures forall u: Tag {:trigger Fam(u)} :: u != t ==> Fam(u).view == old(Fam(u).view)
      ensures forall u: Tag, w: Tag {:trigger Separate(u, w)} :: Separate(u, w)
    {
      hide View, Family.Valid;
      forall u: Tag ensures FamOk(u) && (Number(u) != Number(t) ==> Foot(u) == old(Foot(u)) && Fam(u).view == old(Fam(u).view)) {
        assert old(FamOk(u)) && (Number(u) != Number(t) || u == t);
      }
      forall u: Tag, w: Tag ensures Separate(u, w) {
        assert old(Separate(u, w)) && (Number(u) != Number(t) || u == t) && (Number(w) != Number(t) || w == t);
      }
    }

    /** Validity and the abstract state after a change to one family. */
    twostate lemma Assemble(new t: Tag, new s: State)
      requires old(Valid()) && this in repr && old(repr) <= repr && FamOk(t) && fresh(Foot(t) - old(Foot(t)))
      requires forall u: Tag {:trigger Number(u)} :: Number(u) != Number(t) ==> unchanged(old(Foot(u)))
      requires K(s, t) == Fam(t).view && s.wsn == wsn == old(wsn) && OnlyKind(old(View()), s, t, events)
      ensures Valid() && View() == s
    {
      hide FamOk, Separate, Family.Valid, AllUnique, Foot;
      FamsStay(t);
      forall u: Tag ensures K(s, u) == Fam(u).view {
        assert K(old(View()), u) == old(Fam(u).view);
      }
      ViewIs(s);
    }

    /** A working object and its cells belong to its family. */
    lemma {:induction false} InFoot(o: Obj)
      requires Valid() && Holds(o)
      ensures var f := Fam(TagOf(o.ref));
              f.Valid() && UniqueRefs(f.view.rows) && o in f.live && o.cells <= f.cells && o.Real() && o !in f.cells && f !in f.cells
    {
      var t := TagOf(o.ref);
      assert FamOk(t) && Stored(o, Fam(t).cells);
      assert o in Fam(t).live + Fam(t).frozen;
      KOfView(t);
    }

    /** A change within the objects of one family leaves all containers alone. */
    twostate lemma SameObjects(new t: Tag)
      requires old(Valid()) && unchanged(Fam(t)`working, Fam(t)`live)
      requires forall u: Tag {:trigger Number(u)} :: Number(u) != Number(t) ==> unchanged(old(Foot(u)))
      ensures forall u: Tag {:trigger Fam(u)} :: Fam(u).working == old(Fam(u).working)
      ensures forall x: Obj {:trigger Holds(x)} :: old(allocated(x)) && old(Holds(x)) ==> Holds(x)
    {
      hide Valid;
      forall u: Tag ensures Fam(u).working == old(Fam(u).working) && Fam(u).live == old(Fam(u).live) {
        assert Number(u) != Number(t) || u == t;
      }
    }

    /** The queue is no part of what makes the store valid. */
    method SetEvents(es: seq<Event>)
      requires Valid()
      modifies this`events
      ensures Valid() && View() == old(View()).(events := es) && events == es
    {
      label L:
      events := es;
      forall t: Tag ensures FamOk(t) {
        assert old@L(FamOk(t));
      }
      forall t: Tag, u: Tag ensures Separate(t, u) {
        assert old@L(Separate(t, u));
      }
      forall t: Tag ensures UniqueRefs(K(View(), t).rows) {
        assert UniqueRefs(K(old@L(View()), t).rows);
      }
    }

    /** Nor are the published versions. */
    method SetVersions(vs: seq<Versions>)
      requires Valid()
      modifies this`wsn
      ensures Valid() && View() == old(View()).(wsn := vs) && wsn == vs
      ensures forall t: Tag {:trigger K(View(), t)} :: K(View(), t) == K(old(View()), t)
    {
      label L:
      wsn := vs;
      forall t: Tag ensures FamOk(t) {
        assert old@L(FamOk(t));
      }
      forall t: Tag, u: Tag ensures Separate(t, u) {
        assert old@L(Separate(t, u));
      }
      forall t: Tag ensures UniqueRefs(K(View(), t).rows) && K(View(), t) == K(old(View()), t) {
        assert UniqueRefs(K(old@L(View()), t).rows);
      }
    }

    /** An object outside the store is not looked at. */
    lemma {:induction false} Outside(x: object)
      requires Valid() && x !in repr
      ensures x !in Foot(Nodes) && x !in Foot(Dodags) && x !in Foot(Instances) && x !in Foot(Links)
      ensures x != this && x != nodes && x != dodags && x != instances && x != links
    {
      assert FamOk(Nodes) && FamOk(Dodags) && FamOk(Instances) && FamOk(Links);
    }

    /** The creation in rpldata_get_object. */
    method CreateObject(ref: Ref) returns (o: Obj)
      requires Valid() && !Known(View(), ref)
      modifies repr
      ensures Valid() && View() == Get(old(View()), ref) && fresh(repr - old(repr))
      ensures Holds(o) && o.ref == ref
      ensures forall x: Obj {:trigger Holds(x)} :: old(allocated(x)) && old(Holds(x)) ==> Holds(x)
    {
      hide NetworkState.Get, NetworkState.K, Known, View, AllUnique, OnlyKind, Family.Valid;
      var t := TagOf(ref);
      var f := Fam(t);
      assert FamOk(t);
      ghost var s := Get(View(), ref);
      GetKinds(View(), ref);
      KOfView(t);
      OthersApart(t);
      o := f.Create(ref);
      events := events + [Created(ref)];
      repr := repr + {o} + f.cells;
      Assemble(t, s);
    }

    /** rpldata_get_object with HVM_CreateIfNonExistant. */
    method GetObject(ref: Ref) returns (o: Obj)
      requires Valid()
      modifies repr
      ensures Valid() && View() == Get(old(View()), ref) && fresh(repr - old(repr))
      ensures Holds(o) && o.ref == ref && Known(View(), ref)
      ensures forall x: Obj {:trigger Holds(x)} :: old(allocated(x)) && old(Holds(x)) ==> Holds(x)
    {
      var t := TagOf(ref);
      assert FamOk(t);
      KOfView(t);
      var found := Fam(t).Find(ref);
      if found != null {
        o := found;
      } else {
        o := CreateObject(ref);
        RowOfObject(o);
      }
    }

    /** A setter edits an object, before it calls the set_changed function. */
    method Write(o: Obj, e: Edit) returns (found: bool)
      requires Valid() && Holds(o) && Suits(o.content, e)
      modifies repr
      ensures forall u: Tag {:trigger Number(u)} :: Number(u) != Number(TagOf(o.ref)) ==> unchanged(old(Foot(u)))
      ensures Valid() && View() == NetworkState.Write(old(View()), o.ref, Edited(old(o.content), e)) && fresh(repr - old(repr))
      ensures found == WasThereFor(old(o.content), e) && o.content == Edited(old(o.content), e)
      ensures forall t: Tag {:trigger Fam(t)} :: Fam(t).working == old(Fam(t).working)
      ensures forall x: Obj {:trigger Holds(x)} :: old(allocated(x)) && old(Holds(x)) ==> Holds(x)
    {
      hide NetworkState.Write, NetworkState.K, Known, View, AllUnique, OnlyKind, Family.Valid, Obj.Real, Edited, WasThereFor;
      var t := TagOf(o.ref);
      var f := Fam(t);
      ghost var c := Edited(o.content, e);
      ghost var s := NetworkState.Write(View(), o.ref, c);
      RowOfObject(o);
      WriteKinds(View(), o.ref, c);
      KOfView(t);
      OthersApart(t);
      InFoot(o);
      assert FamOk(t);
      found := f.Edit(o, e);
      repr := repr + f.cells;
      Assemble(t, s);
      SameObjects(t);
    }

    /** The set_changed functions. */
    method SetChanged(o: Obj)
      requires Valid() && Holds(o)
      modifies repr
      ensures forall u: Tag {:trigger Number(u)} :: Number(u) != Number(TagOf(o.ref)) ==> unchanged(old(Foot(u)))
      ensures Valid() && View() == Mark(old(View()), o.ref) && repr == old(repr)
      ensures forall t: Tag {:trigger Fam(t)} :: Fam(t).working == old(Fam(t).working)
      ensures forall x: Obj {:trigger Holds(x)} :: old(allocated(x)) && old(Holds(x)) ==> Holds(x)
    {
      hide Mark, NetworkState.K, Known, View, AllUnique, OnlyKind, Family.Valid, Obj.Real;
      var t := TagOf(o.ref);
      var f := Fam(t);
      ghost var s := Mark(View(), o.ref);
      RowOfObject(o);
      MarkKinds(View(), o.ref);
      KOfView(t);
      OthersApart(t);
      InFoot(o);
      assert FamOk(t);
      if !o.changed {
        events := events + [Updated(o.ref)];
      }
      f.SetChanged(o);
      Assemble(t, s);
      SameObjects(t);
    }

    /** A setter as a whole. */
    method Change(o: Obj, f: Fields)
      requires Valid() && Holds(o) && SameKind(o.content, f)
      modifies repr
      ensures forall u: Tag {:trigger Number(u)} :: Number(u) != Number(TagOf(o.ref)) ==> unchanged(old(Foot(u)))
      ensures Valid() && View() == Touch(old(View()), o.ref, WithFields(old(o.content), f)) && fresh(repr - old(repr))
      ensures forall t: Tag {:trigger Fam(t)} :: Fam(t).working == old(Fam(t).working)
      ensures forall x: Obj {:trigger Holds(x)} :: old(allocated(x)) && old(Holds(x)) ==> Holds(x)
    {
      MarkWritten(View(), o.ref, WithFields(o.content, f));
      var _ := Write(o, EditFields(f));
      SetChanged(o);
    }

    /** The objects of a container are those of an abstract one. */
    ghost predicate Mirrors(t: Tag, container: seq<Obj>, f: seq<Frozen>)
      reads Fam(t), Fam(t).live, Fam(t).frozen
    {
      |container| == |f| && forall i: nat {:trigger container[i]} :: i < |f| ==>
        && container[i] in Fam(t).live + Fam(t).frozen
        && Frozen(container[i].ref, container[i].content) == f[i]
    }

    /** rpldata_get_nodes and its siblings. */
    method ContainerOf(version: nat, t: Tag) returns (found: bool, container: seq<Obj>)
      requires Valid() && VersionsOk(View()) && version <= |wsn|
      ensures found <==> ContainerAt(View(), version, t).Some?
      ensures found ==> Mirrors(t, container, ContainerAt(View(), version, t).value)
      ensures !found ==> container == []
      ensures version > 0 && VersionOf(wsn[version - 1], t) == |Fam(t).snapshots| ==> container == Fam(t).NewestObjs()
    {
      assert FamOk(t) && (version > 0 ==> VersionOk(View(), t, version - 1));
      KOfView(t);
      var n := if version == 0 then 0 else VersionOf(wsn[version - 1], t);
      found, container := true, [];
      if version == 0 {
        container := Fam(t).working;
        forall i: nat | i < |container|
          ensures container[i] in Fam(t).live && Frozen(container[i].ref, container[i].content) == Freeze(Fam(t).view.rows)[i]
        {
          assert Fam(t).WorkOk(i);
        }
      } else if n == 0 {
        found := false;
      } else {
        container := Fam(t).snapshots[n - 1];
        assert Fam(t).SnapOk(n - 1, 0);
        forall i: nat | i < |container|
          ensures container[i] in Fam(t).frozen && Frozen(container[i].ref, container[i].content) == Fam(t).view.history[n - 1][i]
        {
          assert Fam(t).SnapOk(n - 1, i);
        }
      }
    }

    /** The container that node_update_old_field and link_update_old_field look into. */
    method NewestContainer(t: Tag) returns (container: seq<Obj>)
      requires Valid() && Inv(View())
      ensures container == Fam(t).NewestObjs() && Valid() && View() == old(View())
    {
      assert FamOk(t);
      KOfView(t);
      container := [];
      if |wsn| > 0 {
        assert VersionOk(View(), t, |wsn| - 1);
        var _, c := ContainerOf(|wsn|, t);
        container := c;
      } else {
        assert K(View(), t).history == [];
      }
    }

    /** node_add_packet_count and the counting in link_update. */
    method CountPacket(o: Obj)
      requires Valid() && Inv(View()) && Holds(o)
      modifies repr
      ensures Valid() && View() == Count(old(View()), o.ref) && fresh(repr - old(repr))
      ensures forall x: Obj {:trigger Holds(x)} :: old(allocated(x)) && old(Holds(x)) ==> Holds(x)
    {
      hide Valid, View, Count, Holds;
      var container := NewestContainer(TagOf(o.ref));
      NewestUnique(TagOf(o.ref));
      CountIn(o, container);
    }

    method CountIn(o: Obj, container: seq<Obj>)
      requires Valid() && Holds(o) && container == Fam(TagOf(o.ref)).NewestObjs()
      requires UniqueFrozen(Newest(Fam(TagOf(o.ref)).view))
      modifies repr
      ensures Valid() && View() == Count(old(View()), o.ref) && repr == old(repr)
      ensures forall x: Obj {:trigger Holds(x)} :: old(allocated(x)) && old(Holds(x)) ==> Holds(x)
    {
      hide Count, NetworkState.K, Known, View, AllUnique, OnlyKind, Family.Valid, Obj.Real, Newest, UniqueFrozen, Family.NewestObjs;
      var t := TagOf(o.ref);
      var f := Fam(t);
      ghost var s := Count(View(), o.ref);
      RowOfObject(o);
      CountKinds(View(), o.ref);
      KOfView(t);
      OthersApart(t);
      InFoot(o);
      assert FamOk(t);
      f.AddCount(o, container);
      Assemble(t, s);
      SameObjects(t);
    }

    lemma {:induction false} NewestUnique(t: Tag)
      requires Valid() && Inv(View())
      ensures UniqueFrozen(Newest(Fam(t).view))
    {
      assert KindOk(View(), t);
      KOfView(t);
    }

    /** rpldata_del_link and the event that follows it. */
    method DropObject(o: Obj)
      requires Valid() && Holds(o)
      modifies repr
      ensures Valid() && View() == Drop(old(View()), o.ref) && fresh(repr - old(repr))
      ensures forall x: Obj {:trigger Holds(x)} :: old(allocated(x)) && old(Holds(x)) && x != o ==> Holds(x)
    {
      hide Drop, NetworkState.K, Known, View, AllUnique, OnlyKind, Family.Valid, Obj.Real;
      var t := TagOf(o.ref);
      var f := Fam(t);
      ghost var s := Drop(View(), o.ref);
      RowOfObject(o);
      DropKinds(View(), o.ref);
      KOfView(t);
      OthersApart(t);
      InFoot(o);
      assert FamOk(t);
      f.Remove(o);
      events := events + [Deleted(o.ref)];
      Assemble(t, s);
      FewerObjects(t, o);
    }

    twostate lemma FewerObjects(new t: Tag, new o: Obj)
      requires old(Valid()) && Fam(t).live == old(Fam(t).live) - {o}
      requires forall u: Tag {:trigger Number(u)} :: Number(u) != Number(t) ==> unchanged(old(Foot(u)))
      ensures forall x: Obj {:trigger Holds(x)} :: old(allocated(x)) && old(Holds(x)) && x != o ==> Holds(x)
    {
      hide Valid;
      forall u: Tag ensures u != t ==> Fam(u).live == old(Fam(u).live) {
        assert Number(u) != Number(t) || u == t;
      }
    }

    // ---- nodes

    /** One more error of a kind, where the check that counts it succeeds. */
    method CountErrorIf(cond: bool, o: Obj, k: ErrorKind)
      requires Valid() && Good(View()) && Holds(o) && o.ref.NodeRef?
      modifies repr
      ensures forall u: Tag {:trigger Number(u)} :: Number(u) != Number(Nodes) ==> unchanged(old(Foot(u)))
      ensures Valid() && Good(View()) && View() == EditErrorsIf(cond, old(View()), o.ref.mac, k) && fresh(repr - old(repr))
      ensures forall t: Tag {:trigger Fam(t)} :: Fam(t).working == old(Fam(t).working)
      ensures forall x: Obj {:trigger Holds(x)} :: old(allocated(x)) && old(Holds(x)) ==> Holds(x)
    {
      hide View, Touch, Family.Valid;
      EditErrorsIfGood(cond, View(), o.ref.mac, k);
      RowOfObject(o);
      if cond {
        Change(o, o.fields.(errors := Bump(o.fields.errors, k)));
      }
    }

    method MarkIfDiffers(cond: bool, o: Obj)
      requires Valid() && Good(View()) && Holds(o)
      modifies repr
      ensures Valid() && Good(View()) && View() == MarkIf(cond, old(View()), o.ref) && fresh(repr - old(repr))
      ensures forall x: Obj {:trigger Holds(x)} :: old(allocated(x)) && old(Holds(x)) ==> Holds(x)
    {
      hide Valid, View, Mark;
      MarkIfGood(cond, View(), o.ref);
      if cond {
        SetChanged(o);
      }
    }

    /** Getting a node and counting a packet of it. */
    method SeenNode(mac: Mac) returns (o: Obj)
      requires Valid() && Good(View())
      modifies repr
      ensures Valid() && Good(View()) && View() == Count(Get(old(View()), NodeRef(mac)), NodeRef(mac)) && fresh(repr - old(repr))
      ensures Holds(o) && o.ref == NodeRef(mac)
      ensures forall x: Obj {:trigger Holds(x)} :: old(allocated(x)) && old(Holds(x)) ==> Holds(x)
    {
      hide Valid, Good, View, Count, Get;
      GetGood(View(), NodeRef(mac));
      o := GetObject(NodeRef(mac));
      CountGood(View(), NodeRef(mac));
      CountPacket(o);
    }

    method GetGoodObject(ref: Ref) returns (o: Obj)
      requires Valid() && Good(View())
      modifies repr
      ensures Valid() && Good(View()) && View() == Get(old(View()), ref) && fresh(repr - old(repr))
      ensures Holds(o) && o.ref == ref && Known(View(), ref)
      ensures forall x: Obj {:trigger Holds(x)} :: old(allocated(x)) && old(Holds(x)) ==> Holds(x)
    {
      GetGood(View(), ref);
      o := GetObject(ref);
    }

    /** node_set_dodag. */
    method SetNodeDodag(o: Obj, d: Option<DodagId>)
      requires Valid() && Holds(o) && o.ref.NodeRef?
      modifies repr
      ensures Valid() && View() == SetDodag(old(View()), o.ref.mac, d) && fresh(repr - old(repr))
      ensures forall x: Obj {:trigger Holds(x)} :: old(allocated(x)) && old(Holds(x)) ==> Holds(x)
    {
      RowOfObject(o);
      if o.fields.dodag != d {
        Change(o, o.fields.(dodag := d));
      }
    }

    /** node_add_route. */
    method AddRouteTo(o: Obj, t: Target, via: Mac)
      requires Valid() && Good(View()) && Holds(o) && o.ref.NodeRef?
      modifies repr
      ensures Valid() && Good(View()) && View() == AddNodeRoute(old(View()), o.ref.mac, t, via) && fresh(repr - old(repr))
      ensures forall x: Obj {:trigger Holds(x)} :: old(allocated(x)) && old(Holds(x)) ==> Holds(x)
    {
      RouteGood(View(), o.ref.mac, t, via);
      RowOfObject(o);
      var e := PutRoute(t, via);
      WriteSame(View(), o.ref);
      MarkWritten(View(), o.ref, Edited(o.content, e));
      AddedSame(o.content.routes, t, via);
      var wasThere := Write(o, e);
      if !wasThere {
        SetChanged(o);
      }
    }

    /** node_del_route. */
    method DelRouteFrom(o: Obj, t: Target, via: Mac)
      requires Valid() && Good(View()) && Holds(o) && o.ref.NodeRef?
      modifies repr
      ensures Valid() && Good(View()) && View() == DelNodeRoute(old(View()), o.ref.mac, t, via) && fresh(repr - old(repr))
      ensures forall x: Obj {:trigger Holds(x)} :: old(allocated(x)) && old(Holds(x)) ==> Holds(x)
    {
      RouteGood(View(), o.ref.mac, t, via);
      RowOfObject(o);
      assert TableOk(View(), o.ref.mac);
      var e := TakeRoute(t, via);
      WriteSame(View(), o.ref);
      MarkWritten(View(), o.ref, Edited(o.content, e));
      var found := Write(o, e);
      if found {
        SetChanged(o);
      }
    }

    // ---- DODAGs

    /** The order of dodag_add_node and dodag_del_node: first the container, then the node, then the flag. */
    lemma {:induction false} SetDodagAround(s: State, d: DodagId, c: Content, mac: Mac, to: Option<DodagId>)
      requires AllUnique(s) && Known(s, DodagRef(d))
      ensures Mark(SetDodag(NetworkState.Write(s, DodagRef(d), c), mac, to), DodagRef(d)) == Touch(SetDodag(s, mac, to), DodagRef(d), c)
    {
      var n := ContentOf(s, NodeRef(mac));
      WriteTouch(s, DodagRef(d), c, NodeRef(mac), n);
      if n.Node? && n.dodag != to {
        SetAround(s, DodagRef(d), c, NodeRef(mac), n.(dodag := to));
      } else {
        MarkWritten(s, DodagRef(d), c);
      }
    }

    /** dodag_del_node. */
    method DelNodeFrom(dodag: Obj, node: Obj)
      requires Valid() && Holds(dodag) && Holds(node) && dodag.ref.DodagRef? && node.ref.NodeRef?
      modifies repr
      ensures Valid() && View() == DelNode(old(View()), dodag.ref.dodag, node.ref.mac) && fresh(repr - old(repr))
      ensures forall x: Obj {:trigger Holds(x)} :: old(allocated(x)) && old(Holds(x)) ==> Holds(x)
    {
      hide SetDodag, Touch, Mark, NetworkState.Write, Family.Valid, AllUnique;
      ghost var s, c, mac := View(), dodag.content, node.ref.mac;
      RowOfObject(dodag);
      SetDodagAround(s, dodag.ref.dodag, Edited(c, TakeMember(mac)), mac, None);
      var found := Write(dodag, TakeMember(node.ref.mac));
      if found {
        SetNodeDodag(node, None);
        SetChanged(dodag);
      } else {
        WithoutAbsent(c.members, mac);
        WriteSame(s, dodag.ref);
      }
    }

    /** rpldata_get_object with HVM_FailIfNonExistant. */
    method FindObject(ref: Ref) returns (o: Obj?)
      requires Valid()
      ensures o == null <==> !Known(View(), ref)
      ensures o != null ==> Holds(o) && o.ref == ref
      ensures Valid() && View() == old(View())
    {
      assert FamOk(TagOf(ref));
      KOfView(TagOf(ref));
      o := Fam(TagOf(ref)).Find(ref);
    }

    /** The first part of dodag_add_node: a node that names another DODAG leaves it, and that DODAG is found. */
    method LeavePrevious(d: DodagId, node: Obj)
      requires Valid() && Good(View()) && Known(View(), DodagRef(d)) && Holds(node) && node.ref.NodeRef?
      modifies repr
      ensures Valid() && Good(View()) && fresh(repr - old(repr))
      ensures var s, mac := old(View()), node.ref.mac;
              var prev := DodagOf(s, mac);
              View() == if prev.Some? && prev.value != d then DelNode(s, prev.value, mac) else s
      ensures forall x: Obj {:trigger Holds(x)} :: old(allocated(x)) && old(Holds(x)) ==> Holds(x)
    {
      hide Valid, Good, View, DelNode;
      RowOfObject(node);
      AddNodeGood(View(), d, node.ref.mac);
      var prev := node.fields.dodag;
      if prev.Some? && prev.value != d {
        var previous := FindObject(DodagRef(prev.value));
        LeaveGood(View(), prev.value, node.ref.mac);
        DelNodeFrom(previous, node);
      }
    }

    /** dodag_add_node. Its assertion, that a node in the member list names this DODAG, holds. */
    method AddNodeTo(dodag: Obj, node: Obj)
      requires Valid() && Good(View()) && Holds(dodag) && Holds(node) && dodag.ref.DodagRef? && node.ref.NodeRef?
      modifies repr
      ensures Valid() && Good(View()) && View() == AddNode(old(View()), dodag.ref.dodag, node.ref.mac) && fresh(repr - old(repr))
      ensures forall x: Obj {:trigger Holds(x)} :: old(allocated(x)) && old(Holds(x)) ==> Holds(x)
    {
      hide Valid, Good, View, DelNode, SetDodag, Touch;
      var d, mac := dodag.ref.dodag, node.ref.mac;
      RowOfObject(dodag);
      RowOfObject(node);
      AddNodeGood(View(), d, mac);
      LeavePrevious(d, node);
      PutNodeInto(dodag, node);
    }

    /** The rest of it. */
    method PutNodeInto(dodag: Obj, node: Obj)
      requires Valid() && Good(View()) && Holds(dodag) && Holds(node) && dodag.ref.DodagRef? && node.ref.NodeRef?
      modifies repr
      ensures Valid() && fresh(repr - old(repr))
      ensures var s, d, mac := old(View()), dodag.ref.dodag, node.ref.mac;
              var c := ContentOf(s, DodagRef(d));
              View() == if c.Dodag? && mac !in c.members then
                          Touch(SetDodag(s, mac, Some(d)), DodagRef(d), c.(members := c.members + [mac]))
                        else s
      ensures forall x: Obj {:trigger Holds(x)} :: old(allocated(x)) && old(Holds(x)) ==> Holds(x)
    {
      hide Good, SetDodag, Touch, Mark, NetworkState.Write, Family.Valid;
      ghost var s, c := View(), dodag.content;
      var d, mac := dodag.ref.dodag, node.ref.mac;
      RowOfObject(dodag);
      RowOfObject(node);
      if mac in c.members {
        MemberIsKnown(s, mac, d);
      }
      SetDodagAround(s, d, Edited(c, PutMember(mac)), mac, Some(d));
      var wasThere := Write(dodag, PutMember(mac));
      if !wasThere {
        SetNodeDodag(node, Some(d));
        SetChanged(dodag);
      } else {
        WriteSame(s, dodag.ref);
        assert Number(Nodes) != Number(Dodags);
        assert node.fields.dodag == Some(d);
      }
    }

    lemma {:induction false} SetInstanceAround(s: State, id: nat, c: Content, d: DodagId)
      requires AllUnique(s) && Known(s, InstanceRef(id))
      ensures Mark(SetInstance(NetworkState.Write(s, InstanceRef(id), c), d, id), InstanceRef(id))
              == Touch(SetInstance(s, d, id), InstanceRef(id), c)
    {
      var n := ContentOf(s, DodagRef(d));
      WriteTouch(s, InstanceRef(id), c, DodagRef(d), n);
      if n.Dodag? && n.instance != Some(id) {
        SetAround(s, InstanceRef(id), c, DodagRef(d), n.(instance := Some(id)));
      } else {
        MarkWritten(s, InstanceRef(id), c);
      }
    }

    /** dodag_set_rpl_instance. */
    method SetInstanceOf(dodag: Obj, id: nat)
      requires Valid() && Holds(dodag) && dodag.ref.DodagRef?
      modifies repr
      ensures Valid() && View() == SetInstance(old(View()), dodag.ref.dodag, id) && fresh(repr - old(repr))
      ensures forall x: Obj {:trigger Holds(x)} :: old(allocated(x)) && old(Holds(x)) ==> Holds(x)
    {
      RowOfObject(dodag);
      if dodag.fields.instance != Some(id) {
        Change(dodag, DodagFields(Some(id)));
      }
    }

    /** rpl_instance_add_dodag. */
    method AddDodagTo(instance: Obj, dodag: Obj)
      requires Valid() && Good(View()) && Holds(instance) && Holds(dodag) && instance.ref.InstanceRef? && dodag.ref.DodagRef?
      modifies repr
      ensures Valid() && Good(View()) && View() == AddDodag(old(View()), instance.ref.id, dodag.ref.dodag)
      ensures fresh(repr - old(repr))
      ensures forall x: Obj {:trigger Holds(x)} :: old(allocated(x)) && old(Holds(x)) ==> Holds(x)
    {
      hide Good, SetInstance, Touch, Mark, NetworkState.Write, Family.Valid;
      ghost var s, c := View(), instance.content;
      var d, id := dodag.ref.dodag, instance.ref.id;
      InstanceGood(s, id, d, 0);
      RowOfObject(instance);
      SetInstanceAround(s, id, Edited(c, PutDodag(d)), d);
      var wasThere := Write(instance, PutDodag(d));
      if !wasThere {
        SetInstanceOf(dodag, id);
        SetChanged(instance);
      } else {
        WriteSame(s, instance.ref);
      }
    }

    /** rpl_instance_set_mop. */
    method SetMopOf(instance: Obj, mop: nat)
      requires Valid() && Good(View()) && Holds(instance) && instance.ref.InstanceRef?
      modifies repr
      ensures Valid() && Good(View()) && View() == SetMop(old(View()), instance.ref.id, mop) && fresh(repr - old(repr))
      ensures forall x: Obj {:trigger Holds(x)} :: old(allocated(x)) && old(Holds(x)) ==> Holds(x)
    {
      InstanceGood(View(), instance.ref.id, DodagId(Ip(0, 0, 0, 0), 0), mop);
      RowOfObject(instance);
      if instance.fields.mop != mop {
        Change(instance, InstanceFields(mop));
      }
    }

    /** The member that an iterator over the container of a DODAG stands at. */
    lemma {:induction false} MemberAt(dodag: Obj, it: H.Iterator)
      requires Valid() && Holds(dodag) && dodag.ref.DodagRef? && it.On() && it.container == dodag.members
      ensures dodag.content.Dodag? && it.pos <= |dodag.content.members|
      ensures it.current == null <==> it.pos == |dodag.content.members|
      ensures it.current != null ==> it.current.key == MacKey(dodag.content.members[it.pos])
    {
      RowOfObject(dodag);
      assert FamOk(Dodags) && Stored(dodag, dodags.cells);
      assert dodag.Real();
      if it.pos < |dodag.content.members| {
        it.container.table.AtPlace(it.pos);
      }
    }

    /** dodag_set_nodes_changed. Its assertions, that every member is a known node and names this DODAG, hold. */
    method SetNodesChanged(dodag: Obj, flagged: set<Mac>)
      requires Valid() && Good(View()) && Holds(dodag) && dodag.ref.DodagRef?
      modifies repr
      ensures Valid() && Good(View()) && fresh(repr - old(repr))
      ensures var m := MembersOf(old(View()), dodag.ref.dodag); View() == FlagMembers(old(View()), m, flagged, |m|)
    {
      hide *;
      ghost var s, d, members := View(), dodag.ref.dodag, MembersOf(View(), dodag.ref.dodag);
      var it := BeginMembers(dodag);
      FlagNone(s, members, flagged);
      while it.current != null
        invariant fresh(it) && it !in repr && it.container == dodag.members && it.On() && Holds(dodag)
        invariant it.pos <= |members| && (it.current == null <==> it.pos == |members|)
        invariant Valid() && Good(View()) && fresh(repr - old(repr)) && MembersOf(View(), d) == members
        invariant View() == FlagMembers(s, members, flagged, it.pos)
        decreases |members| - it.pos
      {
        FlagOneMore(s, members, flagged, it.pos);
        FlagAt(dodag, it, flagged);
        Advance(dodag, it);
      }
    }

    lemma {:induction false} FlagNone(s: State, members: seq<Mac>, flagged: set<Mac>)
      ensures FlagMembers(s, members, flagged, 0) == s
    {
    }

    lemma {:induction false} FlagOneMore(s: State, members: seq<Mac>, flagged: set<Mac>, n: nat)
      requires n < |members|
      ensures FlagMembers(s, members, flagged, n + 1)
              == EditErrorsIf(members[n] in flagged, FlagMembers(s, members, flagged, n), members[n], ConfigMismatch)
    {
    }

    /** hash_begin on the container of a DODAG. */
    method BeginMembers(dodag: Obj) returns (it: H.Iterator)
      requires Valid() && Holds(dodag) && dodag.ref.DodagRef?
      ensures fresh(it) && it !in repr && it.container == dodag.members && it.On() && it.pos == 0 && dodag.members != null
      ensures Valid() && View() == old(View())
      ensures it.current == null <==> |MembersOf(View(), dodag.ref.dodag)| == 0
    {
      RowOfObject(dodag);
      assert FamOk(Dodags) && Stored(dodag, dodags.cells);
      it := new H.Iterator(dodag.members);
      MemberAt(dodag, it);
    }

    /** The step of the iterator leaves the store alone. */
    method Advance(dodag: Obj, it: H.Iterator)
      requires Valid() && Holds(dodag) && dodag.ref.DodagRef?
      requires it !in repr && it.container == dodag.members && it.On() && it.current != null
      modifies it
      ensures Valid() && View() == old(View()) && Holds(dodag) && it.On() && it.pos == old(it.pos) + 1
      ensures var n := |MembersOf(View(), dodag.ref.dodag)|; it.pos <= n && (it.current == null <==> it.pos == n)
    {
      hide H.Iterator.On, Good, View;
      Outside(it);
      it.Inc();
      MemberAt(dodag, it);
      RowOfObject(dodag);
    }

    /** The body of its loop, up to the step of the iterator. */
    method FlagAt(dodag: Obj, it: H.Iterator, flagged: set<Mac>)
      requires Valid() && Good(View()) && Holds(dodag) && dodag.ref.DodagRef?
      requires it !in repr && it.container == dodag.members && it.On() && it.current != null
      modifies repr
      ensures Valid() && Good(View()) && fresh(repr - old(repr)) && Holds(dodag) && it.On() && it !in repr
      ensures MembersOf(View(), dodag.ref.dodag) == MembersOf(old(View()), dodag.ref.dodag)
      ensures var m := MembersOf(old(View()), dodag.ref.dodag);
              it.pos < |m| && View() == EditErrorsIf(m[it.pos] in flagged, old(View()), m[it.pos], ConfigMismatch)
    {
      MemberAt(dodag, it);
      RowOfObject(dodag);
      ghost var foot, d := Foot(Dodags), dodag.ref.dodag;
      assert FamOk(Dodags) && Stored(dodag, dodags.cells) && dodag.Real();
      var mac := MacOf(it.current.key);
      MacOfKey(dodag.content.members[it.pos]);
      MemberIsKnown(View(), mac, d);
      assert Number(Dodags) != Number(Nodes);
      FlagNode(mac, Some(d), mac in flagged);
      RowOfObject(dodag);
    }

    /** What it does with the member. */
    method FlagNode(mac: Mac, ghost d: Option<DodagId>, cond: bool)
      requires Valid() && Good(View()) && Known(View(), NodeRef(mac)) && DodagOf(View(), mac) == d
      modifies repr
      ensures forall u: Tag {:trigger Number(u)} :: Number(u) != Number(Nodes) ==> unchanged(old(Foot(u)))
      ensures Valid() && Good(View()) && fresh(repr - old(repr))
      ensures View() == EditErrorsIf(cond, old(View()), mac, ConfigMismatch)
    {
      var node := FindObject(NodeRef(mac));
      assert node != null;
      RowOfObject(node);
      assert node.fields.dodag == d;
      CountErrorIf(cond, node, ConfigMismatch);
    }

    // ---- links

    /** The body of the loop of links_deprecate_all_from. */
    method DeprecateOne(link: Obj, child: Mac, parent: Mac)
      requires Valid() && Holds(link) && link.ref.LinkRef?
      modifies repr
      ensures Valid() && fresh(repr - old(repr))
      ensures View() == if link.ref.child == child && link.ref.parent != parent then Touch(old(View()), link.ref, Link(true))
                        else old(View())
      ensures forall t: Tag {:trigger Fam(t)} :: Fam(t).working == old(Fam(t).working)
      ensures forall x: Obj {:trigger Holds(x)} :: old(allocated(x)) && old(Holds(x)) ==> Holds(x)
    {
      hide Valid, View, Touch;
      RowOfObject(link);
      if link.ref.child == child && link.ref.parent != parent {
        Change(link, LinkFields(true));
      }
    }

    /** links_deprecate_all_from. */
    method DeprecateAllFrom(child: Mac, parent: Mac)
      requires Valid() && Good(View())
      modifies repr
      ensures Valid() && Good(View()) && View() == Deprecate(old(View()), child, parent, |old(View()).links.rows|)
      ensures fresh(repr - old(repr))
      ensures forall x: Obj {:trigger Holds(x)} :: old(allocated(x)) && old(Holds(x)) ==> Holds(x)
    {
      hide Valid, Good, View, Touch;
      ghost var s := View();
      WorkingLength(Links);
      ghost var w := Fam(Links).working;
      forall j: nat | j < |w| ensures w[j].ref == s.links.rows[j].ref && w[j].ref.LinkRef? && Holds(w[j]) {
        WorkingAt(Links, j);
      }
      var i := 0;
      while i < |links.working|
        invariant Fam(Links).working == w && i <= |w| == |s.links.rows|
        invariant Valid() && fresh(repr - old(repr)) && View() == Deprecate(s, child, parent, i)
        invariant forall x: Obj {:trigger Holds(x)} :: old(allocated(x)) && old(Holds(x)) ==> Holds(x)
      {
        DeprecateOne(links.working[i], child, parent);
        i := i + 1;
      }
      DeprecateGood(s, child, parent, i);
    }

    /** link_update. */
    method UpdateLinkOf(link: Obj)
      requires Valid() && Inv(View()) && Holds(link) && link.ref.LinkRef?
      modifies repr
      ensures Valid() && View() == UpdateLink(old(View()), link.ref) && fresh(repr - old(repr))
      ensures forall x: Obj {:trigger Holds(x)} :: old(allocated(x)) && old(Holds(x)) ==> Holds(x)
    {
      CountPacket(link);
      RowOfObject(link);
      if link.fields == LinkFields(true) {
        Change(link, LinkFields(false));
      }
    }

    method RefreshLinkOf(child: Mac, parent: Mac, onePreferredParent: bool)
      requires Valid() && Good(View())
      modifies repr
      ensures Valid() && Good(View()) && View() == RefreshLink(old(View()), child, parent, onePreferredParent)
      ensures fresh(repr - old(repr))
      ensures forall x: Obj {:trigger Holds(x)} :: old(allocated(x)) && old(Holds(x)) ==> Holds(x)
    {
      hide Valid, View, Get, Deprecate, UpdateLink;
      RefreshGood(View(), child, parent, onePreferredParent);
      var link := GetGoodObject(LinkRef(child, parent));
      if onePreferredParent {
        DeprecateAllFrom(child, parent);
      }
      UpdateLinkOf(link);
    }

    // ---- the packets

    method HasLoop(list: RouteList, ip: Ip) returns (b: bool)
      requires list.Valid()
      ensures b == HasRouteTo(list.routes, ip)
    {
      var route := list.head;
      ghost var i: nat := 0;
      while route != null
        invariant i <= |list.routes| && route == RouteLists.At(list.order, i)
        invariant forall j :: 0 <= j < i ==> list.routes[j].target.prefix != ip
        decreases |list.routes| - i
      {
        assert list.Linked(i);
        var c := CompareIp(route.target.prefix, ip);
        if c == 0 {
          return true;
        }
        route := route.next;
        i := i + 1;
      }
      return false;
    }

    /** The search of a child's routing table for a route to its parent. */
    method CheckLoop(child: Obj, parentIp: Ip)
      requires Valid() && Good(View()) && Holds(child) && child.ref.NodeRef?
      modifies repr
      ensures Valid() && Good(View()) && fresh(repr - old(repr))
      ensures var s := old(View()); View() == EditErrorsIf(HasRouteTo(RoutesOf(s, child.ref.mac), parentIp), s, child.ref.mac, RouteLoop)
      ensures forall x: Obj {:trigger Holds(x)} :: old(allocated(x)) && old(Holds(x)) ==> Holds(x)
    {
      RowOfObject(child);
      assert FamOk(Nodes) && Stored(child, nodes.cells);
      var loop := HasLoop(child.routes, parentIp);
      CountErrorIf(loop, child, RouteLoop);
    }

    /** Getting the source of a packet, counting the packet, and marking the node where its fields differ. */
    method SeenSource(mac: Mac, differs: bool) returns (o: Obj)
      requires Valid() && Good(View())
      modifies repr
      ensures Valid() && Good(View()) && fresh(repr - old(repr)) && Holds(o) && o.ref == NodeRef(mac)
      ensures View() == MarkIf(differs, Count(Get(old(View()), NodeRef(mac)), NodeRef(mac)), NodeRef(mac))
    {
      hide Valid, Good, View, Count, Get, MarkIf;
      o := SeenNode(mac);
      MarkIfDiffers(differs, o);
    }

    /** rpl_collector_parse_dis. */
    method CollectDis(p: Packet)
      requires p.Dis? && Valid() && Good(View())
      modifies repr
      ensures Valid() && Good(View()) && View() == ParseDis(old(View()), p) && fresh(repr - old(repr))
    {
      hide Valid, Good, View, Mark, Count, Get;
      var node := SeenSource(p.src, true);
    }

    /** The objects that a DIO is about, and the membership of the node. */
    method CollectDioJoin(p: Packet) returns (instance: Obj, dodag: Obj, node: Obj)
      requires p.Dio? && Valid() && Good(View())
      modifies repr
      ensures Valid() && Good(View()) && View() == DioJoin(old(View()), p) && fresh(repr - old(repr))
      ensures Holds(instance) && instance.ref == InstanceRef(p.instance) && Holds(dodag) && dodag.ref == DodagRef(p.dodag)
      ensures Holds(node) && node.ref == NodeRef(p.src)
    {
      hide Valid, Good, View, AddNode, Get;
      instance := GetGoodObject(InstanceRef(p.instance));
      dodag := GetGoodObject(DodagRef(p.dodag));
      node := GetGoodObject(NodeRef(p.src));
      AddNodeTo(dodag, node);
    }

    method CollectDioRoot(p: Packet, instance: Obj, dodag: Obj)
      requires p.Dio? && Valid() && Good(View())
      requires Holds(instance) && instance.ref == InstanceRef(p.instance) && Holds(dodag) && dodag.ref == DodagRef(p.dodag)
      modifies repr
      ensures Valid() && Good(View()) && View() == DioRoot(old(View()), p) && fresh(repr - old(repr))
      ensures forall x: Obj {:trigger Holds(x)} :: old(allocated(x)) && old(Holds(x)) ==> Holds(x)
    {
      hide Valid, Good, View, AddDodag, SetMop, MarkIf;
      if FromRoot(p) {
        AddDodagTo(instance, dodag);
        SetMopOf(instance, p.mop);
        MarkIfDiffers(p.dodagDiffers, dodag);
      }
    }

    method CollectDioNode(p: Packet, node: Obj)
      requires p.Dio? && Valid() && Good(View()) && Holds(node) && node.ref == NodeRef(p.src)
      modifies repr
      ensures Valid() && Good(View()) && View() == DioNode(old(View()), p) && fresh(repr - old(repr))
      ensures forall x: Obj {:trigger Holds(x)} :: old(allocated(x)) && old(Holds(x)) ==> Holds(x)
    {
      hide Valid, View, Count, Mark, EditErrorsIf;
      CountGood(View(), node.ref);
      CountPacket(node);
      MarkIfDiffers(true, node);
      CountErrorIf(p.configDiffers, node, ConfigMismatch);
      CountErrorIf(p.prefixDiffers, node, ConfigMismatch);
    }

    /** All but the last step of a DIO. */
    method CollectDioObjects(p: Packet) returns (dodag: Obj)
      requires p.Dio? && Valid() && Good(View())
      modifies repr
      ensures Valid() && Good(View()) && View() == DioNode(DioRoot(DioJoin(old(View()), p), p), p) && fresh(repr - old(repr))
      ensures Holds(dodag) && dodag.ref == DodagRef(p.dodag)
    {
      hide *;
      var instance, node;
      instance, dodag, node := CollectDioJoin(p);
      CollectDioRoot(p, instance, dodag);
      CollectDioNode(p, node);
    }

    /** rpl_collector_parse_dio. */
    method CollectDio(p: Packet)
      requires p.Dio? && Valid() && Good(View())
      modifies repr
      ensures Valid() && Good(View()) && View() == ParseDio(old(View()), p) && fresh(repr - old(repr))
    {
      hide Valid, Good, FlagMembers, DioNode, DioRoot, DioJoin;
      var dodag := CollectDioObjects(p);
      if FromRoot(p) {
        SetNodesChanged(dodag, p.flagged);
      }
    }

    /** The comparison of the DODAG of a DAO with that of its destination. */
    method CheckDodag(p: Packet, child: Obj, parent: Obj) returns (mismatch: bool)
      requires p.Dao? && Valid() && Good(View())
      requires Holds(child) && child.ref == NodeRef(p.src) && Holds(parent) && parent.ref == NodeRef(p.dst)
      ensures mismatch <==> p.dodagIp.Some? && DodagOf(View(), p.src).Some? && DodagOf(View(), p.dst).Some?
                            && DodagOf(View(), p.dst).value.ip != p.dodagIp.value
    {
      RowOfObject(child);
      RowOfObject(parent);
      mismatch := false;
      if p.dodagIp.Some? && child.fields.dodag.Some? && parent.fields.dodag.Some? {
        var c := CompareIp(p.dodagIp.value, parent.fields.dodag.value.ip);
        mismatch := c != 0;
      }
    }

    method CollectDaoObjects(p: Packet) returns (child: Obj, parent: Obj)
      requires p.Dao? && Valid() && Good(View())
      modifies repr
      ensures Valid() && Good(View()) && View() == DaoObjects(old(View()), p) && fresh(repr - old(repr))
      ensures Holds(child) && child.ref == NodeRef(p.src) && Holds(parent) && parent.ref == NodeRef(p.dst)
    {
      hide Valid, Good, View, Count, MarkIf, Get, EditErrorsIf;
      child := SeenSource(p.src, p.ipDiffers);
      parent := GetGoodObject(NodeRef(p.dst));
      var _ := GetGoodObject(InstanceRef(p.instance));
      CountErrorIf(p.ipMismatch, child, IpMismatch);
    }

    /** The first part of rpl_collector_parse_dao. */
    method CollectDaoNodes(p: Packet) returns (child: Obj, parent: Obj)
      requires p.Dao? && Valid() && Good(View())
      modifies repr
      ensures Valid() && Good(View()) && View() == DaoNodes(old(View()), p) && fresh(repr - old(repr))
      ensures Holds(child) && child.ref == NodeRef(p.src) && Holds(parent) && parent.ref == NodeRef(p.dst)
    {
      hide Good, View, DaoObjects, EditErrorsIf, DodagOf;
      child, parent := CollectDaoObjects(p);
      var mismatch := CheckDodag(p, child, parent);
      CountErrorIf(mismatch, child, DodagMismatch);
    }

    /** rpldata_del_link, where there is such a link, and the event that follows it. */
    method DropLink(ref: Ref)
      requires Valid() && Good(View()) && ref.LinkRef? && Idle(View(), ref)
      modifies repr
      ensures Valid() && Good(View()) && View() == Drop(old(View()), ref) && fresh(repr - old(repr))
      ensures forall x: Obj {:trigger Holds(x)} :: old(allocated(x)) && old(Holds(x)) && x.ref.NodeRef? ==> Holds(x)
    {
      hide Good, View;
      DropLinkGood(View(), ref);
      var link := FindObject(ref);
      if link != null {
        DropObject(link);
      }
    }

    /** The link part of rpl_collector_parse_dao. */
    method CollectDaoLink(p: Packet, child: Obj, onePreferredParent: bool)
      requires p.Dao? && Valid() && Good(View()) && Idle(View(), LinkRef(p.src, p.dst))
      requires Holds(child) && child.ref == NodeRef(p.src)
      modifies repr
      ensures Valid() && Good(View()) && View() == DaoLink(old(View()), p, onePreferredParent) && fresh(repr - old(repr))
      ensures forall x: Obj {:trigger Holds(x)} :: old(allocated(x)) && old(Holds(x)) && x.ref.NodeRef? ==> Holds(x)
    {
      hide Good, View, RefreshLink, EditErrorsIf, Drop, RoutesOf, HasRouteTo, SamePrefix;
      if p.lifetime.Some? && p.lifetime.value > 0 {
        RefreshLinkOf(p.src, p.dst, onePreferredParent);
        CheckLoop(child, p.parentIp);
      } else if p.lifetime.Some? && p.target.Some? {
        var c := CompareIpLen(p.childIp, p.target.value.1, p.target.value.0);
        if c == 0 {
          DropLink(LinkRef(p.src, p.dst));
        }
      }
    }

    /** A DAO for the child's own address updates the child. */
    method MarkIfSame(a: Ip, b: Ip, child: Obj)
      requires Valid() && Good(View()) && Holds(child)
      modifies repr
      ensures Valid() && Good(View()) && View() == MarkIf(a == b, old(View()), child.ref) && fresh(repr - old(repr))
    {
      hide Good, View, MarkIf;
      var c := CompareIp(a, b);
      MarkIfDiffers(c == 0, child);
    }

    /** The routing part of rpl_collector_parse_dao. */
    method CollectDaoRoute(p: Packet, child: Obj, parent: Obj)
      requires p.Dao? && Valid() && Good(View())
      requires Holds(child) && child.ref == NodeRef(p.src) && Holds(parent) && parent.ref == NodeRef(p.dst)
      modifies repr
      ensures Valid() && Good(View()) && View() == DaoRoute(old(View()), p) && fresh(repr - old(repr))
    {
      hide Valid, Good, View, AddNodeRoute, DelNodeRoute, MarkIf;
      if p.lifetime.Some? && p.target.Some? {
        var t := Target(p.target.value.0, p.target.value.1, p.lifetime.value);
        if p.lifetime.value > 0 {
          AddRouteTo(parent, t, p.src);
        } else {
          DelRouteFrom(parent, t, p.src);
        }
        MarkIfSame(p.target.value.1, p.childIp, child);
      }
    }

    /** rpl_collector_parse_dao. */
    method CollectDao(p: Packet, onePreferredParent: bool)
      requires p.Dao? && Valid() && Good(View()) && LinksIdle(View())
      modifies repr
      ensures Valid() && Good(View()) && View() == ParseDao(old(View()), p, onePreferredParent) && fresh(repr - old(repr))
    {
      hide Valid, Good, View, DaoNodes, DaoLink, DaoRoute;
      var child, parent := CollectDaoNodes(p);
      CollectDaoLink(p, child, onePreferredParent);
      CollectDaoRoute(p, child, parent);
    }

    method CollectDataNodes(p: Packet) returns (src: Obj, dst: Obj?)
      requires p.Data? && Valid() && Good(View())
      modifies repr
      ensures Valid() && Good(View()) && View() == DataNodes(old(View()), p) && fresh(repr - old(repr))
      ensures Holds(src) && src.ref == NodeRef(p.src)
      ensures dst == null <==> p.dst == 0 || p.dst == BROADCAST
      ensures dst != null ==> Holds(dst) && dst.ref == NodeRef(p.dst)
    {
      hide Valid, Good, View, Count, MarkIf, Get, EditErrorsIf, Mark;
      src := SeenSource(p.src, p.differs);
      dst := null;
      if p.dst != 0 && p.dst != BROADCAST {
        dst := GetGoodObject(NodeRef(p.dst));
        if p.hop.Some? {
          CountErrorIf(p.hop.value.rankError, src, Rank);
          CountErrorIf(p.hop.value.forwardingError, src, Forward);
        }
      }
    }

    method CollectDataUpward(p: Packet, src: Obj, dst: Obj, onePreferredParent: bool)
      requires p.Data? && p.hop.Some? && Valid() && Good(View())
      requires Holds(src) && src.ref == NodeRef(p.src) && Holds(dst) && dst.ref == NodeRef(p.dst)
      modifies repr
      ensures Valid() && Good(View()) && View() == DataUpward(old(View()), p, onePreferredParent) && fresh(repr - old(repr))
    {
      hide Valid, Good, View, RefreshLink, AddNodeRoute, EditErrorsIf, RoutesOf, HasRouteTo;
      RefreshLinkOf(p.src, p.dst, onePreferredParent);
      AddRouteTo(dst, Target(128, p.srcIp, 0), p.src);
      CheckLoop(src, p.parentIp);
      CountErrorIf(p.dstRank.Some? && p.hop.value.senderRank < p.dstRank.value, src, Upward);
    }

    /** rpl_collector_parse_data. */
    method CollectData(p: Packet, onePreferredParent: bool)
      requires p.Data? && Valid() && Good(View())
      modifies repr
      ensures Valid() && Good(View()) && View() == ParseData(old(View()), p, onePreferredParent) && fresh(repr - old(repr))
    {
      hide Valid, Good, View, DataNodes, DataUpward, AddNodeRoute, EditErrorsIf;
      var src, dst := CollectDataNodes(p);
      if dst != null && p.hop.Some? {
        if p.hop.value.towardRoot {
          CollectDataUpward(p, src, dst, onePreferredParent);
        } else {
          AddRouteTo(src, Target(128, p.dstIp, 0), p.dst);
          CountErrorIf(p.dstRank.Some? && p.hop.value.senderRank > p.dstRank.value, src, Downward);
        }
      }
    }

    // ---- publishing

    /** rpldata_add_node_version and its siblings, on the store. */
    method AddVersionOf(t: Tag)
      requires Valid() && Fam(t).Ready()
      modifies repr
      ensures Valid() && fresh(repr - old(repr))
      ensures View() == WithK(old(View()), t, AddVersion(K(old(View()), t)))
    {
      hide NetworkState.K, View, AllUnique, OnlyKind, Family.Valid, Family.Ready, NetworkCommit.AddVersion;
      var f := Fam(t);
      ghost var s := WithK(View(), t, AddVersion(K(View(), t)));
      assert FamOk(t);
      VersionKinds(View(), t);
      KOfView(t);
      OthersApart(t);
      f.AddVersion();
      repr := repr + f.frozen + f.cells;
      Assemble(t, s);
    }

    lemma {:induction false} VersionKinds(s: State, t: Tag)
      requires AllUnique(s)
      ensures var s1 := WithK(s, t, AddVersion(K(s, t)));
              K(s1, t) == AddVersion(K(s, t)) && OnlyKind(s, s1, t, s.events)
    {
      var s1 := WithK(s, t, AddVersion(K(s, t)));
      FreezeUnique(K(s, t).rows);
      forall u: Tag ensures UniqueRefs(K(s1, u).rows) {
        assert UniqueRefs(K(s, u).rows);
      }
    }

    lemma {:induction false} ReadyForVersion(s: State, t: Tag)
      requires Valid() && KindOk(s, t) && K(View(), t) == K(s, t)
      ensures Fam(t).Ready()
    {
      KOfView(t);
      forall i: nat ensures Fam(t).SharedRow(i) {
        assert RowOk(K(s, t), t, s.events, i);
      }
    }

    /** The first loop of rpl_event_commit_changed_objects: one new snapshot for each kind of object with an event. */
    method AddVersions() returns (seen: set<Tag>)
      requires Valid() && Inv(View())
      modifies repr
      ensures Valid() && fresh(repr - old(repr))
      ensures forall t: Tag {:trigger K(View(), t)} :: K(View(), t) == PublishKind(old(View()), t)
      ensures forall t: Tag {:trigger HasEvent(old(View()).events, t)} :: t in seen <==> HasEvent(old(View()).events, t)
      ensures events == old(events) && wsn == old(wsn)
    {
      ghost var s := View();
      seen := {};
      var j := 0;
      while j < |events|
        invariant j <= |events| && Valid() && fresh(repr - old(repr)) && events == old(events) && wsn == old(wsn)
        invariant forall t: Tag {:trigger SeenUpTo(s, View(), seen, j, t)} :: SeenUpTo(s, View(), seen, j, t)
      {
        var e := events[j];
        ghost var seen0, before := seen, View();
        if !e.PacketSeen? && TagOf(e.ref) !in seen {
          assert SeenUpTo(s, View(), seen, j, TagOf(e.ref)) && KindOk(s, TagOf(e.ref));
          ReadyForVersion(s, TagOf(e.ref));
          AddVersionOf(TagOf(e.ref));
          seen := seen + {TagOf(e.ref)};
        }
        j := j + 1;
        assert s.events[..j] == s.events[..j - 1] + [e];
        forall t: Tag ensures SeenUpTo(s, View(), seen, j, t) {
          HasEventSnoc(s.events[..j - 1], e, t);
          assert SeenUpTo(s, before, seen0, j - 1, t);
        }
      }
      assert s.events[..j] == s.events;
      forall t: Tag ensures (t in seen <==> HasEvent(s.events, t)) && K(View(), t) == PublishKind(s, t) {
        assert SeenUpTo(s, View(), seen, j, t);
      }
    }

    /** The rest of the publishing: rpldata_wsn_create_version, where something happened. */
    method PublishChanges()
      requires Valid() && Inv(View())
      modifies repr
      ensures Valid() && View() == Publish(old(View())) && fresh(repr - old(repr))
    {
      hide Valid, View, Inv, SomethingHappened, PublishKind, VersionsNow, HasEvent;
      ghost var s := View();
      KOfView(Nodes);
      var seen := AddVersions();
      HappenedIff(s, seen);
      if seen != {} {
        var now := [Versions(|nodes.snapshots|, |dodags.snapshots|, |instances.snapshots|, |links.snapshots|)];
        SnapshotCounts(s);
        SetVersions(wsn + now);
      }
      KOfView(Nodes);
      KindsOfPublish(s, View());
    }

    /** The version numbers that the kinds have reached. */
    lemma {:induction false} SnapshotCounts(s: State)
      requires Valid() && forall t: Tag {:trigger K(View(), t)} :: K(View(), t) == PublishKind(s, t)
      ensures VersionsNow(s.(nodes := PublishKind(s, Nodes), dodags := PublishKind(s, Dodags),
                             instances := PublishKind(s, Instances), links := PublishKind(s, Links)))
              == Versions(|nodes.snapshots|, |dodags.snapshots|, |instances.snapshots|, |links.snapshots|)
    {
      hide PublishKind;
      assert FamOk(Nodes) && FamOk(Dodags) && FamOk(Instances) && FamOk(Links);
      assert K(View(), Nodes) == nodes.view && K(View(), Dodags) == dodags.view;
      assert K(View(), Instances) == instances.view && K(View(), Links) == links.view;
    }

    lemma {:induction false} KindsOfPublish(s: State, now: State)
      requires forall t: Tag {:trigger K(now, t)} :: K(now, t) == PublishKind(s, t)
      requires now.events == s.events && now.wsn == Publish(s).wsn
      ensures now == Publish(s)
    {
      hide PublishKind, SomethingHappened, VersionsNow;
      assert K(now, Nodes) == now.nodes && K(now, Dodags) == now.dodags;
      assert K(now, Instances) == now.instances && K(now, Links) == now.links;
    }

    lemma {:induction false} HappenedIff(s: State, seen: set<Tag>)
      requires forall t: Tag {:trigger HasEvent(s.events, t)} :: t in seen <==> HasEvent(s.events, t)
      ensures SomethingHappened(s) <==> seen != {}
    {
      if seen != {} {
        var t: Tag :| t in seen;
        assert HasEvent(s.events, t);
      }
    }

    /** The container of an abstract one has the object that a lookup finds. */
    lemma {:induction false} LookupMirrors(t: Tag, container: seq<Obj>, f: seq<Frozen>, ref: Ref)
      requires Mirrors(t, container, f) && UniqueFrozen(f) && Lookup(f, ref).Some?
      ensures exists i: nat :: i < |container| && container[i].ref == ref
      ensures forall i: nat {:trigger container[i]} :: i < |container| && container[i].ref == ref ==>
                Lookup(f, ref) == Some(Frozen(container[i].ref, container[i].content))
    {
      var k: nat :| FrozenAt(f, ref, k);
      assert container[k].ref == ref;
      forall i: nat | i < |container| && container[i].ref == ref
        ensures Lookup(f, ref) == Some(Frozen(container[i].ref, container[i].content))
      {
        LookupIs(f, ref, i);
      }
    }

    lemma {:induction false} VersionsOfQueue(s: State, es: seq<Event>)
      requires VersionsOk(s)
      ensures VersionsOk(s.(events := es))
    {
      forall t: Tag, w: nat ensures VersionOk(s.(events := es), t, w) {
        assert VersionOk(s, t, w);
      }
      forall t: Tag ensures K(s.(events := es), t) == K(s, t) {
      }
    }

    /** The lookup of rpl_event_process_events, whose result is dereferenced without a check: it succeeds. */
    method Resolve(e: Event, ghost s: State, ghost j: nat) returns (o: Obj)
      requires Valid() && Inv(s) && j < |s.events| && s.events[j] == e && !e.PacketSeen?
      requires View() == Publish(s).(events := events)
      ensures VersionsOk(Publish(s)) && Publish(s).wsn != []
      ensures Delivered(Publish(s), e) == Some(Frozen(o.ref, o.content))
      ensures Valid() && View() == old(View())
    {
      hide Inv, Publish, PublishKind;
      EventsResolve(s, j);
      PublishKeepsVersions(s);
      ghost var s1 := Publish(s);
      VersionsOfQueue(s1, events);
      var version := if e.Deleted? then |wsn| - 1 else |wsn|;
      assert ContainerAt(View(), version, TagOf(e.ref)) == EventContainer(s1, e);
      var found, container := ContainerOf(version, TagOf(e.ref));
      LookupMirrors(TagOf(e.ref), container, EventContainer(s1, e).value, e.ref);
      var copy, i := FindIn(container, e.ref);
      o := copy;
    }

    /** What the callback of an event is called with. */
    ghost predicate DeliveredOk(s: State, log: seq<Obj?>, j: nat)
      requires Inv(s)
      reads log
    {
      j < |log| && j < |s.events| ==>
        if s.events[j].PacketSeen? then log[j] == null
        else
          PublishKeepsVersions(s);
          Publish(s).wsn != [] && log[j] != null
          && Delivered(Publish(s), s.events[j]) == Some(Frozen(log[j].ref, log[j].content))
    }

    /** The object for the callback of the first queued event. */
    method Deliver(ghost s: State, ghost j: nat, ghost log: seq<Obj?>) returns (o: Obj?)
      requires Valid() && Inv(s) && View() == Publish(s).(events := events)
      requires events != [] && j < |s.events| && events[0] == s.events[j] && |log| == j
      requires forall i: nat {:trigger DeliveredOk(s, log, i)} :: DeliveredOk(s, log, i)
      ensures Valid() && View() == old(View())
      ensures forall i: nat {:trigger DeliveredOk(s, log + [o], i)} :: DeliveredOk(s, log + [o], i)
    {
      hide Valid, PublishKind;
      o := null;
      if !events[0].PacketSeen? {
        o := Resolve(events[0], s, j);
      }
      forall i: nat ensures DeliveredOk(s, log + [o], i) {
        assert DeliveredOk(s, log, i);
      }
    }

    /** rpl_event_process_events: every event is delivered, in order, with the object it is about. */
    method ProcessEvents(ghost s: State) returns (log: seq<Obj?>)
      requires Valid() && Inv(s) && View() == Publish(s)
      modifies this`events
      ensures Valid() && View() == Commit(s) && |log| == |s.events|
      ensures forall j: nat {:trigger DeliveredOk(s, log, j)} :: DeliveredOk(s, log, j)
    {
      hide Valid, Inv, PublishKind, Delivered;
      KOfView(Nodes);
      log := [];
      ghost var j := 0;
      while |events| > 0
        invariant j <= |s.events| && events == s.events[j..] && |log| == j
        invariant Valid() && View() == Publish(s).(events := events)
        invariant forall i: nat {:trigger DeliveredOk(s, log, i)} :: DeliveredOk(s, log, i)
        decreases |events|
      {
        var o := Deliver(s, j, log);
        log := log + [o];
        SetEvents(events[1..]);
        j := j + 1;
      }
    }

    /** rpl_parser_end_packet: the packet event, the collector and rpl_event_commit_changed_objects. */
    method ReceivePacket(p: Packet, onePreferredParent: bool) returns (log: seq<Obj?>)
      requires Valid() && Between(View(), onePreferredParent)
      modifies repr
      ensures Valid() && View() == Receive(old(View()), p, onePreferredParent) && fresh(repr - old(repr))
      ensures Between(View(), onePreferredParent)
      ensures events == [] && forall t: Tag {:trigger Fam(t)} :: Settled(Fam(t).view)
      ensures var s := Parse(Queue(old(View()), PacketSeen), p, onePreferredParent);
              Inv(s) && |log| == |s.events| && forall j: nat {:trigger DeliveredOk(s, log, j)} :: DeliveredOk(s, log, j)
    {
      hide Valid, View, Inv, Publish, Commit, Parse, Queue, PublishKind, Settled, Delivered, LinksIdle, OneParent;
      ReceiveKeeps(View(), p, onePreferredParent);
      CollectPacket(p, onePreferredParent);
      ghost var s := View();
      PublishChanges();
      log := ProcessEvents(s);
      SettledNow(s);
    }

    /** After a commit every working object agrees with its copy in the newest snapshot (NetworkStore.Family.NewestAgrees). */
    lemma {:induction false} SettledNow(s: State)
      requires Inv(s) && View() == Commit(s)
      ensures events == [] && forall t: Tag {:trigger Fam(t)} :: Settled(Fam(t).view)
    {
      CommitSettles(s);
      forall t: Tag ensures Settled(Fam(t).view) {
        KOfView(t);
        assert K(s, t) == K(s, t);
      }
    }

    /** The packet event and the collector. */
    method CollectPacket(p: Packet, onePreferredParent: bool)
      requires Valid() && Good(View()) && LinksIdle(View())
      modifies repr
      ensures Valid() && Inv(View()) && fresh(repr - old(repr))
      ensures View() == Parse(Queue(old(View()), PacketSeen), p, onePreferredParent)
    {
      PacketEventGood(View());
      SetEvents(events + [PacketSeen]);
      Collect(p, onePreferredParent);
    }

    method Collect(p: Packet, onePreferredParent: bool)
      requires Valid() && Good(View()) && LinksIdle(View())
      modifies repr
      ensures Valid() && Good(View()) && View() == Parse(old(View()), p, onePreferredParent) && fresh(repr - old(repr))
    {
      hide Valid, Good, View, ParseDis, ParseDio, ParseDao, ParseData;
      match p
      case Dis(_) => CollectDis(p);
      case Dio(_, _, _, _, _, _, _, _, _, _) => CollectDio(p);
      case Dao(_, _, _, _, _, _, _, _, _, _) => CollectDao(p, onePreferredParent);
      case Data(_, _, _, _, _, _, _, _) => CollectData(p, onePreferredParent);
    }

    // ---- the user interface

    /** The body of the loop of nodes_clear_all_errors. */
    method ClearErrorsOf(node: Obj)
      requires Valid() && Holds(node) && node.ref.NodeRef?
      modifies repr
      ensures Valid() && fresh(repr - old(repr))
      ensures var c := ContentOf(old(View()), node.ref); c.Node? && View() == Touch(old(View()), node.ref, c.(errors := NO_ERRORS))
      ensures forall t: Tag {:trigger Fam(t)} :: Fam(t).working == old(Fam(t).working)
      ensures forall x: Obj {:trigger Holds(x)} :: old(allocated(x)) && old(Holds(x)) ==> Holds(x)
    {
      hide Valid, View, Touch, ContentOf;
      RowOfObject(node);
      Change(node, node.fields.(errors := NO_ERRORS));
    }

    /** nodes_clear_all_errors. */
    method ClearAllErrors(onePreferredParent: bool)
      requires Valid() && Between(View(), onePreferredParent)
      modifies repr
      ensures Valid() && Between(View(), onePreferredParent) && fresh(repr - old(repr))
      ensures View() == ClearErrors(old(View()), |old(View()).nodes.rows|)
    {
      hide Valid, View, Touch, Inv, OneParent, LinksIdle, ClearErrors;
      ghost var s := View();
      WorkingLength(Nodes);
      ghost var w := Fam(Nodes).working;
      forall j: nat | j < |w| ensures w[j].ref == s.nodes.rows[j].ref && w[j].ref.NodeRef? && Holds(w[j]) {
        WorkingAt(Nodes, j);
      }
      StepKeeps(s, CollectorRuns.ClearAllErrors, onePreferredParent);
      ClearErrorsNone(s);
      var i := 0;
      while i < |nodes.working|
        invariant Fam(Nodes).working == w && i <= |w| == |s.nodes.rows|
        invariant Valid() && Inv(View()) && fresh(repr - old(repr)) && View() == ClearErrors(s, i)
        invariant forall x: Obj {:trigger Holds(x)} :: old(allocated(x)) && old(Holds(x)) ==> Holds(x)
      {
        ClearErrorsGood(s, i + 1);
        ClearErrorsSnoc(s, i);
        ClearErrorsOf(nodes.working[i]);
        i := i + 1;
      }
    }

    /** links_clear_all_deprecated: each round searches from the beginning and removes the first deprecated link. */
    method ClearAllDeprecated(onePreferredParent: bool)
      requires Valid() && Between(View(), onePreferredParent)
      modifies repr
      ensures Valid() && Between(View(), onePreferredParent) && fresh(repr - old(repr))
      ensures AllUnique(old(View())) && View() == ClearLinks(old(View()))
    {
      hide Valid, Good, View, Drop, AllUnique, OneParent, LinksIdle;
      ghost var s := View();
      ClearLinksGood(s);
      var removed := true;
      while removed
        invariant Valid() && Good(View()) && LinksIdle(View()) && fresh(repr - old(repr))
        invariant AllUnique(View()) && ClearLinks(View()) == ClearLinks(s)
        invariant !removed ==> View() == ClearLinks(s)
        decreases |View().links.rows|, removed
      {
        if FirstDead(View().links.rows) < |View().links.rows| {
          ClearRound(View());
        }
        removed := RemoveFirstDeprecated();
      }
      StepKeeps(s, ClearDeprecated, onePreferredParent);
    }

    /** One round: the first deprecated link goes, if there is one. */
    method RemoveFirstDeprecated() returns (removed: bool)
      requires Valid() && Good(View()) && LinksIdle(View())
      modifies repr
      ensures Valid() && fresh(repr - old(repr))
      ensures removed <==> FirstDead(old(View()).links.rows) < |old(View()).links.rows|
      ensures if removed then View() == Drop(old(View()), old(View()).links.rows[FirstDead(old(View()).links.rows)].ref)
              else View() == old(View())
    {
      hide Good, Drop, OneParent, LinksIdle;
      ghost var s := View();
      ghost var rows := s.links.rows;
      removed := false;
      var i := 0;
      assert FamOk(Links);
      while i < |links.working|
        invariant i <= |links.working| == |rows| && View() == s && Valid() && fresh(repr - old(repr))
        invariant forall j :: 0 <= j < i ==> !Dead(rows[j])
      {
        var link := links.working[i];
        assert FamOk(Links) && links.WorkOk(i);
        RowOfObject(link);
        if link.fields == LinkFields(true) {
          FirstDeadIs(rows, i);
          DropObject(link);
          return true;
        }
        i := i + 1;
      }
    }
  }
}
