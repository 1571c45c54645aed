/**
 The containers behind the network state. The working objects are edited in place; a snapshot is a list of objects of
 which those that had not changed are shared with the snapshot before. The abstract snapshots are full copies: that
 sharing can be taken for copying is what the class here establishes. It rests on the copies being deep: no two objects
 share a cell, so an edit of a working object reaches no published one.
 */
module NetworkStore {
  import opened NetworkCommit
  import opened NetworkInvariant
  import opened NetworkObjects
  import opened NetworkState
  import opened Options
  import opened Sequences
  import OrderedMap

  /** Looking up an object in a container. */
  method FindIn(container: seq<Obj>, ref: Ref) returns (o: Obj?, i: nat)
    ensures o == null ==> forall j: nat :: j < |container| ==> container[j].ref != ref
    ensures o != null ==> i < |container| && container[i] == o && o.ref == ref
  {
    o, i := null, 0;
    while i < |container|
      invariant i <= |container|
      invariant forall j: nat :: j < i ==> container[j].ref != ref
    {
      if container[i].ref == ref {
        return container[i], i;
      }
      i := i + 1;
    }
  }

  /** The container has the object at one place and no other. */
  ghost predicate OnlyAt(container: seq<Obj>, ref: Ref, j: nat) {
    j < |container| && container[j].ref == ref && forall i: nat :: i < |container| && i != j ==> container[i].ref != ref
  }

  // ---- storage

  /** The object really is what it stands for, and its cells are among the given ones. */
  ghost predicate Stored(x: Obj, cs: set<object>)
    reads x`fields, x`content, x`cells, cs
  {
    x.cells <= cs && x.Real()
  }

  ghost predicate CellsApart(x: Obj, y: Obj)
    reads x`cells, y`cells
  {
    x != y ==> x.cells !! y.cells
  }

  /** No two of the objects share a cell, and none is one. */
  ghost predicate AllStored(objs: set<Obj>, cs: set<object>)
    reads objs`fields, objs`content, objs`cells, cs
  {
    && (forall x {:trigger x in objs} :: x in objs ==> x !in cs)
    && (forall x {:trigger Stored(x, cs)} :: x in objs ==> Stored(x, cs))
    && (forall x, y {:trigger CellsApart(x, y)} :: x in objs && y in objs ==> CellsApart(x, y))
  }

  lemma {:induction false} FewerStored(objs: set<Obj>, fewer: set<Obj>, cs: set<object>)
    requires AllStored(objs, cs) && fewer <= objs
    ensures AllStored(fewer, cs)
  {
    forall x | x in fewer ensures Stored(x, cs) {
    }
    forall x, y | x in fewer && y in fewer ensures CellsApart(x, y) {
    }
  }

  /** A new object has cells of its own. */
  twostate lemma NewStored(new objs: set<Obj>, new o: Obj, new cs: set<object>)
    requires old(allocated(objs)) && old(allocated(cs)) && old(AllStored(objs, cs)) && unchanged(objs`fields, objs`content, objs`cells, cs)
    requires fresh(o) && fresh(o.cells) && o.Real()
    ensures AllStored(objs + {o}, cs + o.cells)
  {
    forall x | x in objs + {o} ensures Stored(x, cs + o.cells) {
      if x in objs {
        assert old(Stored(x, cs));
      }
    }
    forall x, y | x in objs + {o} && y in objs + {o} ensures CellsApart(x, y) {
      assert x in objs ==> old(Stored(x, cs));
      assert y in objs ==> old(Stored(y, cs));
      assert x in objs && y in objs ==> old(CellsApart(x, y));
    }
  }

  /** An edit of one object leaves the cells of the others alone. */
  twostate lemma EditStored(new objs: set<Obj>, new o: Obj, new cs: set<object>)
    requires old(allocated(objs)) && old(allocated(cs)) && old(AllStored(objs, cs)) && o in objs
    requires unchanged(objs - {o}) && unchanged(cs - old(o.cells))
    requires o.Real() && old(o.cells) <= o.cells && fresh(o.cells - old(o.cells))
    ensures AllStored(objs, cs + o.cells)
  {
    assert old(Stored(o, cs));
    forall x | x in objs ensures x !in cs + o.cells {
      assert old(allocated(x));
    }
    forall x | x in objs ensures Stored(x, cs + o.cells) {
      assert old(Stored(x, cs)) && old(CellsApart(x, o)) && old(Stored(o, cs));
    }
    forall x, y | x in objs && y in objs ensures CellsApart(x, y) {
      assert old(CellsApart(x, y)) && old(Stored(x, cs)) && old(Stored(y, cs));
    }
  }

  /** One kind of object: the working container and the containers of the snapshots. */
  class Family {
    const tag: Tag
    const hash: OrderedMap.Key -> nat
    var working: seq<Obj>
    var snapshots: seq<seq<Obj>>
    ghost var live: set<Obj>
    ghost var frozen: set<Obj>
    /** The cells of all of them. */
    ghost var cells: set<object>
    ghost var view: Kind

    constructor (tag: Tag, hash: OrderedMap.Key -> nat)
      ensures Valid() && this.tag == tag && view == Kind([], []) && live == {} && frozen == {} && cells == {}
    {
      this.tag, this.hash := tag, hash;
      working, snapshots, live, frozen, cells, view := [], [], {}, {}, {}, Kind([], []);
    }

    // ---- the abstract state of the objects

    ghost predicate WorkOk(i: nat)
      reads this`working, this`live, this`view, live
    {
      i < |working| && i < |view.rows| ==>
        && working[i] in live && TagOf(working[i].ref) == tag
        && view.rows[i] == Row(working[i].ref, working[i].content, working[i].count, working[i].changed)
    }

    ghost predicate WorkingOk()
      reads this`working, this`live, this`view, live
    {
      && |working| == |view.rows|
      && (forall i: nat {:trigger WorkOk(i)} :: WorkOk(i))
      && (forall o {:trigger InWork(o)} :: o in live ==> InWork(o))
    }

    ghost predicate InWork(o: Obj)
      reads this`working
    {
      o in working
    }

    ghost predicate SnapOk(v: nat, i: nat)
      reads this`snapshots, this`frozen, this`view, frozen`content
    {
      v < |snapshots| && v < |view.history| ==>
        && |snapshots[v]| == |view.history[v]|
        && (i < |snapshots[v]| ==>
              snapshots[v][i] in frozen && view.history[v][i] == Frozen(snapshots[v][i].ref, snapshots[v][i].content))
    }

    ghost predicate SnapshotsOk()
      reads this`snapshots, this`frozen, this`view, frozen`content
    {
      && |snapshots| == |view.history|
      && (forall v: nat, i: nat {:trigger SnapOk(v, i)} :: SnapOk(v, i))
    }

    ghost function NewestObjs(): seq<Obj>
      reads this`snapshots
    {
      if snapshots == [] then [] else snapshots[|snapshots| - 1]
    }

    /** An object that has not changed has the packet counter of its copy in the newest snapshot. */
    ghost predicate CountOk(i: nat, j: nat)
      reads this`working, this`snapshots, this`live, this`frozen, live, frozen`count
    {
      i < |working| && j < |NewestObjs()| && working[i] in live && NewestObjs()[j] in frozen
      && working[i].ref == NewestObjs()[j].ref && !working[i].changed ==>
        working[i].count == NewestObjs()[j].count
    }

    ghost predicate CountsOk()
      reads this`working, this`snapshots, this`live, this`frozen, live, frozen`count
    {
      forall i: nat, j: nat {:trigger CountOk(i, j)} :: CountOk(i, j)
    }

    ghost predicate Valid()
      reads this, live, frozen, cells
    {
      && WorkingOk() && SnapshotsOk() && CountsOk() && live !! frozen
      && this !in cells && AllStored(live + frozen, cells)
    }

    lemma {:induction false} PlaceInWork(o: Obj) returns (i: nat)
      requires WorkingOk() && o in live
      ensures i < |working| && working[i] == o && RefAt(view.rows, o.ref, i)
      ensures view.rows[i] == Row(o.ref, o.content, o.count, o.changed)
    {
      assert InWork(o);
      i :| 0 <= i < |working| && working[i] == o;
      assert WorkOk(i);
    }

    /** The search of rpldata_get_object. */
    method Find(ref: Ref) returns (o: Obj?)
      requires Valid()
      ensures o == null <==> !Has(view.rows, ref)
      ensures o != null ==> o in live && o.ref == ref
    {
      var i;
      o, i := FindIn(working, ref);
      if o == null {
        forall j: nat ensures !RefAt(view.rows, ref, j) {
          assert WorkOk(j);
        }
      } else {
        assert WorkOk(i);
        assert RefAt(view.rows, ref, i);
      }
    }

    /** The creation in rpldata_get_object: a new object at the end of the working container, marked changed. */
    method Create(ref: Ref) returns (o: Obj)
      requires Valid() && TagOf(ref) == tag
      modifies this`working, this`live, this`cells, this`view
      ensures Valid() && fresh(o) && o.ref == ref && live == old(live) + {o}
      ensures fresh(cells - old(cells)) && old(cells) <= cells
      ensures view == old(view).(rows := old(view).rows + [Row(ref, Init(ref), 0, true)])
    {
      o := new Obj(ref, hash);
      NewStored(live + frozen, o, cells);
      Attach(o);
    }

    /** The object goes to the end of the working container. */
    method Attach(o: Obj)
      requires Valid() && o !in live + frozen && AllStored(live + frozen + {o}, cells + o.cells) && this !in o.cells
      requires TagOf(o.ref) == tag && o.content == Init(o.ref) && o.count == 0 && o.changed
      modifies this`working, this`live, this`cells, this`view
      ensures Valid() && live == old(live) + {o} && cells == old(cells) + o.cells
      ensures view == old(view).(rows := old(view).rows + [Row(o.ref, Init(o.ref), 0, true)])
    {
      working := working + [o];
      live := live + {o};
      cells := cells + o.cells;
      view := view.(rows := view.rows + [Row(o.ref, Init(o.ref), 0, true)]);
      assert live + frozen == old(live) + frozen + {o};
      forall i: nat ensures WorkOk(i) {
        assert old(WorkOk(i));
      }
      forall x | x in live ensures InWork(x) {
        assert working[|working| - 1] == o;
        assert x != o ==> old(InWork(x));
      }
      forall v: nat, i: nat ensures SnapOk(v, i) {
        assert old(SnapOk(v, i));
      }
      forall i: nat, j: nat ensures CountOk(i, j) {
        assert old(CountOk(i, j));
      }
    }

    /** A setter edits a working object, in its fields or in its cells. */
    method Edit(o: Obj, e: Edit) returns (found: bool)
      requires Valid() && UniqueRefs(view.rows) && o in live && Suits(o.content, e)
      modifies this`view, this`cells, o`fields, o`content, o`cells, o.cells
      ensures Valid() && Has(old(view).rows, o.ref) && fresh(cells - old(cells)) && old(cells) <= cells
      ensures found == WasThereFor(old(o.content), e) && o.content == Edited(old(o.content), e)
      ensures var p := PlaceOf(old(view).rows, o.ref);
              view == old(view).(rows := old(view).rows[p := old(view).rows[p].(content := Edited(old(o.content), e))])
    {
      hide Obj.Real, Edited, WasThereFor, Suits;
      ghost var p := PlaceInWork(o);
      PlaceIs(view.rows, o.ref, p);
      assert Stored(o, cells);
      found := o.Apply(e);
      EditStored(live + frozen, o, cells);
      cells := cells + o.cells;
      view := view.(rows := view.rows[p := view.rows[p].(content := o.content)]);
      forall i: nat ensures WorkOk(i) {
        assert old(WorkOk(i)) && RefsApart(old(view).rows, i, p) && RefsApart(old(view).rows, p, i);
      }
      forall x | x in live ensures InWork(x) {
        assert old(InWork(x));
      }
      forall v: nat, i: nat ensures SnapOk(v, i) {
        assert old(SnapOk(v, i));
      }
      forall i: nat, j: nat ensures CountOk(i, j) {
        assert old(CountOk(i, j));
      }
    }

    /** The flag that the set_changed functions set. */
    method SetChanged(o: Obj)
      requires Valid() && UniqueRefs(view.rows) && o in live
      modifies this`view, o`changed
      ensures Valid() && Has(old(view).rows, o.ref)
      ensures var p := PlaceOf(old(view).rows, o.ref);
              view == old(view).(rows := old(view).rows[p := old(view).rows[p].(changed := true)])
    {
      ghost var p := PlaceInWork(o);
      PlaceIs(view.rows, o.ref, p);
      assert o in live + frozen;
      o.changed := true;
      view := view.(rows := view.rows[p := view.rows[p].(changed := true)]);
      forall i: nat ensures WorkOk(i) {
        assert old(WorkOk(i)) && RefsApart(old(view).rows, i, p) && RefsApart(old(view).rows, p, i);
      }
      forall x | x in live ensures InWork(x) {
        assert old(InWork(x));
      }
      forall v: nat, i: nat ensures SnapOk(v, i) {
        assert old(SnapOk(v, i));
      }
      forall i: nat, j: nat ensures CountOk(i, j) {
        assert old(CountOk(i, j));
      }
    }

    /** node_update_old_field and link_update_old_field: the counter goes into the copy in the newest snapshot. */
    method Patch(o: Obj, container: seq<Obj>)
      requires container == NewestObjs() && o in live && live !! frozen
      requires forall j: nat {:trigger container[j]} :: j < |container| ==> container[j] in frozen
      modifies frozen`count
      ensures forall j: nat {:trigger container[j]} :: j < |container| && OnlyAt(container, o.ref, j) ==> container[j].count == o.count
      ensures forall x: Obj {:trigger x.count} :: x in frozen && x.ref != o.ref ==> x.count == old(x.count)
    {
      var copy, _ := FindIn(container, o.ref);
      if copy != null && copy != o {
        copy.count := o.count;
      }
    }

    /** One more packet for a working object, in the newest snapshot as well. */
    method AddCount(o: Obj, container: seq<Obj>)
      requires Valid() && UniqueRefs(view.rows) && UniqueFrozen(Newest(view)) && o in live && container == NewestObjs()
      modifies this`view, o`count, frozen`count
      ensures Valid() && Has(old(view).rows, o.ref)
      ensures var p := PlaceOf(old(view).rows, o.ref);
              view == old(view).(rows := old(view).rows[p := old(view).rows[p].(count := old(view).rows[p].count + 1)])
    {
      hide Obj.Real;
      ghost var p := PlaceInWork(o);
      PlaceIs(view.rows, o.ref, p);
      o.count := o.count + 1;
      forall j: nat | j < |container| ensures container[j] in frozen {
        assert SnapOk(|snapshots| - 1, j);
      }
      label L:
      Patch(o, container);
      view := view.(rows := view.rows[p := view.rows[p].(count := view.rows[p].count + 1)]);
      forall i: nat ensures WorkOk(i) {
        assert old(WorkOk(i)) && RefsApart(old(view).rows, i, p) && RefsApart(old(view).rows, p, i);
      }
      forall x | x in live ensures InWork(x) {
        assert old(InWork(x));
      }
      forall v: nat, i: nat ensures SnapOk(v, i) {
        assert old(SnapOk(v, i));
      }
      forall i: nat, j: nat ensures CountOk(i, j) {
        assert old(CountOk(i, j)) && old(WorkOk(i)) && RefsApart(old(view).rows, i, p) && RefsApart(old(view).rows, p, i);
        if i == p && j < |container| && container[j].ref == o.ref {
          OnlyCopy(o, j);
        }
      }
    }

    lemma {:induction false} OnlyCopy(o: Obj, j: nat)
      requires SnapshotsOk() && UniqueFrozen(Newest(view)) && j < |NewestObjs()| && NewestObjs()[j].ref == o.ref
      ensures OnlyAt(NewestObjs(), o.ref, j)
    {
      forall i: nat | i < |NewestObjs()| && i != j ensures NewestObjs()[i].ref != o.ref {
        assert SnapOk(|snapshots| - 1, i) && SnapOk(|snapshots| - 1, j);
        assert FrozenApart(Newest(view), i, j) && FrozenApart(Newest(view), j, i);
      }
    }

    /** Taking an object out of the working container. */
    method Remove(o: Obj)
      requires Valid() && UniqueRefs(view.rows) && o in live
      modifies this`working, this`live, this`view
      ensures Valid() && live == old(live) - {o} && Has(old(view).rows, o.ref)
      ensures view == old(view).(rows := RemoveAt(old(view).rows, PlaceOf(old(view).rows, o.ref)))
    {
      ghost var p := PlaceInWork(o);
      PlaceIs(view.rows, o.ref, p);
      var _, k := FindIn(working, o.ref);
      assert WorkOk(k) && RefsApart(view.rows, p, k) && RefsApart(view.rows, k, p);
      RemovePlace(k);
    }

    method RemovePlace(k: nat)
      requires Valid() && UniqueRefs(view.rows) && k < |working|
      modifies this`working, this`live, this`view
      ensures Valid() && live == old(live) - {old(working)[k]} && view == old(view).(rows := RemoveAt(old(view).rows, k))
    {
      ghost var o := working[k];
      assert WorkOk(k);
      working := working[..k] + working[k + 1..];
      live := live - {o};
      view := view.(rows := RemoveAt(view.rows, k));
      FewerStored(old(live) + frozen, live + frozen, cells);
      forall i: nat ensures WorkOk(i) {
        ghost var j := if i < k then i else i + 1;
        assert old(WorkOk(j)) && RefsApart(old(view).rows, j, k) && RefsApart(old(view).rows, k, j);
      }
      forall x | x in live ensures InWork(x) {
        assert old(InWork(x));
        ghost var j: nat :| j < |old(working)| && old(working)[j] == x;
        assert working[if j < k then j else j - 1] == x;
      }
      forall v: nat, i: nat ensures SnapOk(v, i) {
        assert old(SnapOk(v, i));
      }
      forall i: nat, j: nat ensures CountOk(i, j) {
        assert old(CountOk(if i < k then i else i + 1, j));
      }
    }

    // ---- a new snapshot

    ghost predicate SharedRow(i: nat)
      reads this`view
    {
      i < |view.rows| && !view.rows[i].changed ==> Shared(view, view.rows[i])
    }

    /** What a new snapshot needs: an object that has not changed is in the snapshot before, once and as it is. */
    ghost predicate Ready()
      reads this`view
    {
      UniqueRefs(view.rows) && UniqueFrozen(Newest(view)) && forall i: nat {:trigger SharedRow(i)} :: SharedRow(i)
    }

    /** Place i of the new container: an object with the fields and the counter of the working one. */
    ghost predicate Carried(next: seq<Obj>, fs: set<Obj>, i: nat)
      reads this`working, this`live, live, fs
    {
      i < |next| && i < |working| ==>
        && next[i] in fs && working[i] in live && next[i].ref == working[i].ref
        && next[i].content == working[i].content && next[i].count == working[i].count
    }

    /** A working object that the loop has still to deal with. */
    ghost predicate Waiting(i: nat)
      reads this`working, this`snapshots, this`live, this`frozen, this`view, live, frozen`count
    {
      i < |working| && i < |view.rows| ==>
        && working[i] in live
        && view.rows[i] == Row(working[i].ref, working[i].content, working[i].count, working[i].changed)
        && forall j: nat {:trigger CountOk(i, j)} :: CountOk(i, j)
    }

    /** The body of the loop of rpldata_add_node_version and its siblings: a changed object is copied and its flag
        cleared, any other is taken from the snapshot before. */
    method Carry(o: Obj, last: seq<Obj>, ghost i: nat) returns (copy: Obj)
      requires SnapshotsOk() && Ready() && |working| == |view.rows| && i < |working| && working[i] == o && Waiting(i)
      requires last == (if snapshots == [] then working else NewestObjs()) && o.Real()
      modifies o`changed
      ensures !o.changed && copy.ref == o.ref && copy.content == o.content && copy.count == o.count
      ensures if old(o.changed) then fresh(copy) && fresh(copy.cells) && copy.Real() else copy in frozen
    {
      if o.changed {
        o.changed := false;
        copy := o.Dup();
      } else {
        assert SharedRow(i);
        ghost var f: nat :| SharedAt(view, view.rows[i], f);
        assert SnapOk(|snapshots| - 1, f);
        var found, j := FindIn(last, o.ref);
        assert SnapOk(|snapshots| - 1, j) && CountOk(i, j);
        assert FrozenApart(Newest(view), f, j) && FrozenApart(Newest(view), j, f);
        copy := found;
      }
    }

    /** The same, for one place of the working container and with the storage so far. */
    method CarryInto(last: seq<Obj>, k: nat, ghost fs0: set<Obj>, ghost cs0: set<object>)
      returns (copy: Obj, ghost fs: set<Obj>, ghost cs: set<object>)
      requires SnapshotsOk() && Ready() && |working| == |view.rows| && k < |working| && Waiting(k)
      requires last == if snapshots == [] then working else NewestObjs()
      requires frozen <= fs0 && AllStored(live + fs0, cs0) && this !in cs0
      modifies live`changed
      ensures forall x: Obj {:trigger x.changed} :: x in live ==> x.changed == (old(x.changed) && x != working[k])
      ensures copy.ref == working[k].ref && copy.content == working[k].content && copy.count == working[k].count
      ensures fs == fs0 + {copy} && fresh(fs - fs0 - frozen) && cs0 <= cs && fresh(cs - cs0)
      ensures AllStored(live + fs, cs) && this !in cs
    {
      var o := working[k];
      assert Stored(o, cs0);
      copy := Carry(o, last, k);
      fs, cs := fs0 + {copy}, cs0;
      if copy in fs0 {
        assert live + fs == live + fs0;
      } else {
        NewStored(live + fs0, copy, cs);
        cs := cs + copy.cells;
        assert live + fs == live + fs0 + {copy};
      }
    }

    ghost predicate Cleared(i: nat)
      reads this`working, this`live, live
    {
      i < |working| ==> working[i] in live && !working[i].changed
    }

    /** rpldata_add_node_version and its siblings. */
    method AddVersion()
      requires Valid() && Ready()
      modifies this`snapshots, this`frozen, this`cells, this`view, live`changed
      ensures Valid() && view == NetworkCommit.AddVersion(old(view)) && fresh(frozen - old(frozen)) && old(frozen) <= frozen
      ensures fresh(cells - old(cells)) && old(cells) <= cells
    {
      var last := if snapshots == [] then working else snapshots[|snapshots| - 1];
      var next: seq<Obj>, k := [], 0;
      ghost var fs, cs := frozen, cells;
      forall i: nat ensures Waiting(i) {
        assert WorkOk(i);
      }
      while k < |working|
        invariant k <= |working| && |next| == k && snapshots == old(snapshots) && frozen == old(frozen) && view == old(view)
        invariant old(frozen) <= fs && fresh(fs - old(frozen)) && SnapshotsOk()
        invariant cells == old(cells) <= cs && fresh(cs - old(cells)) && this !in cs && AllStored(live + fs, cs)
        invariant forall i: nat {:trigger Waiting(i)} :: k <= i ==> Waiting(i)
        invariant forall i: nat {:trigger Cleared(i)} :: i < k ==> Cleared(i)
        invariant forall i: nat {:trigger Carried(next, fs, i)} :: Carried(next, fs, i)
      {
        assert Waiting(k);
        label L:
        ghost var next0, fs0 := next, fs;
        var copy;
        copy, fs, cs := CarryInto(last, k, fs, cs);
        next := next + [copy];
        forall i: nat ensures Carried(next, fs, i) {
          assert old@L(Carried(next0, fs0, i));
          assert old(WorkOk(i));
        }
        forall i: nat | i < k + 1 ensures Cleared(i) {
          assert i < k ==> old@L(Cleared(i));
        }
        forall i: nat | k < i ensures Waiting(i) {
          assert old@L(Waiting(i)) && RefsApart(view.rows, k, i) && old(WorkOk(i)) && old(WorkOk(k));
          forall j: nat ensures CountOk(i, j) {
            assert old@L(CountOk(i, j));
          }
        }
        k := k + 1;
      }
      forall i: nat ensures RowAlike(i) {
        assert old(WorkOk(i));
      }
      Publish(next, fs, cs);
    }

    /** The end of it: the container becomes the newest snapshot. */
    method Publish(next: seq<Obj>, ghost fs: set<Obj>, ghost cs: set<object>)
      requires |next| == |working| == |view.rows| && live !! fs && frozen <= fs && SnapshotsOk() && UniqueRefs(view.rows)
      requires forall i: nat {:trigger Carried(next, fs, i)} :: Carried(next, fs, i)
      requires forall i: nat {:trigger Cleared(i)} :: Cleared(i)
      requires forall i: nat {:trigger RowAlike(i)} :: RowAlike(i)
      requires forall o {:trigger InWork(o)} :: o in live ==> InWork(o)
      requires this !in cs && AllStored(live + fs, cs)
      modifies this`snapshots, this`frozen, this`cells, this`view
      ensures Valid() && view == NetworkCommit.AddVersion(old(view)) && frozen == fs && cells == cs
    {
      snapshots, frozen, cells := snapshots + [next], fs, cs;
      view := NetworkCommit.AddVersion(view);
      forall i: nat ensures WorkOk(i) {
        assert old(RowAlike(i)) && old(Cleared(i));
      }
      forall x | x in live ensures InWork(x) {
        assert old(InWork(x));
      }
      forall v: nat, i: nat ensures SnapOk(v, i) {
        assert old(SnapOk(v, i)) && old(Carried(next, fs, i)) && old(RowAlike(i));
      }
      forall i: nat, j: nat ensures CountOk(i, j) {
        assert old(Carried(next, fs, j)) && old(RowAlike(i)) && old(RowAlike(j));
        assert RefsApart(old(view).rows, i, j) && RefsApart(old(view).rows, j, i);
      }
    }

    /** A working object and its row agree but for the flag. */
    ghost predicate RowAlike(i: nat)
      reads this`working, this`live, this`view, live
    {
      i < |working| && i < |view.rows| ==>
        && working[i] in live && TagOf(working[i].ref) == tag && view.rows[i].ref == working[i].ref
        && view.rows[i].content == working[i].content && view.rows[i].count == working[i].count
    }

    /** A published object shows on the heap what the abstract snapshot has. */
    lemma {:induction false} SnapshotOnHeap(v: nat, i: nat)
      requires Valid() && v < |snapshots| && i < |snapshots[v]|
      ensures |snapshots| == |view.history| && |snapshots[v]| == |view.history[v]| && snapshots[v][i] in frozen
      ensures snapshots[v][i].ref == view.history[v][i].ref
      ensures snapshots[v][i].Real() && snapshots[v][i].cells <= cells && snapshots[v][i].Shows(view.history[v][i].content)
    {
      assert SnapOk(v, i) && Stored(snapshots[v][i], cells);
      snapshots[v][i].RealShows();
    }

    /** When nothing has changed since the newest snapshot, every working object agrees with its copy there, in its
        tracked fields and in its packet counter. */
    lemma {:induction false} NewestAgrees(i: nat)
      requires Valid() && Settled(view) && i < |working|
      ensures |NewestObjs()| == |working| && NewestObjs()[i].ref == working[i].ref
      ensures NewestObjs()[i].content == working[i].content && NewestObjs()[i].count == working[i].count
    {
      var v := |snapshots| - 1;
      assert Newest(view) == Freeze(view.rows) && Unchanged(view.rows)[i] == view.rows[i];
      assert WorkOk(i) && SnapOk(v, i) && CountOk(i, i);
    }
  }
}
