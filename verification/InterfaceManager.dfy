/**
 The interface manager itself: capture handles that point at one another, path compression, re-rooting by
 reversing a path, and the per-handle window of recent packets. Every method is proved against the flat
 table of `InterfaceSpec`.
 */
module InterfaceManager {
  import opened DuplicateFilter
  import opened Options
  import opened OrderedMap
  import opened RecentWindow
  import opened Sequences
  import opened TimeForest
  import opened Timevals
  import opened Words
  import Spec = InterfaceSpec

  /** The twenty bytes of a SHA-1 digest, the key under which a packet is remembered. */
  type Digest = Key

  /** The digest of a frame; frames have a length that fits in a word. */
  function FrameDigest(data: seq<bv8>): Digest {
    if |data| < WORD then DigestOf(data) else []
  }

  // ---- the container of an interface as a window

  /** What the container has for a sighting: its digest and its time. */
  function Stamps(w: Spec.Window<Digest>): (r: DuplicateFilter.Window)
    ensures |r| == |w|
  {
    seq(|w|, i requires 0 <= i < |w| => Sighting(w[i].digest, w[i].info.Micros()))
  }

  lemma {:induction false} StampsPosition(w: Spec.Window<Digest>, d: Digest)
    ensures Position(Stamps(w), d) == Position(w, d) && (Seen(Stamps(w), d) <==> Seen(w, d))
    ensures Seen(w, d) ==> Stamps(w)[Position(w, d)].info == Spec.StoredTime(w, d).Micros()
  {
    var p, q := Position(w, d), Position(Stamps(w), d);
    if p < |w| {
      assert Stamps(w)[p].digest == d;
      SeenAt(Stamps(w), p);
    }
    if q < |w| {
      assert w[q].digest == d;
      SeenAt(w, q);
    }
  }

  lemma {:induction false} StampsRemember(w: Spec.Window<Digest>, d: Digest, time: Timeval)
    ensures Stamps(Remember(w, d, time)) == Remember(Stamps(w), d, time.Micros())
  {
    StampsPosition(w, d);
  }

  class Iface {
    var delta: Timeval
    var parent: Iface?
    const filter: Filter
    var firstPacket: bool
    /** What the container of recent packets stands for, and the cells that it is made of. */
    ghost var window: Spec.Window<Digest>
    ghost var cells: set<object>

    ghost predicate Real()
      reads this`window, this`cells, cells
    {
      var c := filter.lastPackets;
      && this !in cells && c.table in cells && c.table.buckets in cells && c.table.elems <= cells
      && c.Valid() && AsWindow(c.Contents()) == Stamps(window)
    }

    constructor (hash: Key -> nat)
      ensures delta == ZERO && parent == null && window == [] && firstPacket
      ensures Real() && fresh(cells)
    {
      delta := ZERO;
      parent := null;
      window := [];
      firstPacket := true;
      var f := new Filter(hash);
      filter := f;
      cells := {f.lastPackets.table, f.lastPackets.table.buckets};
    }

    /** Moves the digest to the end of the container, evicting the oldest entry when a new one does not fit. */
    method CheckDuplicatePacket(data: seq<bv8>, aligned: bool, timestamp: Timeval) returns (isDuplicate: bool)
      requires Real() && Distinct(window) && |data| < WORD
      modifies this`window, this`cells, cells
      ensures Real() && old(cells) <= cells && fresh(cells - old(cells))
      ensures isDuplicate == Seen(old(window), FrameDigest(data))
      ensures window == Remember(old(window), FrameDigest(data), timestamp)
      ensures Distinct(window)
    {
      hide Remember, Seen, Distinct, Stamps, AsWindow, DigestOf;
      ghost var d := FrameDigest(data);
      RememberDistinct(window, d, timestamp);
      StampsPosition(window, d);
      StampsRemember(window, d, timestamp);
      isDuplicate := filter.CheckDuplicatePacket(data, aligned, timestamp.Micros());
      window := Remember(window, d, timestamp);
      cells := cells + {filter.lastPackets.table.buckets} + filter.lastPackets.table.elems;
    }

    method GetOldPacket(data: seq<bv8>, aligned: bool) returns (time: Option<Timeval>)
      requires Real() && |data| < WORD
      ensures var d := FrameDigest(data); time == if Seen(window, d) then Some(Spec.StoredTime(window, d)) else None
    {
      ghost var d := FrameDigest(data);
      StampsPosition(window, d);
      var stored := filter.GetOldPacket(data, aligned);
      if stored.None? {
        return None;
      }
      time := Some(FromMicros(stored.value));
      NormalIsCanonical(time.value, Spec.StoredTime(window, d));
    }
  }

  // ---- storage

  /** The interface has the cells of its container to itself and among the given ones. */
  ghost predicate Stored(h: Iface, cs: set<object>)
    reads h`window, h`cells, cs
  {
    h.cells <= cs && h.Real()
  }

  ghost predicate CellsApart(g: Iface, h: Iface)
    reads g`cells, h`cells
  {
    g != h ==> g.cells !! h.cells
  }

  ghost predicate AllStored(hs: set<Iface>, cs: set<object>)
    reads hs`window, hs`cells, cs
  {
    && (forall h {:trigger h in hs} :: h in hs ==> h !in cs)
    && (forall h {:trigger Stored(h, cs)} :: h in hs ==> Stored(h, cs))
    && (forall g, h {:trigger CellsApart(g, h)} :: g in hs && h in hs ==> CellsApart(g, h))
  }

  lemma {:induction false} FewerStored(hs: set<Iface>, fewer: set<Iface>, cs: set<object>)
    requires AllStored(hs, cs) && fewer <= hs
    ensures AllStored(fewer, cs)
  {
    forall h | h in fewer ensures Stored(h, cs) {
    }
    forall g, h | g in fewer && h in fewer ensures CellsApart(g, h) {
    }
  }

  /** A new interface has cells of its own. */
  twostate lemma NewStored(new hs: set<Iface>, new o: Iface, new cs: set<object>)
    requires old(allocated(hs)) && old(allocated(cs)) && old(AllStored(hs, cs)) && unchanged(hs`window, hs`cells, cs)
    requires fresh(o) && fresh(o.cells) && o.Real()
    ensures AllStored(hs + {o}, cs + o.cells)
  {
    forall h | h in hs + {o} ensures Stored(h, cs + o.cells) {
      if h in hs {
        assert old(Stored(h, cs));
      }
    }
    forall g, h | g in hs + {o} && h in hs + {o} ensures CellsApart(g, h) {
      assert g in hs ==> old(Stored(g, cs));
      assert h in hs ==> old(Stored(h, cs));
      assert g in hs && h in hs ==> old(CellsApart(g, h));
    }
  }

  /** A packet in the container of one interface leaves the others alone. */
  twostate lemma RecordStored(new hs: set<Iface>, new o: Iface, new cs: set<object>)
    requires old(allocated(hs)) && old(allocated(cs)) && old(AllStored(hs, cs)) && o in hs
    requires unchanged(hs - {o}) && unchanged(cs - old(o.cells))
    requires o.Real() && old(o.cells) <= o.cells && fresh(o.cells - old(o.cells))
    ensures AllStored(hs, cs + o.cells)
  {
    assert old(Stored(o, cs));
    forall h | h in hs ensures h !in cs + o.cells {
      assert old(allocated(h));
    }
    forall h | h in hs ensures Stored(h, cs + o.cells) {
      assert old(Stored(h, cs)) && old(CellsApart(h, o)) && old(Stored(o, cs));
    }
    forall g, h | g in hs && h in hs ensures CellsApart(g, h) {
      assert old(CellsApart(g, h)) && old(Stored(g, cs)) && old(Stored(h, cs));
    }
  }

  class Manager {
    const hash: Key -> nat
    var handles: seq<Iface>
    var timebases: int
    /** The frames given to the parser, with their absolute time stamps. */
    var forwarded: seq<(seq<bv8>, Timeval)>
    ghost var rank: map<Iface, nat>
    /** The elements of `handles`. */
    ghost var live: set<Iface>
    /** The cells of their containers. */
    ghost var cells: set<object>

    // ---- the value of the pointer graph

    ghost function F(): Forest<Iface>
      reads this`live, this`rank, live`parent, live`delta
    {
      map h | h in live ::
        Node(if h.parent == null then None else Some(h.parent), h.delta.Micros(), if h in rank then rank[h] else 0)
    }

    ghost function Bases(): Spec.Bases<Iface>
      reads this`live, this`rank, this`timebases, live`parent, live`delta
      requires Wf(F())
    {
      Spec.Bases(TableOf(F()), timebases)
    }

    ghost function Windows(): map<Iface, Spec.Window<Digest>>
      reads this`live, live`window
    {
      map h | h in live :: h.window
    }

    ghost function Pristine(): set<Iface>
      reads this`live, live`firstPacket
    {
      set h | h in live && h.firstPacket
    }

    ghost function View(): Spec.State<Iface, Digest>
      reads this, live
      requires Wf(F())
    {
      Spec.State(handles, Bases(), Windows(), Pristine(), InMicros(forwarded))
    }

    ghost predicate StorageOk()
      reads this`live, this`cells, live`window, live`cells, cells
    {
      this !in cells && AllStored(live, cells)
    }

    ghost predicate Valid()
      reads this, live, cells
    {
      Wf(F()) && Spec.Inv(View()) && StorageOk()
    }

    constructor (hash: Key -> nat)
      ensures this.hash == hash
      ensures Valid() && View() == Spec.Start<Iface, Digest>()
    {
      this.hash := hash;
      handles := [];
      live, cells := {}, {};
      timebases := 0;
      forwarded := [];
      rank := map[];
      new;
      Spec.EmptyIsInv<Iface, Digest>();
      assert View() == Spec.Start<Iface, Digest>();
    }

    /** Sets one parent pointer and its offset. */
    method SetParent(p: Iface, c: Iface, delta: Timeval)
      requires Wf(F()) && p in live && c in live && !Below(F(), c, p)
      modifies this`rank, p`parent, p`delta
      ensures p.parent == c && p.delta == delta
      ensures Attached(old(F()), F(), p, c, delta.Micros())
    {
      ghost var f := F();
      ghost var newRank := map h | h in live :: if Below(f, h, p) then f[h].rank + f[c].rank + 1 else f[h].rank;
      p.parent := c;
      p.delta := delta;
      rank := newRank;
      forall h | h in live
        ensures AttachedAt(f, F(), p, c, delta.Micros(), h)
      {
      }
    }

    // ---- queries along the path to the root

    method GetAbsoluteTimestamp(iface: Iface, timestamp: Timeval) returns (res: Timeval)
      requires Wf(F()) && iface in live
      ensures res.Micros() == timestamp.Micros() + Abs(F(), iface)
    {
      res := timestamp;
      var p: Iface? := iface;
      while p != null
        invariant p != null ==> p in live
        invariant res.Micros() + (if p == null then 0 else Abs(F(), p)) == timestamp.Micros() + Abs(F(), iface)
        decreases if p == null then 0 else F()[p].rank + 1
      {
        assert HasLowerParent(F(), p);
        res := TimerAdd(res, p.delta);
        p := p.parent;
      }
    }

    /** Compresses the path of `iface`: it becomes a root's child, at the summed offset; no clock changes. */
    method RebaseParent(iface: Iface)
      requires Wf(F()) && iface in live
      modifies this`rank, iface`parent, iface`delta
      ensures Wf(F()) && F().Keys == old(F()).Keys && TableOf(F()) == TableOf(old(F()))
      ensures iface.parent == if Root(old(F()), iface) == iface then null else Root(old(F()), iface)
    {
      var res := ZERO;
      var p := iface;
      while p.parent != null
        invariant p in live && Root(F(), p) == Root(F(), iface)
        invariant res.Micros() + Abs(F(), p) == Abs(F(), iface)
        decreases F()[p].rank
      {
        assert HasLowerParent(F(), p);
        res := TimerAdd(res, p.delta);
        p := p.parent;
      }
      assert Root(F(), iface) == p;
      if p != iface {
        ghost var f := F();
        assert HasLowerParent(f, iface);
        BelowSharesRoot(f, p, iface);
        assert !Below(f, p, iface);
        SetParent(iface, p, res);
        CompressKeepsClocks(f, F(), iface);
      }
    }

    method GetRoot(iface: Iface) returns (p: Iface)
      requires Wf(F()) && iface in live
      modifies this`rank, iface`parent, iface`delta
      ensures p == Root(old(F()), iface) && p in live
      ensures Wf(F()) && F().Keys == old(F()).Keys && TableOf(F()) == TableOf(old(F()))
      ensures iface.parent == if p == iface then null else p
    {
      p := iface;
      while p.parent != null
        invariant p in live && Root(F(), p) == Root(F(), iface)
        decreases F()[p].rank
      {
        assert HasLowerParent(F(), p);
        p := p.parent;
      }
      RebaseParent(iface);
    }

    // ---- alignment of two interfaces

    /** Hangs a root under an interface of another tree. */
    method HangRoot(p: Iface, c: Iface, delta: Timeval, ghost gap: int)
      requires Wf(F()) && p in live && c in live && F()[p].up.None? && Root(F(), c) != p
      requires gap == delta.Micros() + Abs(F(), c) - Abs(F(), p)
      modifies this`rank, p`parent, p`delta
      ensures Wf(F()) && TableOf(F()) == Shift(TableOf(old(F())), p, Root(old(F()), c), gap)
    {
      ghost var f := F();
      BelowRoot(f, c, p);
      SetParent(p, c, delta);
      AttachRootIsShift(f, F(), p, c, delta.Micros(), gap);
    }

    /** Turns the path from `iface2` to its root `root2` round and hangs it under `iface1`. */
    method ReversePath(iface1: Iface, iface2: Iface, delta: Timeval, ghost root1: Iface, ghost root2: Iface,
                       ghost gap: int)
      requires Wf(F()) && iface1 in live && iface2 in live
      requires root1 == Root(F(), iface1) && root2 == Root(F(), iface2) && root1 != root2
      requires gap == delta.Micros() + Abs(F(), iface1) - Abs(F(), iface2)
      modifies this`rank, live`parent, live`delta
      ensures Wf(F()) && TableOf(F()) == Shift(TableOf(old(F())), root2, root1, gap)
    {
      ghost var f0 := F();
      TurnStart(f0, root1, root2, gap);
      var child, p: Iface?, oldParent := iface1, iface2, iface2.parent;
      var parentDelta := delta;
      while p != null
        invariant child in live && (p != null ==> p in live && oldParent == p.parent)
        invariant F().Keys == f0.Keys && Reversing(f0, F(), root1, root2, gap)
        invariant p != null ==> NextToTurn(f0, F(), root1, root2, gap, child, p, parentDelta.Micros())
        invariant p == null ==> TableOf(F()) == Shift(TableOf(f0), root2, root1, gap)
        decreases if p == null then 0 else F()[p].rank + 1
      {
        ghost var f := F();
        ghost var carried := parentDelta.Micros();
        BelowSharesRoot(f, child, p);
        var temp := p.delta;
        SetParent(p, child, parentDelta);
        parentDelta := TimerSub(ZERO, temp);
        if f[p].up.Some? {
          TurnGoesOn(f0, f, F(), root1, root2, gap, child, p, carried);
        } else {
          TurnEnds(f0, f, F(), root1, root2, gap, child, p, carried);
        }
        child, p := p, oldParent;
        oldParent := if p != null then p.parent else null;
      }
    }

    /** The four ways of joining two trees: a root is hung under the other interface, the first one for preference,
        and when neither interface is a root the second tree is turned round. */
    method JoinTrees(iface1: Iface, timestamp1: Timeval, iface2: Iface, timestamp2: Timeval,
                     ghost root1: Iface, ghost root2: Iface, ghost gap1: int, ghost gap2: int)
      requires Wf(F()) && iface1 in live && iface2 in live
      requires root1 == Root(F(), iface1) && root2 == Root(F(), iface2) && root1 != root2
      requires gap1 == timestamp2.Micros() - timestamp1.Micros() + Abs(F(), iface2) - Abs(F(), iface1)
      requires gap2 == timestamp1.Micros() - timestamp2.Micros() + Abs(F(), iface1) - Abs(F(), iface2)
      modifies this`rank, live`parent, live`delta
      ensures Wf(F())
      ensures iface1 == root1 ==> TableOf(F()) == Shift(TableOf(old(F())), iface1, root2, gap1)
      ensures iface1 != root1 ==> TableOf(F()) == Shift(TableOf(old(F())), root2, root1, gap2)
    {
      if iface1.parent == null && iface2.parent == null {
        HangRoot(iface1, iface2, TimerSub(timestamp2, timestamp1), gap1);
      } else if iface1.parent == null && iface2.parent != null {
        HangRoot(iface1, iface2, TimerSub(timestamp2, timestamp1), gap1);
      } else if iface1.parent != null && iface2.parent == null {
        HangRoot(iface2, iface1, TimerSub(timestamp1, timestamp2), gap2);
      } else {
        ReversePath(iface1, iface2, TimerSub(timestamp1, timestamp2), root1, root2, gap2);
      }
    }

    method GetRoots(iface1: Iface, iface2: Iface) returns (root1: Iface, root2: Iface)
      requires Wf(F()) && iface1 in live && iface2 in live
      modifies this`rank, live`parent, live`delta
      ensures Wf(F()) && TableOf(F()) == TableOf(old(F()))
      ensures root1 == Root(F(), iface1) && root2 == Root(F(), iface2)
      ensures TableOf(old(F()))[iface1] == Clock(root1, Abs(F(), iface1))
      ensures TableOf(old(F()))[iface2] == Clock(root2, Abs(F(), iface2))
    {
      ghost var t := TableOf(F());
      assert t[iface1] == ClockOf(F(), iface1) && t[iface2] == ClockOf(F(), iface2);
      root1 := GetRoot(iface1);
      assert t[iface1] == ClockOf(F(), iface1) && t[iface2] == ClockOf(F(), iface2);
      root2 := GetRoot(iface2);
      assert t[iface1] == ClockOf(F(), iface1) && t[iface2] == ClockOf(F(), iface2);
    }

    /** After two sightings of one frame, puts both interfaces on one time base. */
    method SyncTime(iface1: Iface, timestamp1: Timeval, iface2: Iface, timestamp2: Timeval)
      requires Wf(F()) && iface1 in live && iface2 in live
      modifies this`rank, this`timebases, live`parent, live`delta
      ensures Wf(F())
      ensures
        var b := Spec.Sync(old(Bases()), iface1, timestamp1.Micros(), iface2, timestamp2.Micros());
        TableOf(F()) == b.clocks && timebases == b.count
    {
      hide Wf, Root, Abs, Shift;
      ghost var b := Bases();
      var root1, root2 := GetRoots(iface1, iface2);
      if root1 == root2 {
        return;
      }
      timebases := timebases - 1;
      ghost var at1, at2 := timestamp1.Micros(), timestamp2.Micros();
      ghost var gap1 := at2 - at1 + b.clocks[iface2].abs - b.clocks[iface1].abs;
      ghost var gap2 := at1 - at2 + b.clocks[iface1].abs - b.clocks[iface2].abs;
      JoinTrees(iface1, timestamp1, iface2, timestamp2, root1, root2, gap1, gap2);
      SyncByGap(b, iface1, at1, iface2, at2, gap1, gap2);
    }

    // ---- the operations of the capture drivers

    /** The allocation of interfacemgr_create_handle. */
    method NewHandle() returns (handle: Iface)
      requires StorageOk()
      ensures fresh(handle) && fresh(handle.cells) && AllStored(live + {handle}, cells + handle.cells)
      ensures handle.parent == null && handle.delta == ZERO && handle.window == [] && handle.firstPacket
    {
      handle := new Iface(hash);
      NewStored(live, handle, cells);
    }

    method LinkHandle() returns (handle: Iface)
      requires StorageOk()
      modifies this`handles, this`live, this`timebases, this`rank, this`cells
      ensures StorageOk()
      ensures fresh(handle) && handles == [handle] + old(handles) && timebases == old(timebases) + 1
      ensures live == old(live) + {handle}
      ensures AgreeOff(old(F()), F(), handle) && handle !in old(F())
      ensures handle in F() && F()[handle].up.None? && F()[handle].off == 0 && handle.window == []
      ensures Windows() == old(Windows())[handle := []]
      ensures Pristine() == old(Pristine()) + {handle}
    {
      hide AllStored;
      handle := NewHandle();
      cells := cells + handle.cells;
      timebases := timebases + 1;
      handles, live := [handle] + handles, live + {handle};
      rank := rank[handle := 0];
    }

    method AddHandle() returns (handle: Iface)
      requires Wf(F()) && StorageOk()
      modifies this`handles, this`live, this`timebases, this`rank, this`cells
      ensures StorageOk()
      ensures fresh(handle) && handles == [handle] + old(handles)
      ensures Wf(F()) && View() == Spec.Add(old(View()), handle)
      ensures handle.window == [] && live == old(live) + {handle}
    {
      ghost var f := F();
      handle := LinkHandle();
      AddRoot(f, F(), handle);
    }

    method CreateHandle() returns (handle: Iface)
      requires Valid()
      modifies this`handles, this`live, this`timebases, this`rank, this`cells
      ensures fresh(handle) && handles == [handle] + old(handles)
      ensures Valid() && View() == Spec.Add(old(View()), handle)
    {
      ghost var v := View();
      handle := AddHandle();
      Spec.CreateKeepsInv(v, handle);
    }

    method UnlinkHandle(handle: Iface)
      requires handle in live && Spec.NoDup(handles)
      modifies this`handles, this`live, this`timebases
      ensures handles == Without(old(handles), handle)
      ensures timebases == old(timebases) - if handle.parent == null then 1 else 0
      ensures live <= old(live)
      ensures AgreeOff(old(F()), F(), handle) && handle !in F()
      ensures Windows() == old(Windows()) - {handle}
      ensures Pristine() == old(Pristine()) - {handle}
    {
      Spec.WithoutRemoves(handles, handle);
      if handle.parent == null {
        timebases := timebases - 1;
      }
      handles, live := Without(handles, handle), live - {handle};
    }

    method RemoveHandle(handle: Iface)
      requires Wf(F()) && handle in live && Spec.NoDup(handles)
      modifies this`handles, this`live, this`timebases
      ensures handles == Without(old(handles), handle)
      ensures timebases == old(timebases) - if handle.parent == null then 1 else 0
      ensures live <= old(live)
      ensures Wf(F()) <==> IsLeaf(old(F()), handle)
      ensures Wf(F()) ==> Spec.Alone(TableOf(old(F())), handle) && View() == Spec.Remove(old(View()), handle)
    {
      ghost var f, v := F(), View();
      UnlinkHandle(handle);
      RemoveWfIff(f, F(), handle);
      if Wf(F()) {
        RemovedView(f, F(), handle, v, View());
      }
    }

    /** Unlinks the handle. Interfaces hanging on it are not repaired: the invariant survives exactly when there
        are none. */
    method DestroyHandle(handle: Iface)
      requires Valid() && handle in live
      modifies this`handles, this`live, this`timebases
      ensures handles == Without(old(handles), handle)
      ensures timebases == old(timebases) - if handle.parent == null then 1 else 0
      ensures Valid() <==> old(forall h :: h in live ==> h.parent != handle)
      ensures Valid() ==> Spec.Enabled(old(View()), Spec.Destroy(handle)) && View() == Spec.Remove(old(View()), handle)
    {
      hide Spec.Inv, Iface.Real;
      hide Spec.Inv, F, IsLeaf, Wf, Spec.Alone, Spec.Remove;
      ghost var v := View();
      LeafIff(handle);
      HandlesDiffer();
      HandleHasClock(handle);
      RemoveHandle(handle);
      FewerStored(old(live), live, cells);
      if Wf(F()) {
        Spec.DestroyKeepsInv(v, handle);
      }
    }

    lemma {:induction false} LeafIff(handle: Iface)
      ensures IsLeaf(F(), handle) <==> forall h :: h in live ==> h.parent != handle
    {
      var f := F();
      assert forall h :: h in live ==> (f[h].up == Some(handle) <==> h.parent == handle);
    }

    lemma {:induction false} HandlesDiffer()
      requires Valid()
      ensures Spec.NoDup(handles)
    {
    }

    lemma {:induction false} HandleHasClock(handle: Iface)
      requires Valid() && handle in live
      ensures handle in View().bases.clocks
    {
    }

    /** An interface has its cells, and no interface is one of them. */
    lemma {:induction false} HasCells(h: Iface)
      requires StorageOk() && h in live
      ensures h.Real() && h.cells <= cells && this !in h.cells
      ensures forall g {:trigger g in live} :: g in live ==> g !in h.cells
    {
      assert Stored(h, cells);
    }

    /** The container of the interface takes the packet; nothing else changes. */
    method RecordIn(iface: Iface, data: seq<bv8>, aligned: bool, timestamp: Timeval) returns (isDuplicate: bool)
      requires iface in live && Distinct(iface.window) && StorageOk() && |data| < WORD
      modifies this`cells, iface`window, iface`cells, iface.cells
      ensures isDuplicate == Seen(old(iface.window), FrameDigest(data))
      ensures iface.window == Remember(old(iface.window), FrameDigest(data), timestamp) && Distinct(iface.window)
      ensures StorageOk() && old(cells) <= cells && fresh(cells - old(cells))
      ensures unchanged(this`live, this`handles, this`rank, this`timebases, this`forwarded)
      ensures unchanged(live`parent, live`delta, live`firstPacket, (live - {iface})`window)
    {
      hide Remember, Seen, Distinct, Iface.Real, FrameDigest;
      HasCells(iface);
      isDuplicate := iface.CheckDuplicatePacket(data, aligned, timestamp);
      RecordStored(live, iface, cells);
      cells := cells + iface.cells;
    }

    method RecordPacket(iface: Iface, data: seq<bv8>, aligned: bool, timestamp: Timeval) returns (isDuplicate: bool)
      requires Wf(F()) && iface in live && Distinct(iface.window) && StorageOk() && |data| < WORD
      modifies this`cells, iface`window, iface`cells, iface.cells
      ensures isDuplicate == Seen(old(iface.window), FrameDigest(data))
      ensures Wf(F()) && View() == Spec.Record(old(View()), iface, FrameDigest(data), timestamp)
      ensures Distinct(iface.window) && StorageOk() && old(cells) <= cells && fresh(cells - old(cells))
      ensures F() == old(F()) && unchanged(this`live, this`handles, this`rank, this`timebases, this`forwarded)
      ensures unchanged(live`parent, live`delta, live`firstPacket)
    {
      hide Remember, Seen, Distinct, StorageOk, AllStored, FrameDigest;
      ghost var v := View();
      isDuplicate := RecordIn(iface, data, aligned, timestamp);
      assert Windows() == v.windows[iface := iface.window];
    }

    method SetRootOffset(iface: Iface, delta: Timeval)
      requires iface in live
      modifies iface`delta, iface`firstPacket
      ensures AgreeOff(old(F()), F(), iface)
      ensures iface in F() && F()[iface] == old(F())[iface].(off := delta.Micros())
      ensures Pristine() == old(Pristine()) - {iface}
    {
      iface.delta := delta;
      iface.firstPacket := false;
    }

    /** The first packet of an interface that is not yet synchronised is given the absolute time 0. */
    method TakeOrigin(iface: Iface, timestamp: Timeval)
      requires Wf(F()) && iface in live && (iface.firstPacket ==> Spec.Alone(TableOf(F()), iface))
      modifies iface`delta, iface`firstPacket
      ensures Wf(F()) && View() == Spec.SetOrigin(old(View()), iface, timestamp.Micros())
    {
      hide Wf, Spec.Alone, TableOf, Root, Abs;
      ghost var f, v := F(), View();
      if iface.firstPacket && iface.parent == null {
        StartRoot(iface, timestamp);
      }
      OriginView(f, v, View(), iface, timestamp.Micros());
    }

    method StartRoot(iface: Iface, timestamp: Timeval)
      requires Wf(F()) && iface in live && iface.parent == null && Spec.Alone(TableOf(F()), iface)
      modifies iface`delta, iface`firstPacket
      ensures Wf(F()) && TableOf(F()) == old(TableOf(F()))[iface := Clock(iface, -timestamp.Micros())]
      ensures Pristine() == old(Pristine()) - {iface}
    {
      hide Wf, TableOf, AgreeOff, Spec.Alone;
      ghost var f := F();
      AloneInForest(f, iface);
      SetRootOffset(iface, TimerSub(ZERO, timestamp));
      RetimeRoot(f, F(), iface, -timestamp.Micros());
    }

    /** `held` tells whether and when `h` saw the frame. */
    ghost predicate HeldAt(held: map<Iface, int>, h: Iface, d: Digest)
      reads h`window
    {
      && (h in held <==> Seen(h.window, d))
      && (h in held ==> held[h] == Spec.StoredTime(h.window, d).Micros())
    }

    ghost predicate HeldAll(held: map<Iface, int>, d: Digest)
      reads this`live, live`window
    {
      forall h {:trigger HeldAt(held, h, d)} :: h in live ==> HeldAt(held, h, d)
    }

    method CheckMultisnifferPacket(iface: Iface, other: Iface, data: seq<bv8>, aligned: bool, timestamp: Timeval,
                                   ghost held: map<Iface, int>)
      returns (received: bool)
      requires Wf(F()) && iface in live && other in live && other != iface && HeldAt(held, other, FrameDigest(data))
      requires StorageOk() && |data| < WORD
      modifies this`rank, this`timebases, live`parent, live`delta
      ensures received == (other in held)
      ensures Wf(F()) && Bases() == Spec.SyncOne(old(Bases()), other, held, iface, timestamp.Micros())
      ensures StorageOk()
    {
      hide Wf, F, TableOf, Iface.Real, FrameDigest, Seen, Spec.Sync;
      HasCells(other);
      var oldTime := other.GetOldPacket(data, aligned);
      if oldTime.Some? {
        SyncTime(iface, timestamp, other, oldTime.value);
        return true;
      }
      return false;
    }

    lemma {:induction false} BaseKeys()
      requires Wf(F())
      ensures Bases().clocks.Keys == live
    {
    }

    lemma {:induction false} ClockHere(h: Iface)
      requires Wf(F()) && h in live
      ensures h in Bases().clocks && Bases().clocks[h].abs == Abs(F(), h)
    {
      assert Bases().clocks[h] == ClockOf(F(), h);
    }

    /** The body of the loop over the handles. */
    method VisitHandle(iface: Iface, h: Iface, data: seq<bv8>, aligned: bool, timestamp: Timeval, ghost held: map<Iface, int>)
      returns (had: bool)
      requires StorageOk() && |data| < WORD
      requires Wf(F()) && iface in live && h in live && HeldAll(held, FrameDigest(data))
      modifies this`rank, this`timebases, live`parent, live`delta
      ensures StorageOk() && Wf(F()) && HeldAll(held, FrameDigest(data))
      ensures Bases() == Spec.SyncOne(old(Bases()), h, held, iface, timestamp.Micros())
      ensures had <==> h != iface && h in held
    {
      had := false;
      if h != iface {
        assert HeldAt(held, h, FrameDigest(data));
        had := CheckMultisnifferPacket(iface, h, data, aligned, timestamp, held);
      }
    }

    /** Visits every other handle; says whether one of them had received the frame. */
    method SyncWithOthers(iface: Iface, data: seq<bv8>, aligned: bool, timestamp: Timeval, ghost held: map<Iface, int>)
      returns (received: bool)
      requires StorageOk() && |data| < WORD
      requires Wf(F()) && iface in live && forall h :: h in handles ==> h in live
      requires HeldAll(held, FrameDigest(data))
      modifies this`rank, this`timebases, live`parent, live`delta
      ensures StorageOk()
      ensures Wf(F()) && Bases() == Spec.SyncFirst(old(Bases()), handles, |handles|, held, iface, timestamp.Micros())
      ensures received <==> HeldAmong(handles, iface, held)
    {
      hide StorageOk, Wf, F, Bases, FrameDigest, HeldAmong, HeldAll, Spec.SyncOne;
      BaseKeys();
      ghost var at, b := timestamp.Micros(), Bases();
      received := false;
      HeldAmongNone(handles, iface, held);
      for k := 0 to |handles|
        invariant StorageOk() && HeldAll(held, FrameDigest(data))
        invariant Wf(F()) && Bases() == Spec.SyncFirst(b, handles, k, held, iface, at)
        invariant received <==> HeldAmong(handles[..k], iface, held)
      {
        HeldAmongSnoc(handles, k, iface, held);
        var had := VisitHandle(iface, handles[k], data, aligned, timestamp, held);
        if had {
          received := true;
        }
      }
      assert handles[..|handles|] == handles;
    }

    lemma {:induction false} HeldEverywhere(d: Digest)
      ensures HeldAll(Spec.HeldBy(Windows(), d), d)
    {
      forall h | h in live ensures HeldAt(Spec.HeldBy(Windows(), d), h, d) {
        assert Windows()[h] == h.window;
      }
    }

    method JoinHolders(iface: Iface, data: seq<bv8>, aligned: bool, timestamp: Timeval, ghost o: Spec.State<Iface, Digest>)
      returns (received: bool)
      requires StorageOk() && |data| < WORD
      requires Wf(F()) && iface in live && (forall h :: h in handles ==> h in live) && o == View()
      modifies this`rank, this`timebases, live`parent, live`delta
      ensures Wf(F()) && StorageOk()
      ensures View() == o.(bases := Spec.SyncFirst(o.bases, o.order, |o.order|, Spec.HeldBy(o.windows, FrameDigest(data)),
                                                   iface, timestamp.Micros()))
      ensures received == Spec.HeldElsewhere(o, iface, FrameDigest(data))
    {
      hide StorageOk, AllStored, Wf, HeldAt, Seen, Spec.SyncFirst, FrameDigest, Spec.HeldElsewhere;
      ghost var d := FrameDigest(data);
      HeldEverywhere(d);
      received := SyncWithOthers(iface, data, aligned, timestamp, Spec.HeldBy(o.windows, d));
      HeldElsewhereAt(o, iface, d);
    }

    /** Alignment with every other interface that saw the frame; says whether there was one. */
    method AlignReceiver(iface: Iface, data: seq<bv8>, aligned: bool, timestamp: Timeval) returns (received: bool)
      requires StorageOk() && |data| < WORD
      requires Wf(F()) && iface in live && forall h :: h in handles ==> h in live
      requires iface.firstPacket ==> Spec.Alone(TableOf(F()), iface)
      modifies this`rank, this`timebases, live`parent, live`delta, iface`firstPacket
      ensures Wf(F()) && View() == Spec.Align(old(View()), iface, FrameDigest(data), timestamp.Micros()) && StorageOk()
      ensures received == Spec.HeldElsewhere(View(), iface, FrameDigest(data))
    {
      TakeOrigin(iface, timestamp);
      received := JoinHolders(iface, data, aligned, timestamp, View());
    }

    /** Gives the frame to the parser, unless it had already been received, with its absolute time stamp. */
    method HandOn(iface: Iface, data: seq<bv8>, timestamp: Timeval, received: bool)
      requires Wf(F()) && iface in live
      modifies this`forwarded
      ensures Wf(F()) && View() == Spec.HandOn(old(View()), iface, data, received, timestamp.Micros())
    {
      hide Abs, Root, Wf, F, TableOf, Bases;
      if !received {
        ClockHere(iface);
        var absolute := GetAbsoluteTimestamp(iface, timestamp);
        ghost var before := forwarded;
        forwarded := forwarded + [(data, absolute)];
        InMicrosSnoc(before, (data, absolute));
      }
    }

    /** A frame the receiver did not remember. */
    method ProcessFresh(iface: Iface, data: seq<bv8>, aligned: bool, timestamp: Timeval)
      requires StorageOk() && |data| < WORD
      requires Wf(F()) && iface in live && forall h :: h in handles ==> h in live
      requires iface.firstPacket ==> Spec.Alone(TableOf(F()), iface)
      modifies this`rank, this`timebases, this`forwarded, live`parent, live`delta, iface`firstPacket
      ensures Wf(F()) && View() == Spec.ProcessFresh(old(View()), iface, data, FrameDigest(data), timestamp.Micros())
      ensures StorageOk()
    {
      hide StorageOk, AllStored, Wf, F, View, Spec.Align, Spec.HandOn, Spec.HeldElsewhere, FrameDigest, TableOf;
      var received := AlignReceiver(iface, data, aligned, timestamp);
      HandOn(iface, data, timestamp, received);
    }

    method ProcessFrame(iface: Iface, data: seq<bv8>, aligned: bool, timestamp: Timeval)
      requires StorageOk() && |data| < WORD
      requires Wf(F()) && iface in live && Distinct(iface.window) && forall h :: h in handles ==> h in live
      requires iface.firstPacket ==> Spec.Alone(TableOf(F()), iface)
      modifies this`rank, this`timebases, this`forwarded, live`parent, live`delta, iface`firstPacket
      modifies this`cells, iface`window, iface`cells, iface.cells
      ensures Wf(F()) && View() == Spec.Process(old(View()), iface, data, FrameDigest(data), timestamp) && StorageOk()
      ensures old(cells) <= cells && fresh(cells - old(cells))
    {
      hide Spec.Record, Spec.ProcessFresh, Wf, F, StorageOk, Seen, Distinct, AllStored, TableOf, Spec.Alone, FrameDigest;
      if |data| <= 0 || data[0] & 0x03 != 1 {
        return;
      }
      var duplicate := RecordPacket(iface, data, aligned, timestamp);
      if !duplicate {
        ProcessFresh(iface, data, aligned, timestamp);
      }
    }

    /** What the invariant gives to the handling of a packet. */
    lemma {:induction false} ReadyHere(iface: Iface)
      requires Valid() && iface in live
      ensures iface in View().bases.clocks
      ensures Distinct(iface.window) && (forall h :: h in handles ==> h in live)
      ensures iface.firstPacket ==> Spec.Alone(TableOf(F()), iface)
    {
      ReadyToProcess(View(), iface);
      assert View().windows[iface] == iface.window;
      assert iface.firstPacket ==> iface in View().pristine;
    }

    /** interfacemgr_process_packet: a frame at some address, whose length is an int. */
    method ProcessPacket(iface: Iface, data: seq<bv8>, aligned: bool, timestamp: Timeval)
      requires Valid() && iface in live && |data| < WORD
      modifies this`rank, this`timebases, this`forwarded, this`cells, live, cells
      ensures Valid() && View() == Spec.Process(old(View()), iface, data, FrameDigest(data), timestamp)
      ensures old(cells) <= cells && fresh(cells - old(cells))
    {
      hide Iface.Real, TableOf, Root, F, Spec.BasesOk, Spec.Process, AllStored, Wf;
      ghost var v, d := View(), FrameDigest(data);
      ReadyHere(iface);
      HasCells(iface);
      ProcessFrame(iface, data, aligned, timestamp);
      Spec.ProcessKeepsInv(v, iface, data, d, timestamp);
    }
  }

  lemma {:induction false} AloneInForest<T>(f: Forest<T>, x: T)
    requires Wf(f) && Spec.Alone(TableOf(f), x)
    ensures forall y :: y in f && y != x ==> y in TableOf(f) && TableOf(f)[y].root != x
  {
  }

  lemma {:induction false} ReadyToProcess<T, D(!new)>(v: Spec.State<T, D>, x: T)
    requires Spec.Inv(v) && x in v.bases.clocks
    ensures x in v.windows && Distinct(v.windows[x])
    ensures forall h :: h in v.order ==> h in v.bases.clocks
    ensures x in v.pristine ==> Spec.Alone(v.bases.clocks, x)
  {
    if x in v.pristine {
      assert Spec.Untouched(v, x);
    }
  }

  lemma {:induction false} InMicrosSnoc(s: seq<(seq<bv8>, Timeval)>, a: (seq<bv8>, Timeval))
    ensures InMicros(s + [a]) == InMicros(s) + [(a.0, a.1.Micros())]
  {
  }

  /** One of the handles, other than x, saw the frame. */
  ghost predicate HeldAmong<T>(order: seq<T>, x: T, held: map<T, int>) {
    exists j :: 0 <= j < |order| && order[j] != x && order[j] in held
  }

  lemma {:induction false} HeldAmongNone<T>(order: seq<T>, x: T, held: map<T, int>)
    ensures !HeldAmong(order[..0], x, held)
  {
  }

  lemma {:induction false} HeldAmongSnoc<T>(order: seq<T>, k: nat, x: T, held: map<T, int>)
    requires k < |order|
    ensures HeldAmong(order[..k + 1], x, held) <==> HeldAmong(order[..k], x, held) || (order[k] != x && order[k] in held)
  {
    if HeldAmong(order[..k + 1], x, held) {
      var j :| 0 <= j < k + 1 && order[..k + 1][j] != x && order[..k + 1][j] in held;
      assert j < k ==> order[..k][j] == order[j];
    }
    if HeldAmong(order[..k], x, held) {
      var j :| 0 <= j < k && order[..k][j] != x && order[..k][j] in held;
      assert order[..k + 1][j] == order[j];
    }
    if order[k] != x && order[k] in held {
      assert order[..k + 1][k] == order[k];
    }
  }

  lemma {:induction false} HeldElsewhereAt<T, D(!new)>(v: Spec.State<T, D>, x: T, d: D)
    ensures Spec.HeldElsewhere(v, x, d) <==> HeldAmong(v.order, x, Spec.HeldBy(v.windows, d))
  {
    if Spec.HeldElsewhere(v, x, d) {
      var h :| h in v.order && h != x && Spec.Holds(v.windows, h, d);
      var j :| 0 <= j < |v.order| && v.order[j] == h;
      assert v.order[j] in Spec.HeldBy(v.windows, d);
    }
    if j :| 0 <= j < |v.order| && v.order[j] != x && v.order[j] in Spec.HeldBy(v.windows, d) {
      assert Spec.Holds(v.windows, v.order[j], d);
    }
  }

  lemma {:induction false} OriginView<T, D(!new)>(
    f: Forest<T>, v: Spec.State<T, D>, w: Spec.State<T, D>, x: T, at: int)
    requires Wf(f) && x in f && v.bases.clocks == TableOf(f)
    requires w == if x in v.pristine && f[x].up.None? then
                    v.(bases := v.bases.(clocks := v.bases.clocks[x := Clock(x, -at)]), pristine := v.pristine - {x})
                  else v
    ensures w == Spec.SetOrigin(v, x, at)
  {
    assert v.bases.clocks[x] == ClockOf(f, x);
    assert f[x].up.None? <==> Root(f, x) == x;
  }

  lemma {:induction false} RemovedView<T, D(!new)>(
    f: Forest<T>, g: Forest<T>, x: T, v: Spec.State<T, D>, w: Spec.State<T, D>)
    requires Wf(f) && x in f && AgreeOff(f, g, x) && x !in g && Wf(g)
    requires v.bases.clocks == TableOf(f) && w.bases.clocks == TableOf(g)
    requires w.bases.count == v.bases.count - if f[x].up.None? then 1 else 0
    requires w.order == Without(v.order, x) && w.windows == v.windows - {x}
    requires w.pristine == v.pristine - {x} && w.forwarded == v.forwarded
    ensures Spec.Alone(v.bases.clocks, x) && w == Spec.Remove(v, x)
  {
    RemoveWfIff(f, g, x);
    RemoveLeaf(f, g, x);
    assert TableOf(f)[x] == ClockOf(f, x);
  }

  lemma {:induction false} SyncByGap<T>(b: Spec.Bases<T>, i1: T, at1: int, i2: T, at2: int, gap1: int, gap2: int)
    requires i1 in b.clocks && i2 in b.clocks && b.clocks[i1].root != b.clocks[i2].root
    requires gap1 == at2 - at1 + b.clocks[i2].abs - b.clocks[i1].abs
    requires gap2 == at1 - at2 + b.clocks[i1].abs - b.clocks[i2].abs
    ensures
      var root1, root2 := b.clocks[i1].root, b.clocks[i2].root;
      && Spec.Sync(b, i1, at1, i2, at2).count == b.count - 1
      && (i1 == root1 ==> Spec.Sync(b, i1, at1, i2, at2).clocks == Shift(b.clocks, i1, root2, gap1))
      && (i1 != root1 ==> Spec.Sync(b, i1, at1, i2, at2).clocks == Shift(b.clocks, root2, root1, gap2))
  {
  }

  function InMicros(s: seq<(seq<bv8>, Timeval)>): (r: seq<(seq<bv8>, int)>)
    ensures |r| == |s|
  {
    seq(|s|, i requires 0 <= i < |s| => (s[i].0, s[i].1.Micros()))
  }
}
