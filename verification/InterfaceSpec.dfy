/**
 What the interface manager means, without its pointers: a table that gives each live interface the
 tree it is synchronised with and its absolute offset, the interfaces' windows of recent packets, and
 the packets handed on. The classes in `InterfaceManager` are proved to implement these steps; here the
 steps are shown to keep their invariants over every run.
 */
module InterfaceSpec {
  import opened Sequences
  import opened Timevals
  import opened RecentWindow
  import opened TimeForest

  /** The synchronisation table together with the running count of independent time bases. */
  datatype Bases<T> = Bases(clocks: Table<T>, count: int)

  type Window<D> = seq<Sighting<D, Timeval>>

  datatype State<T, D> = State(
    order: seq<T>,
    bases: Bases<T>,
    windows: map<T, Window<D>>,
    pristine: set<T>,
    forwarded: seq<(seq<bv8>, int)>)

  datatype Op<T> = Create(x: T) | Packet(x: T, data: seq<bv8>, time: Timeval) | Destroy(x: T)

  // ---- the steps

  /** Aligns two interfaces that saw the same frame at local times `at1` and `at2`. */
  function Sync<T(==)>(b: Bases<T>, i1: T, at1: int, i2: T, at2: int): Bases<T>
    requires i1 in b.clocks && i2 in b.clocks
  {
    var c1, c2 := b.clocks[i1], b.clocks[i2];
    if c1.root == c2.root then b
    else if c1.root == i1 then
      Bases(Shift(b.clocks, i1, c2.root, c2.abs + at2 - at1 - c1.abs), b.count - 1)
    else
      Bases(Shift(b.clocks, c2.root, c1.root, c1.abs + at1 - at2 - c2.abs), b.count - 1)
  }

  predicate Holds<T(==), D(==)>(windows: map<T, Window<D>>, h: T, d: D) {
    h in windows && Seen(windows[h], d)
  }

  function StoredTime<D(==)>(w: Window<D>, d: D): Timeval
    requires Seen(w, d)
  {
    w[Position(w, d)].info
  }

  /** Where a frame is remembered, and the local time (in microseconds) of its sighting there. */
  function HeldBy<T(==), D(==)>(windows: map<T, Window<D>>, d: D): map<T, int> {
    map h | h in windows && Seen(windows[h], d) :: StoredTime(windows[h], d).Micros()
  }

  /** One stop of the round: `x` is aligned with `h` when `h` is another interface that holds the frame. */
  function SyncOne<T(==)>(b: Bases<T>, h: T, held: map<T, int>, x: T, at: int): (r: Bases<T>)
    requires x in b.clocks && h in b.clocks
    ensures r.clocks.Keys == b.clocks.Keys
  {
    if h != x && h in held then Sync(b, x, at, h, held[h]) else b
  }

  /** The round over the first k handles. */
  function SyncFirst<T(==)>(b: Bases<T>, order: seq<T>, k: nat, held: map<T, int>, x: T, at: int): (r: Bases<T>)
    requires k <= |order| && x in b.clocks && forall h :: h in order ==> h in b.clocks
    ensures r.clocks.Keys == b.clocks.Keys
  {
    if k == 0 then b
    else SyncOne(SyncFirst(b, order, k - 1, held, x, at), order[k - 1], held, x, at)
  }

  predicate IsDataFrame(data: seq<bv8>) {
    |data| > 0 && data[0] & 0x03 == 1
  }

  /** The two low bits of the first byte are the remainder by four; a frame that is empty or of another type is none. */
  lemma {:induction false} DataFrameIff(data: seq<bv8>)
    ensures IsDataFrame(data) <==> |data| > 0 && data[0] as int % 4 == 1
  {
    if data != [] {
      LowBits(data[0]);
    }
  }

  lemma {:induction false} LowBits(b: bv8)
    ensures b & 0x03 == 1 <==> b as int % 4 == 1
  {
  }

  /** The first packet of an unsynchronised interface is its time origin. */
  function SetOrigin<T(==), D>(s: State<T, D>, x: T, at: int): State<T, D>
    requires x in s.bases.clocks
  {
    if x in s.pristine && s.bases.clocks[x].root == x then
      s.(bases := s.bases.(clocks := s.bases.clocks[x := Clock(x, -at)]), pristine := s.pristine - {x})
    else s
  }

  predicate HeldElsewhere<T(==), D(==)>(s: State<T, D>, x: T, d: D) {
    exists h :: h in s.order && h != x && Holds(s.windows, h, d)
  }

  /** The receiver's window after the arrival. */
  function Record<T(==), D(==)>(s: State<T, D>, x: T, d: D, time: Timeval): State<T, D>
    requires x in s.windows
  {
    s.(windows := s.windows[x := Remember(s.windows[x], d, time)])
  }

  /** Time origin, then alignment with every other interface that saw the frame. */
  function Align<T(==), D(==)>(s: State<T, D>, x: T, d: D, at: int): (s': State<T, D>)
    requires x in s.bases.clocks && forall h :: h in s.order ==> h in s.bases.clocks
    ensures s'.windows == s.windows && s'.order == s.order && s'.forwarded == s.forwarded
    ensures s'.bases.clocks.Keys == s.bases.clocks.Keys
  {
    var o := SetOrigin(s, x, at);
    o.(bases := SyncFirst(o.bases, o.order, |o.order|, HeldBy(o.windows, d), x, at))
  }

  /** The frame goes to the parser unless another interface had already received it. */
  function HandOn<T(==), D>(s: State<T, D>, x: T, data: seq<bv8>, received: bool, at: int): State<T, D>
    requires x in s.bases.clocks
  {
    if received then s
    else s.(forwarded := s.forwarded + [(data, at + s.bases.clocks[x].abs)])
  }

  /** What happens to a frame the receiver does not remember. */
  function ProcessFresh<T(==), D(==)>(s: State<T, D>, x: T, data: seq<bv8>, d: D, at: int): State<T, D>
    requires x in s.bases.clocks && forall h :: h in s.order ==> h in s.bases.clocks
  {
    var a := Align(s, x, d, at);
    HandOn(a, x, data, HeldElsewhere(a, x, d), at)
  }

  function Process<T(==), D(==)>(s: State<T, D>, x: T, data: seq<bv8>, d: D, time: Timeval): State<T, D>
    requires x in s.windows && x in s.bases.clocks
    requires forall h :: h in s.order ==> h in s.bases.clocks
  {
    if !IsDataFrame(data) then s
    else if Seen(s.windows[x], d) then Record(s, x, d, time)
    else ProcessFresh(Record(s, x, d, time), x, data, d, time.Micros())
  }

  /** A new handle is its own time base, at offset 0. */
  function Add<T(==), D>(s: State<T, D>, x: T): State<T, D> {
    State([x] + s.order, Bases(s.bases.clocks[x := Clock(x, 0)], s.bases.count + 1),
          s.windows[x := []], s.pristine + {x}, s.forwarded)
  }

  function Remove<T(==), D>(s: State<T, D>, x: T): State<T, D>
    requires x in s.bases.clocks
  {
    State(Without(s.order, x),
          Bases(s.bases.clocks - {x}, s.bases.count - if s.bases.clocks[x].root == x then 1 else 0),
          s.windows - {x}, s.pristine - {x}, s.forwarded)
  }

  function Step<T(==), D(==)>(s: State<T, D>, op: Op<T>, digest: seq<bv8> -> D): State<T, D>
    requires Enabled(s, op)
  {
    match op
    case Create(x) => Add(s, x)
    case Packet(x, data, time) => Process(s, x, data, digest(data), time)
    case Destroy(x) => Remove(s, x)
  }

  /** Create takes a handle that is not live; destroy one on which no other interface's clock rests. */
  predicate Enabled<T(==), D>(s: State<T, D>, op: Op<T>) {
    match op
    case Create(x) => x !in s.bases.clocks
    case Packet(x, _, _) => x in s.windows && x in s.bases.clocks && forall h :: h in s.order ==> h in s.bases.clocks
    case Destroy(x) => x in s.bases.clocks && Alone(s.bases.clocks, x)
  }

  predicate Alone<T(==)>(t: Table<T>, x: T) {
    forall y :: y in t && y != x ==> t[y].root != x
  }

  // ---- invariants

  ghost predicate DifferAt<T>(s: seq<T>, i: int, j: int)
    requires 0 <= i < |s| && 0 <= j < |s|
  {
    s[i] != s[j]
  }

  /** No element occurs twice. */
  ghost predicate NoDup<T>(s: seq<T>) {
    forall i, j {:trigger DifferAt(s, i, j)} :: 0 <= i < j < |s| ==> DifferAt(s, i, j)
  }

  function Roots<T(==)>(t: Table<T>): set<T> {
    set x | x in t && t[x].root == x
  }

  /** Every interface's tree is named by a live root, and the count of time bases is the number of roots. */
  ghost predicate BasesOk<T>(b: Bases<T>) {
    && (forall x {:trigger RootIsRoot(b.clocks, x)} :: x in b.clocks ==> RootIsRoot(b.clocks, x))
    && b.count == |Roots(b.clocks)|
  }

  ghost predicate RootIsRoot<T>(t: Table<T>, x: T)
    requires x in t
  {
    t[x].root in t && t[t[x].root].root == t[x].root
  }

  ghost predicate Inv<T, D(!new)>(s: State<T, D>) {
    && BasesOk(s.bases)
    && (forall x :: x in s.order ==> x in s.bases.clocks)
    && (forall x :: x in s.bases.clocks ==> x in s.order)
    && s.windows.Keys == s.bases.clocks.Keys
    && NoDup(s.order)
    && WindowsDistinct(s)
    && (forall x {:trigger Untouched(s, x)} :: x in s.pristine ==> Untouched(s, x))
  }

  /** No window holds a digest twice. */
  ghost predicate WindowsDistinct<T, D(!new)>(s: State<T, D>) {
    forall x {:trigger Distinct(s.windows[x])} :: x in s.windows ==> Distinct(s.windows[x])
  }

  /** An interface that has had no packet: an isolated root with an empty window. */
  ghost predicate Untouched<T, D>(s: State<T, D>, x: T) {
    && x in s.bases.clocks && s.bases.clocks[x].root == x && Alone(s.bases.clocks, x)
    && x in s.windows && s.windows[x] == []
  }

  /** Interfaces that share a tree in `t` share one in `u`, at the same relative offset. */
  ghost predicate Rigid<T>(t: Table<T>, u: Table<T>, x: T, y: T)
    requires x in t && y in t && x in u && y in u
  {
    t[x].root == t[y].root ==> u[x].root == u[y].root && u[x].abs - u[y].abs == t[x].abs - t[y].abs
  }

  ghost predicate AllRigid<T>(t: Table<T>, u: Table<T>) {
    && u.Keys == t.Keys
    && forall x, y {:trigger Rigid(t, u, x, y)} :: x in t && y in t ==> Rigid(t, u, x, y)
  }

  lemma {:induction false} AllRigidTransitive<T>(t: Table<T>, u: Table<T>, v: Table<T>)
    requires AllRigid(t, u) && AllRigid(u, v)
    ensures AllRigid(t, v)
  {
    forall x, y | x in t && y in t
      ensures Rigid(t, v, x, y)
    {
      assert Rigid(t, u, x, y) && Rigid(u, v, x, y);
    }
  }

  // ---- one alignment

  lemma {:induction false} ShiftMergesTwoTrees<T>(b: Bases<T>, src: T, dest: T, gap: int)
    requires BasesOk(b) && src in Roots(b.clocks) && dest in Roots(b.clocks) && src != dest
    ensures BasesOk(Bases(Shift(b.clocks, src, dest, gap), b.count - 1))
    ensures AllRigid(b.clocks, Shift(b.clocks, src, dest, gap))
  {
    var t := Shift(b.clocks, src, dest, gap);
    assert t.Keys == b.clocks.Keys;
    forall x | x in t
      ensures RootIsRoot(t, x)
    {
      assert RootIsRoot(b.clocks, x);
    }
    assert Roots(t) == Roots(b.clocks) - {src};
  }

  /** `interfacemgr_sync_time` on tables: trees stay rigid, two distinct trees become one, the two sightings of the
      frame get the same absolute time, and no third tree is touched. */
  lemma {:induction false} SyncAligns<T>(b: Bases<T>, i1: T, at1: int, i2: T, at2: int)
    requires BasesOk(b) && i1 in b.clocks && i2 in b.clocks
    ensures
      var t, u := b.clocks, Sync(b, i1, at1, i2, at2).clocks;
      && BasesOk(Sync(b, i1, at1, i2, at2))
      && AllRigid(t, u)
      && u[i1].root == u[i2].root
      && (t[i1].root != t[i2].root ==> u[i1].abs + at1 == u[i2].abs + at2)
      && (forall x :: x in t && t[x].root != t[i1].root && t[x].root != t[i2].root ==> u[x] == t[x])
  {
    var t := b.clocks;
    assert RootIsRoot(t, i1) && RootIsRoot(t, i2);
    if t[i1].root != t[i2].root {
      if t[i1].root == i1 {
        ShiftMergesTwoTrees(b, i1, t[i2].root, t[i2].abs + at2 - at1 - t[i1].abs);
      } else {
        ShiftMergesTwoTrees(b, t[i2].root, t[i1].root, t[i1].abs + at1 - at2 - t[i2].abs);
      }
    }
  }

  /** A round over the handles keeps trees rigid and joins `x` with every holder of the frame. */
  lemma {:induction false} SyncFirstAligns<T>(b: Bases<T>, order: seq<T>, k: nat, held: map<T, int>, x: T, at: int)
    requires BasesOk(b) && k <= |order| && x in b.clocks && forall h :: h in order ==> h in b.clocks
    ensures
      var t, u := b.clocks, SyncFirst(b, order, k, held, x, at).clocks;
      && BasesOk(SyncFirst(b, order, k, held, x, at))
      && AllRigid(t, u)
      && (forall j :: 0 <= j < k && order[j] in held ==> u[order[j]].root == u[x].root)
  {
    if k == 0 {
    } else {
      var b', h := SyncFirst(b, order, k - 1, held, x, at), order[k - 1];
      SyncFirstAligns(b, order, k - 1, held, x, at);
      if h != x && h in held {
        SyncAligns(b', x, at, h, held[h]);
        var u := SyncFirst(b, order, k, held, x, at).clocks;
        AllRigidTransitive(b.clocks, b'.clocks, u);
        forall j | 0 <= j < k - 1 && order[j] in held
          ensures u[order[j]].root == u[x].root
        {
          assert Rigid(b'.clocks, u, order[j], x);
        }
      }
    }
  }

  /** It leaves alone an isolated interface that does not hold the frame. */
  lemma {:induction false} SyncFirstSpares<T>(b: Bases<T>, order: seq<T>, k: nat, held: map<T, int>, x: T, at: int, p: T)
    requires BasesOk(b) && k <= |order| && x in b.clocks && forall h :: h in order ==> h in b.clocks
    requires p in b.clocks && p != x && b.clocks[p].root == p && Alone(b.clocks, p) && p !in held
    ensures
      var u := SyncFirst(b, order, k, held, x, at).clocks;
      u[p] == b.clocks[p] && Alone(u, p)
  {
    if k == 0 {
    } else {
      var b', h := SyncFirst(b, order, k - 1, held, x, at), order[k - 1];
      SyncFirstSpares(b, order, k - 1, held, x, at, p);
      SyncFirstAligns(b, order, k - 1, held, x, at);
      if h != x && h in held {
        SyncAligns(b', x, at, h, held[h]);
        assert RootIsRoot(b'.clocks, x) && RootIsRoot(b'.clocks, h);
      }
    }
  }

  // ---- one step

  lemma {:induction false} NoDupCons<T>(x: T, s: seq<T>)
    ensures NoDup([x] + s) <==> x !in s && NoDup(s)
  {
    var r := [x] + s;
    if NoDup(r) {
      forall i | 0 <= i < |s| ensures s[i] != x { assert DifferAt(r, 0, i + 1); }
      forall i, j | 0 <= i < j < |s| ensures DifferAt(s, i, j) { assert DifferAt(r, i + 1, j + 1); }
    }
    if x !in s && NoDup(s) {
      forall i, j | 0 <= i < j < |r| ensures DifferAt(r, i, j) {
        if i > 0 { assert DifferAt(s, i - 1, j - 1); }
      }
    }
  }

  lemma {:induction false} WithoutRemoves<T>(order: seq<T>, x: T)
    requires NoDup(order)
    ensures forall y :: y in Without(order, x) ==> y in order && y != x
    ensures forall y :: y in order && y != x ==> y in Without(order, x)
    ensures NoDup(Without(order, x))
  {
    if order == [] {
    } else {
      assert order == [order[0]] + order[1..];
      NoDupCons(order[0], order[1..]);
      if order[0] != x {
        WithoutRemoves(order[1..], x);
        NoDupCons(order[0], Without(order[1..], x));
      }
    }
  }

  lemma {:induction false} OriginKeepsInv<T, D(!new)>(s: State<T, D>, x: T, at: int)
    requires x in s.bases.clocks && BasesOk(s.bases)
    requires forall p :: p in s.pristine ==> p in s.bases.clocks && s.bases.clocks[p].root == p && Alone(s.bases.clocks, p)
    ensures
      var t, u := s.bases.clocks, SetOrigin(s, x, at).bases.clocks;
      && BasesOk(SetOrigin(s, x, at).bases)
      && AllRigid(t, u)
      && x !in SetOrigin(s, x, at).pristine
      && (forall y :: y in t ==> u[y].root == t[y].root)
  {
    var t, u := s.bases.clocks, SetOrigin(s, x, at).bases.clocks;
    assert Roots(u) == Roots(t);
    forall y | y in u
      ensures RootIsRoot(u, y)
    {
      assert RootIsRoot(t, y);
    }
  }

  /** The invariant between recording a frame at `x` and aligning `x`. */
  ghost predicate RecordedInv<T, D(!new)>(s: State<T, D>, x: T) {
    && BasesOk(s.bases)
    && (forall y :: y in s.order ==> y in s.bases.clocks)
    && (forall y :: y in s.bases.clocks ==> y in s.order)
    && s.windows.Keys == s.bases.clocks.Keys
    && NoDup(s.order)
    && WindowsDistinct(s)
    && (forall p {:trigger Isolated(s, x, p)} :: p in s.pristine ==> Isolated(s, x, p))
  }

  ghost predicate Isolated<T, D>(s: State<T, D>, x: T, p: T) {
    && p in s.bases.clocks && s.bases.clocks[p].root == p && Alone(s.bases.clocks, p)
    && p in s.windows && (p != x ==> s.windows[p] == [])
  }

  lemma {:induction false} RecordKeepsInv<T, D(!new)>(s: State<T, D>, x: T, d: D, time: Timeval)
    requires Inv(s) && x in s.bases.clocks
    ensures RecordedInv(Record(s, x, d, time), x)
    ensures Seen(s.windows[x], d) ==> Inv(Record(s, x, d, time))
  {
    var r := Record(s, x, d, time);
    assert Distinct(s.windows[x]);
    RememberDistinct(s.windows[x], d, time);
    forall y | y in r.windows ensures Distinct(r.windows[y]) {
      assert y != x ==> r.windows[y] == s.windows[y] && Distinct(s.windows[y]);
    }
    forall p | p in s.pristine
      ensures Isolated(r, x, p) && (Seen(s.windows[x], d) ==> Untouched(r, p))
    {
      assert Untouched(s, p);
    }
  }

  lemma {:induction false} AlignKeepsInv<T, D(!new)>(s: State<T, D>, x: T, d: D, at: int)
    requires RecordedInv(s, x) && x in s.bases.clocks
    ensures Inv(Align(s, x, d, at))
    ensures AllRigid(s.bases.clocks, Align(s, x, d, at).bases.clocks)
    ensures forall h :: h in s.order && Holds(s.windows, h, d) ==>
              Align(s, x, d, at).bases.clocks[h].root == Align(s, x, d, at).bases.clocks[x].root
  {
    forall p | p in s.pristine
      ensures p in s.bases.clocks && s.bases.clocks[p].root == p && Alone(s.bases.clocks, p)
    {
      assert Isolated(s, x, p);
    }
    OriginKeepsInv(s, x, at);
    var o, s' := SetOrigin(s, x, at), Align(s, x, d, at);
    SyncFirstAligns(o.bases, o.order, |o.order|, HeldBy(o.windows, d), x, at);
    AllRigidTransitive(s.bases.clocks, o.bases.clocks, s'.bases.clocks);
    forall p | p in s'.pristine
      ensures Untouched(s', p)
    {
      assert Isolated(s, x, p);
      SyncFirstSpares(o.bases, o.order, |o.order|, HeldBy(o.windows, d), x, at, p);
    }
  }

  lemma {:induction false} HandOnKeepsInv<T, D(!new)>(s: State<T, D>, x: T, data: seq<bv8>, received: bool, at: int)
    requires Inv(s) && x in s.bases.clocks
    ensures Inv(HandOn(s, x, data, received, at)) && HandOn(s, x, data, received, at).bases == s.bases
  {
    var f := HandOn(s, x, data, received, at);
    forall p | p in f.pristine ensures Untouched(f, p) { assert Untouched(s, p); }
  }

  lemma {:induction false} FreshFrameKeepsInv<T, D(!new)>(
    s: State<T, D>, x: T, data: seq<bv8>, d: D, time: Timeval)
    requires Inv(s) && x in s.bases.clocks && IsDataFrame(data) && !Seen(s.windows[x], d)
    ensures Inv(Process(s, x, data, d, time))
    ensures AllRigid(s.bases.clocks, Process(s, x, data, d, time).bases.clocks)
  {
    var r := Record(s, x, d, time);
    RecordKeepsInv(s, x, d, time);
    AlignKeepsInv(r, x, d, time.Micros());
    var a := Align(r, x, d, time.Micros());
    HandOnKeepsInv(a, x, data, HeldElsewhere(a, x, d), time.Micros());
  }

  lemma {:induction false} ProcessKeepsInv<T, D(!new)>(s: State<T, D>, x: T, data: seq<bv8>, d: D, time: Timeval)
    requires Inv(s) && x in s.bases.clocks
    ensures Inv(Process(s, x, data, d, time))
    ensures AllRigid(s.bases.clocks, Process(s, x, data, d, time).bases.clocks)
  {
    if IsDataFrame(data) {
      if Seen(s.windows[x], d) {
        RecordKeepsInv(s, x, d, time);
      } else {
        FreshFrameKeepsInv(s, x, data, d, time);
      }
    }
  }

  lemma {:induction false} SameHolders<T, D(!new)>(s: State<T, D>, r: State<T, D>, x: T, d: D)
    requires r.order == s.order
    requires forall h :: h in s.order && h != x ==> Holds(r.windows, h, d) == Holds(s.windows, h, d)
    ensures HeldElsewhere(r, x, d) == HeldElsewhere(s, x, d)
  {
  }

  lemma {:induction false} FreshFrame<T, D(!new)>(s: State<T, D>, x: T, data: seq<bv8>, d: D, time: Timeval)
    requires Inv(s) && x in s.bases.clocks && IsDataFrame(data) && !Seen(s.windows[x], d)
    ensures
      var s' := Process(s, x, data, d, time);
      && x in s'.bases.clocks
      && s'.forwarded == (if HeldElsewhere(s, x, d) then s.forwarded
                          else s.forwarded + [(data, time.Micros() + s'.bases.clocks[x].abs)])
      && s'.windows == s.windows[x := Remember(s.windows[x], d, time)]
      && forall h :: h in s'.order && Holds(s'.windows, h, d) ==>
           h in s'.bases.clocks && s'.bases.clocks[h].root == s'.bases.clocks[x].root
  {
    RecordKeepsInv(s, x, d, time);
    var r := Record(s, x, d, time);
    AlignKeepsInv(r, x, d, time.Micros());
    SameHolders(s, Align(r, x, d, time.Micros()), x, d);
  }

  /** A frame that is empty or whose first byte does not leave 1 by division by four changes nothing. Any other is handed
      on exactly when no live interface remembers its digest, stamped with the receiver's absolute time; the receiver
      remembers it from now on; and unless it did before, it then shares its time base with every interface that does. */
  lemma {:induction false} ForwardedIff<T, D(!new)>(s: State<T, D>, x: T, data: seq<bv8>, d: D, time: Timeval)
    requires Inv(s) && x in s.bases.clocks
    ensures
      var s' := Process(s, x, data, d, time);
      if |data| == 0 || data[0] as int % 4 != 1 then s' == s
      else
        && x in s'.bases.clocks
        && s'.windows == s.windows[x := Remember(s.windows[x], d, time)]
        && s'.forwarded == (if exists h :: h in s.order && Holds(s.windows, h, d) then s.forwarded
                            else s.forwarded + [(data, time.Micros() + s'.bases.clocks[x].abs)])
        && (!Seen(s.windows[x], d) ==>
              forall h :: h in s'.order && Holds(s'.windows, h, d) ==>
                h in s'.bases.clocks && s'.bases.clocks[h].root == s'.bases.clocks[x].root)
  {
    DataFrameIff(data);
    if IsDataFrame(data) {
      if Seen(s.windows[x], d) {
        assert x in s.order && Holds(s.windows, x, d);
      } else {
        FreshFrame(s, x, data, d, time);
      }
    }
  }

  lemma {:induction false} AddKeepsBases<T>(b: Bases<T>, x: T)
    requires BasesOk(b) && x !in b.clocks
    ensures BasesOk(Bases(b.clocks[x := Clock(x, 0)], b.count + 1))
    ensures Alone(b.clocks, x)
  {
    var u := b.clocks[x := Clock(x, 0)];
    forall y | y in b.clocks ensures b.clocks[y].root != x { assert RootIsRoot(b.clocks, y); }
    forall y | y in u ensures RootIsRoot(u, y) {
      if y in b.clocks { assert RootIsRoot(b.clocks, y); }
    }
    assert Roots(u) == Roots(b.clocks) + {x};
  }

  lemma {:induction false} CreateKeepsInv<T, D(!new)>(s: State<T, D>, x: T)
    requires Inv(s) && x !in s.bases.clocks
    ensures Inv(Add(s, x))
  {
    var s' := Add(s, x);
    AddKeepsBases(s.bases, x);
    NoDupCons(x, s.order);
    forall p | p in s'.pristine ensures Untouched(s', p) {
      if p in s.pristine { assert Untouched(s, p); }
    }
  }

  lemma {:induction false} RemoveKeepsBases<T>(b: Bases<T>, x: T)
    requires BasesOk(b) && x in b.clocks && Alone(b.clocks, x)
    ensures BasesOk(Bases(b.clocks - {x}, b.count - if b.clocks[x].root == x then 1 else 0))
  {
    var u := b.clocks - {x};
    forall y | y in u ensures RootIsRoot(u, y) { assert RootIsRoot(b.clocks, y); }
    assert Roots(u) == Roots(b.clocks) - {x};
  }

  lemma {:induction false} DestroyKeepsInv<T, D(!new)>(s: State<T, D>, x: T)
    requires Inv(s) && x in s.bases.clocks && Alone(s.bases.clocks, x)
    ensures Inv(Remove(s, x))
  {
    var s' := Remove(s, x);
    WithoutRemoves(s.order, x);
    RemoveKeepsBases(s.bases, x);
    forall p | p in s'.pristine ensures Untouched(s', p) { assert Untouched(s, p); }
  }

  lemma {:induction false} StepKeepsInv<T, D(!new)>(s: State<T, D>, op: Op<T>, digest: seq<bv8> -> D)
    requires Inv(s) && Enabled(s, op)
    ensures Inv(Step(s, op, digest))
  {
    match op
    case Packet(x, data, time) => ProcessKeepsInv(s, x, data, digest(data), time);
    case Create(x) => CreateKeepsInv(s, x);
    case Destroy(x) => DestroyKeepsInv(s, x);
  }

  lemma {:induction false} StepIsRigid<T, D(!new)>(s: State<T, D>, op: Op<T>, digest: seq<bv8> -> D, x: T, y: T)
    requires Inv(s) && Enabled(s, op) && x in s.bases.clocks && y in s.bases.clocks
    requires op != Destroy(x) && op != Destroy(y)
    ensures
      var u := Step(s, op, digest).bases.clocks;
      x in u && y in u && Rigid(s.bases.clocks, u, x, y)
  {
    if op.Packet? {
      ProcessKeepsInv(s, op.x, op.data, digest(op.data), op.time);
    }
  }

  // ---- every run

  ghost predicate CanRun<T, D(!new)>(s: State<T, D>, ops: seq<Op<T>>, digest: seq<bv8> -> D)
    decreases |ops|
  {
    ops == [] || (Enabled(s, ops[0]) && CanRun(Step(s, ops[0], digest), ops[1..], digest))
  }

  ghost function Run<T, D(!new)>(s: State<T, D>, ops: seq<Op<T>>, digest: seq<bv8> -> D): State<T, D>
    requires CanRun(s, ops, digest)
    decreases |ops|
  {
    if ops == [] then s else Run(Step(s, ops[0], digest), ops[1..], digest)
  }

  /** No handle has been created. */
  function Start<T(==), D>(): State<T, D> {
    State([], Bases(map[], 0), map[], {}, [])
  }

  lemma {:induction false} EmptyIsInv<T, D(!new)>()
    ensures Inv(Start<T, D>())
  {
    assert Roots(Start<T, D>().bases.clocks) == {};
  }

  lemma {:induction false} RunKeepsInv<T, D(!new)>(s: State<T, D>, ops: seq<Op<T>>, digest: seq<bv8> -> D)
    requires Inv(s) && CanRun(s, ops, digest)
    ensures Inv(Run(s, ops, digest))
    decreases |ops|
  {
    if ops == [] {
    } else {
      StepKeepsInv(s, ops[0], digest);
      RunKeepsInv(Step(s, ops[0], digest), ops[1..], digest);
    }
  }

  /** Once two interfaces share a time base, their relative offset never changes while both live. */
  lemma {:induction false} RunIsRigid<T, D(!new)>(
    s: State<T, D>, ops: seq<Op<T>>, digest: seq<bv8> -> D, x: T, y: T)
    requires Inv(s) && CanRun(s, ops, digest) && x in s.bases.clocks && y in s.bases.clocks
    requires Destroy(x) !in ops && Destroy(y) !in ops
    ensures x in Run(s, ops, digest).bases.clocks && y in Run(s, ops, digest).bases.clocks
    ensures Rigid(s.bases.clocks, Run(s, ops, digest).bases.clocks, x, y)
    decreases |ops|
  {
    if ops == [] {
    } else {
      assert ops == [ops[0]] + ops[1..];
      StepKeepsInv(s, ops[0], digest);
      StepIsRigid(s, ops[0], digest, x, y);
      RunIsRigid(Step(s, ops[0], digest), ops[1..], digest, x, y);
    }
  }

  /** The data frames that reach one interface during a run. */
  function Arrivals<T(==), D>(ops: seq<Op<T>>, x: T, digest: seq<bv8> -> D): seq<Sighting<D, Timeval>> {
    if ops == [] then []
    else
      var rest := Arrivals(ops[1..], x, digest);
      if ops[0].Packet? && ops[0].x == x && |ops[0].data| > 0 && ops[0].data[0] as int % 4 == 1 then
        [Sighting(digest(ops[0].data), ops[0].time)] + rest
      else rest
  }

  lemma {:induction false} StepWindow<T, D(!new)>(s: State<T, D>, op: Op<T>, digest: seq<bv8> -> D, x: T)
    requires Inv(s) && Enabled(s, op) && x in s.windows && op != Destroy(x)
    ensures x in Step(s, op, digest).windows
    ensures Step(s, op, digest).windows[x] ==
            if op.Packet? && op.x == x && |op.data| > 0 && op.data[0] as int % 4 == 1
            then Remember(s.windows[x], digest(op.data), op.time)
            else s.windows[x]
  {
    if op.Packet? {
      DataFrameIff(op.data);
    }
  }

  lemma {:induction false} ArrivalsCons<T, D(!new)>(ops: seq<Op<T>>, x: T, digest: seq<bv8> -> D)
    requires ops != []
    ensures Arrivals(ops, x, digest) == Arrivals([ops[0]], x, digest) + Arrivals(ops[1..], x, digest)
  {
    assert [ops[0]][1..] == [];
  }

  lemma {:induction false} AppendAssociates<A>(a: seq<A>, b: seq<A>, c: seq<A>)
    ensures (a + b) + c == a + (b + c)
  {
  }

  lemma {:induction false} StepReplay<T, D(!new)>(
    s: State<T, D>, op: Op<T>, digest: seq<bv8> -> D, x: T, h: seq<Sighting<D, Timeval>>)
    requires Inv(s) && Enabled(s, op) && x in s.windows && op != Destroy(x) && s.windows[x] == Replay(h)
    ensures x in Step(s, op, digest).windows
    ensures Step(s, op, digest).windows[x] == Replay(h + Arrivals([op], x, digest))
  {
    StepWindow(s, op, digest, x);
    assert [op][1..] == [];
    if op.Packet? && op.x == x && |op.data| > 0 && op.data[0] as int % 4 == 1 {
      var a := Sighting(digest(op.data), op.time);
      assert Arrivals([op], x, digest) == [a];
      ReplaySnoc(h, a);
    } else {
      assert h + Arrivals([op], x, digest) == h;
    }
  }

  /** Over every run, an interface's window is what its own arrivals leave in it. */
  lemma {:induction false} RunWindow<T, D(!new)>(
    s: State<T, D>, ops: seq<Op<T>>, digest: seq<bv8> -> D, x: T, h: seq<Sighting<D, Timeval>>)
    requires Inv(s) && CanRun(s, ops, digest) && x in s.windows && s.windows[x] == Replay(h)
    requires Destroy(x) !in ops
    ensures x in Run(s, ops, digest).windows
    ensures Run(s, ops, digest).windows[x] == Replay(h + Arrivals(ops, x, digest))
    decreases |ops|
  {
    if ops == [] {
      assert h + [] == h;
    } else {
      assert ops == [ops[0]] + ops[1..];
      StepKeepsInv(s, ops[0], digest);
      StepReplay(s, ops[0], digest, x, h);
      ArrivalsCons(ops, x, digest);
      var now, later := Arrivals([ops[0]], x, digest), Arrivals(ops[1..], x, digest);
      RunWindow(Step(s, ops[0], digest), ops[1..], digest, x, h + now);
      AppendAssociates(h, now, later);
    }
  }
}
