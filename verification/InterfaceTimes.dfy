/**
 The clocks after a frame that several interfaces have seen, clock by clock: which trees are joined, what is aligned with
 what, and which clocks stay.
 */
module InterfaceTimes {
  import opened InterfaceRuns
  import opened InterfaceSpec
  import opened RecentWindow
  import opened TimeForest
  import opened Timevals

  /** Another interface that holds the frame, in another tree than the receiver. */
  predicate Outside<T(==)>(t: Table<T>, held: map<T, int>, x: T, h: T)
    requires x in t && h in t
  {
    h != x && h in held && t[h].root != t[x].root
  }

  /** Among the first k handles one of the tree of y holds the frame, and the receiver is in another. */
  ghost predicate Reached<T>(t: Table<T>, order: seq<T>, k: nat, held: map<T, int>, x: T, y: T)
    requires k <= |order| && x in t && y in t && forall h :: h in order ==> h in t
  {
    exists i: nat {:trigger order[i]} :: i < k && Outside(t, held, x, order[i]) && t[order[i]].root == t[y].root
  }

  lemma {:induction false} ReachedSnoc<T>(t: Table<T>, order: seq<T>, k: nat, held: map<T, int>, x: T, y: T)
    requires 0 < k <= |order| && x in t && y in t && forall h :: h in order ==> h in t
    ensures Reached(t, order, k, held, x, y) <==>
              Reached(t, order, k - 1, held, x, y)
              || (Outside(t, held, x, order[k - 1]) && t[order[k - 1]].root == t[y].root)
  {
  }

  /** One alignment: if the first interface is the root of its tree, its tree moves, otherwise that of the second. */
  lemma {:induction false} SyncMoves<T>(b: Bases<T>, i1: T, at1: int, i2: T, at2: int, y: T)
    requires BasesOk(b) && i1 in b.clocks && i2 in b.clocks && y in b.clocks
    ensures
      var t, u := b.clocks, Sync(b, i1, at1, i2, at2).clocks;
      if t[i1].root == t[i2].root then u[y] == t[y]
      else
        && u[i1].abs + at1 == u[i2].abs + at2 && u[i1].root == u[i2].root
        && (u[y].root == u[i1].root <==> t[y].root == t[i1].root || t[y].root == t[i2].root)
        && (t[y].root != (if t[i1].root == i1 then i1 else t[i2].root) ==> u[y] == t[y])
        && u[i1].root != i1
  {
    assert RootIsRoot(b.clocks, i1) && RootIsRoot(b.clocks, i2) && RootIsRoot(b.clocks, y);
  }

  /** The tree of the receiver afterwards is made of its own tree and the trees of the holders; no other clock moves. */
  lemma {:induction false} JoinedIff<T>(b: Bases<T>, order: seq<T>, k: nat, held: map<T, int>, x: T, at: int, y: T)
    requires BasesOk(b) && k <= |order| && x in b.clocks && y in b.clocks && forall h :: h in order ==> h in b.clocks
    ensures
      var t, u := b.clocks, SyncFirst(b, order, k, held, x, at).clocks;
      && (u[y].root == u[x].root <==> t[y].root == t[x].root || Reached(t, order, k, held, x, y))
      && (u[y].root != u[x].root ==> u[y] == t[y])
  {
    if k == 0 {
    } else {
      var b', h := SyncFirst(b, order, k - 1, held, x, at), order[k - 1];
      SyncFirstAligns(b, order, k - 1, held, x, at);
      JoinedIff(b, order, k - 1, held, x, at, y);
      JoinedIff(b, order, k - 1, held, x, at, h);
      ReachedSnoc(b.clocks, order, k, held, x, y);
      if h != x && h in held {
        SyncMoves(b', x, at, h, held[h], y);
        SyncMoves(b', x, at, h, held[h], x);
      }
    }
  }

  /** The first holder of its tree. */
  ghost predicate Leads<T>(t: Table<T>, order: seq<T>, held: map<T, int>, x: T, j: nat)
    requires x in t && forall h :: h in order ==> h in t
  {
    j < |order| && Outside(t, held, x, order[j]) && !Reached(t, order, j, held, x, order[j])
  }

  /** The stop at which the tree of a holder is joined. */
  lemma {:induction false} LeaderJoins<T>(b: Bases<T>, order: seq<T>, held: map<T, int>, x: T, at: int, j: nat)
    requires BasesOk(b) && x in b.clocks && forall h :: h in order ==> h in b.clocks
    requires Leads(b.clocks, order, held, x, j)
    ensures
      var u := SyncFirst(b, order, j + 1, held, x, at).clocks;
      u[order[j]].abs + held[order[j]] == u[x].abs + at && u[order[j]].root == u[x].root
  {
    hide Reached;
    SyncFirstAligns(b, order, j, held, x, at);
    JoinedIff(b, order, j, held, x, at, order[j]);
    SyncAligns(SyncFirst(b, order, j, held, x, at), x, at, order[j], held[order[j]]);
  }

  /** The frame gets one absolute time at the receiver and at the first holder of every other tree. */
  lemma {:induction false} LeaderAligned<T>(b: Bases<T>, order: seq<T>, k: nat, held: map<T, int>, x: T, at: int, j: nat)
    requires BasesOk(b) && j < k <= |order| && x in b.clocks && forall h :: h in order ==> h in b.clocks
    requires Leads(b.clocks, order, held, x, j)
    ensures
      var u := SyncFirst(b, order, k, held, x, at).clocks;
      u[order[j]].abs + held[order[j]] == u[x].abs + at && u[order[j]].root == u[x].root
  {
    hide BasesOk, Sync;
    if k == j + 1 {
      LeaderJoins(b, order, held, x, at, j);
    } else {
      var b', h := SyncFirst(b, order, k - 1, held, x, at), order[k - 1];
      SyncFirstAligns(b, order, k - 1, held, x, at);
      LeaderAligned(b, order, k - 1, held, x, at, j);
      if h != x && h in held {
        SyncAligns(b', x, at, h, held[h]);
        assert Rigid(b'.clocks, SyncFirst(b, order, k, held, x, at).clocks, order[j], x);
      }
    }
  }

  /** Once the receiver hangs below another interface, its tree no longer moves. */
  lemma {:induction false} HangingStays<T>(b: Bases<T>, order: seq<T>, j: nat, k: nat, held: map<T, int>, x: T, at: int, y: T)
    requires BasesOk(b) && j <= k <= |order| && x in b.clocks && y in b.clocks && forall h :: h in order ==> h in b.clocks
    requires SyncFirst(b, order, j, held, x, at).clocks[x].root != x
    requires SyncFirst(b, order, j, held, x, at).clocks[y].root == SyncFirst(b, order, j, held, x, at).clocks[x].root
    ensures SyncFirst(b, order, k, held, x, at).clocks[y] == SyncFirst(b, order, j, held, x, at).clocks[y]
  {
    hide BasesOk, Sync;
    if k == j {
    } else {
      var b', h := SyncFirst(b, order, k - 1, held, x, at), order[k - 1];
      SyncFirstAligns(b, order, k - 1, held, x, at);
      HangingStays(b, order, j, k - 1, held, x, at, y);
      HangingStays(b, order, j, k - 1, held, x, at, x);
      if h != x && h in held {
        SyncMoves(b', x, at, h, held[h], y);
      }
    }
  }

  lemma {:induction false} NobodyOutside<T>(b: Bases<T>, order: seq<T>, k: nat, held: map<T, int>, x: T, at: int)
    requires BasesOk(b) && k <= |order| && x in b.clocks && forall h :: h in order ==> h in b.clocks
    requires forall i: nat :: i < k ==> !Outside(b.clocks, held, x, order[i])
    ensures SyncFirst(b, order, k, held, x, at) == b
  {
    if k == 0 {
    } else {
      NobodyOutside(b, order, k - 1, held, x, at);
    }
  }

  /** The first of all holders outside the tree of the receiver. */
  ghost predicate First<T>(t: Table<T>, order: seq<T>, held: map<T, int>, x: T, j: nat)
    requires x in t && forall h :: h in order ==> h in t
  {
    j < |order| && Outside(t, held, x, order[j]) && forall i: nat :: i < j ==> !Outside(t, held, x, order[i])
  }

  /** Whose clocks stay: those of the receiver's tree if the receiver hangs below another interface, and those of the tree
      of the first holder otherwise. */
  lemma {:induction false} FirstStays<T>(b: Bases<T>, order: seq<T>, j: nat, held: map<T, int>, x: T, at: int)
    requires BasesOk(b) && x in b.clocks && forall h :: h in order ==> h in b.clocks
    requires b.clocks[x].root == x && First(b.clocks, order, held, x, j)
    ensures SyncFirst(b, order, |order|, held, x, at).clocks[order[j]] == b.clocks[order[j]]
  {
    var h := order[j];
    NobodyOutside(b, order, j, held, x, at);
    SyncMoves(b, x, at, h, held[h], h);
    SyncMoves(b, x, at, h, held[h], x);
    assert RootIsRoot(b.clocks, h);
    assert SyncFirst(b, order, j + 1, held, x, at) == Sync(b, x, at, h, held[h]);
    HangingStays(b, order, j + 1, |order|, held, x, at, h);
  }

  // ---- a frame

  /** Where a frame is remembered other than at its receiver, and its local time there. */
  function HeldElsewhereAt<T(==), D(==)>(s: State<T, D>, x: T, d: D): map<T, int> {
    map h | h in s.windows && h != x && Seen(s.windows[h], d) :: s.windows[h][Position(s.windows[h], d)].info.Micros()
  }

  /** The clocks once the receiver has its origin: the first frame of an interface is at time 0 of its clock. */
  function Started<T(==), D>(s: State<T, D>, x: T, time: Timeval): Table<T>
    requires x in s.bases.clocks
  {
    if x in s.pristine then s.bases.clocks[x := Clock(x, -time.Micros())] else s.bases.clocks
  }

  lemma {:induction false} SameOutside<T>(t: Table<T>, order: seq<T>, held: map<T, int>, held1: map<T, int>, x: T, y: T, k: nat)
    requires x in t && y in t && k <= |order| && forall h :: h in order ==> h in t
    requires held1 == held - {x}
    ensures Reached(t, order, k, held, x, y) <==> Reached(t, order, k, held1, x, y)
    ensures forall j: nat :: Leads(t, order, held, x, j) <==> Leads(t, order, held1, x, j)
  {
  }

  lemma {:induction false} OriginStarts<T, D(!new)>(s: State<T, D>, x: T, d: D, time: Timeval)
    requires Inv(s) && x in s.bases.clocks
    ensures var o := SetOrigin(Record(s, x, d, time), x, time.Micros());
            BasesOk(o.bases) && o.bases == Bases(Started(s, x, time), s.bases.count) && o.order == s.order
  {
    RecordKeepsInv(s, x, d, time);
    var r := Record(s, x, d, time);
    forall p | p in r.pristine
      ensures p in r.bases.clocks && r.bases.clocks[p].root == p && Alone(r.bases.clocks, p)
    {
      assert Isolated(r, x, p);
    }
    OriginKeepsInv(r, x, time.Micros());
    assert x in s.pristine ==> Untouched(s, x);
  }

  /** The clocks of a frame that its receiver does not remember are those of the round over the handles, from where the
      receiver has its origin. */
  lemma {:induction false} FreshClocks<T, D(!new)>(s: State<T, D>, x: T, data: seq<bv8>, d: D, time: Timeval) returns (held: map<T, int>)
    requires Inv(s) && x in s.bases.clocks && |data| > 0 && data[0] as int % 4 == 1 && !Seen(s.windows[x], d)
    ensures var b := Bases(Started(s, x, time), s.bases.count);
            && BasesOk(b) && b.clocks.Keys == s.bases.clocks.Keys && HeldElsewhereAt(s, x, d) == held - {x}
            && (forall h :: h in s.order ==> h in b.clocks)
            && Process(s, x, data, d, time).bases == SyncFirst(b, s.order, |s.order|, held, x, time.Micros())
  {
    hide BasesOk, SetOrigin, SyncFirst, Remember, Started;
    DataFrameIff(data);
    OriginStarts(s, x, d, time);
    SameKeys(s, x, time);
    held := HeldBy(Record(s, x, d, time).windows, d);
  }

  lemma {:induction false} SameKeys<T, D(!new)>(s: State<T, D>, x: T, time: Timeval)
    requires x in s.bases.clocks
    ensures Started(s, x, time).Keys == s.bases.clocks.Keys
  {
  }

  /** The clock of any interface y after such a frame. The receiver's tree is joined with the trees of all holders, and no
      clock outside moves; nor does one of the receiver's tree, if the receiver hangs below another interface. */
  lemma {:induction false} FrameJoins<T, D(!new)>(s: State<T, D>, x: T, data: seq<bv8>, d: D, time: Timeval, y: T)
    requires Inv(s) && x in s.bases.clocks && |data| > 0 && data[0] as int % 4 == 1 && !Seen(s.windows[x], d)
    requires y in s.bases.clocks
    ensures var t, u, held := Started(s, x, time), Process(s, x, data, d, time).bases.clocks, HeldElsewhereAt(s, x, d);
            && x in u && y in u
            && (u[y].root == u[x].root <==> t[y].root == t[x].root || Reached(t, s.order, |s.order|, held, x, y))
            && (u[y].root != u[x].root ==> u[y] == t[y])
            && (t[y].root == t[x].root != x ==> u[y] == t[y])
  {
    hide Process, Inv;
    InvOrder(s);
    var held := FreshClocks(s, x, data, d, time);
    var b := Bases(Started(s, x, time), s.bases.count);
    JoinedIff(b, s.order, |s.order|, held, x, time.Micros(), y);
    SameOutside(b.clocks, s.order, held, HeldElsewhereAt(s, x, d), x, y, |s.order|);
    if b.clocks[y].root == b.clocks[x].root != x {
      HangingStays(b, s.order, 0, |s.order|, held, x, time.Micros(), y);
    }
  }

  lemma {:induction false} InvOrder<T, D(!new)>(s: State<T, D>)
    requires Inv(s)
    ensures forall h :: h in s.order <==> h in s.bases.clocks
  {
  }

  /** The frame has one absolute time at its receiver and at the first holder of every other tree. */
  lemma {:induction false} FrameAligns<T, D(!new)>(s: State<T, D>, x: T, data: seq<bv8>, d: D, time: Timeval, j: nat)
    requires Inv(s) && x in s.bases.clocks && |data| > 0 && data[0] as int % 4 == 1 && !Seen(s.windows[x], d)
    requires forall h :: h in s.order ==> h in s.bases.clocks
    requires Leads(Started(s, x, time), s.order, HeldElsewhereAt(s, x, d), x, j)
    ensures var u, h := Process(s, x, data, d, time).bases.clocks, s.order[j];
            x in u && h in u && u[h].abs + HeldElsewhereAt(s, x, d)[h] == u[x].abs + time.Micros()
  {
    hide Process, Inv, Reached, BasesOk, Started, Seen;
    var held := FreshClocks(s, x, data, d, time);
    var b := Bases(Started(s, x, time), s.bases.count);
    SameOutside(b.clocks, s.order, held, HeldElsewhereAt(s, x, d), x, x, 0);
    LeaderAligned(b, s.order, |s.order|, held, x, time.Micros(), j);
  }

  lemma {:induction false} SameFirst<T>(t: Table<T>, order: seq<T>, held: map<T, int>, held1: map<T, int>, x: T, j: nat)
    requires x in t && (forall h :: h in order ==> h in t) && held1 == held - {x}
    ensures First(t, order, held1, x, j) ==> First(t, order, held, x, j) && order[j] != x
  {
  }

  lemma {:induction false} OthersStarted<T, D(!new)>(s: State<T, D>, x: T, time: Timeval, y: T)
    requires x in s.bases.clocks && y in s.bases.clocks && y != x
    ensures y in Started(s, x, time) && Started(s, x, time)[y] == s.bases.clocks[y]
  {
  }

  /** If the receiver is the root of its tree, the first holder outside it keeps its clock. */
  lemma {:induction false} FrameKeeps<T, D(!new)>(s: State<T, D>, x: T, data: seq<bv8>, d: D, time: Timeval, j: nat)
    requires Inv(s) && x in s.bases.clocks && |data| > 0 && data[0] as int % 4 == 1 && !Seen(s.windows[x], d)
    requires forall h :: h in s.order ==> h in s.bases.clocks
    requires Started(s, x, time)[x].root == x && First(Started(s, x, time), s.order, HeldElsewhereAt(s, x, d), x, j)
    ensures var u, h := Process(s, x, data, d, time).bases.clocks, s.order[j];
            h in u && u[h] == s.bases.clocks[h]
  {
    hide Process, Inv, BasesOk, Started, Seen, First;
    var held := FreshClocks(s, x, data, d, time);
    var b := Bases(Started(s, x, time), s.bases.count);
    SameFirst(b.clocks, s.order, held, HeldElsewhereAt(s, x, d), x, j);
    OthersStarted(s, x, time, s.order[j]);
    FirstStays(b, s.order, j, held, x, time.Micros());
  }

  /** With no holder outside the tree of the receiver, no clock moves but that of an interface at its first frame. */
  lemma {:induction false} FrameMovesNone<T, D(!new)>(s: State<T, D>, x: T, data: seq<bv8>, d: D, time: Timeval)
    requires Inv(s) && x in s.bases.clocks && |data| > 0 && data[0] as int % 4 == 1 && !Seen(s.windows[x], d)
    requires forall h :: h in s.order ==> h in s.bases.clocks
    requires forall h :: h in s.order ==> !Outside(Started(s, x, time), HeldElsewhereAt(s, x, d), x, h)
    ensures Process(s, x, data, d, time).bases.clocks == Started(s, x, time)
  {
    hide Process, Inv, Reached, BasesOk, Started, Seen;
    var held := FreshClocks(s, x, data, d, time);
    var b := Bases(Started(s, x, time), s.bases.count);
    forall i: nat | i < |s.order| ensures !Outside(b.clocks, held, x, s.order[i]) {
      assert !Outside(b.clocks, HeldElsewhereAt(s, x, d), x, s.order[i]);
    }
    NobodyOutside(b, s.order, |s.order|, held, x, time.Micros());
  }

  // ---- every run

  lemma {:induction false} FreshPristine<T, D(!new)>(s: State<T, D>, x: T, data: seq<bv8>, d: D, time: Timeval, y: T)
    requires Inv(s) && x in s.bases.clocks && |data| > 0 && data[0] as int % 4 == 1
    ensures y in Process(s, x, data, d, time).pristine <==> y in s.pristine && y != x
  {
    DataFrameIff(data);
    assert x in s.pristine ==> Untouched(s, x);
  }

  lemma {:induction false} StepPristine<T, D(!new)>(s: State<T, D>, op: Op<T>, digest: seq<bv8> -> D, x: T)
    requires Inv(s) && Enabled(s, op)
    ensures x in Step(s, op, digest).pristine <==>
              op == Create(x)
              || (x in s.pristine && op != Destroy(x)
                  && !(op.Packet? && op.x == x && |op.data| > 0 && op.data[0] as int % 4 == 1))
  {
    hide Inv, Process;
    if op.Packet? {
      InvOrder(s);
      ForwardedIff(s, op.x, op.data, digest(op.data), op.time);
      if |op.data| > 0 && op.data[0] as int % 4 == 1 {
        FreshPristine(s, op.x, op.data, digest(op.data), op.time, x);
      }
    }
  }

  /** An interface waits for its origin as long as it lives and has received no data frame. */
  lemma {:induction false} RunPristine<T, D(!new)>(ops: seq<Op<T>>, digest: seq<bv8> -> D, x: T)
    requires CanRun(Start(), ops, digest)
    ensures x in Run(Start(), ops, digest).pristine <==> Lives(ops, x) && SinceBirth(ops, x, digest) == []
    decreases |ops|
  {
    hide Inv, Step, Enabled, CanRun;
    if ops == [] {
      assert Run(Start(), ops, digest) == Start();
    } else {
      var before, op := ops[..|ops| - 1], ops[|ops| - 1];
      RunSnoc(Start(), ops, digest);
      RunPristine(before, digest, x);
      RunState(before, digest, x);
      StepPristine(Run(Start(), before, digest), op, digest, x);
    }
  }

  /** The first data frame of an interface, if nobody else has received it recently, is handed on with the time 0. */
  lemma {:induction false} RunFirstFrame<T(!new), D(!new)>(
    ops: seq<Op<T>>, digest: seq<bv8> -> D, x: T, data: seq<bv8>, time: Timeval)
    requires CanRun(Start(), ops + [Packet(x, data, time)], digest) && |data| > 0 && data[0] as int % 4 == 1
    requires CanRun(Start(), ops, digest)
    requires Lives(ops, x) && SinceBirth(ops, x, digest) == [] && !Recalled(ops, digest, digest(data))
    ensures var s, s1 := Run(Start(), ops, digest), Run(Start(), ops + [Packet(x, data, time)], digest);
            s1.forwarded == s.forwarded + [(data, 0)]
  {
    hide *;
    RunForwards(ops, digest, x, data, time);
    LastStep(ops, Packet(x, data, time), digest);
    RunPristine(ops, digest, x);
    HeldIffRecalled(ops, digest, digest(data));
    FirstFrame(Run(Start(), ops, digest), digest, x, data, time);
  }

  lemma {:induction false} FirstFrame<T, D(!new)>(s: State<T, D>, digest: seq<bv8> -> D, x: T, data: seq<bv8>, time: Timeval)
    requires Inv(s) && Enabled(s, Packet(x, data, time)) && |data| > 0 && data[0] as int % 4 == 1 && x in s.pristine
    requires !exists h :: h in s.order && Holds(s.windows, h, digest(data))
    ensures var u := Step(s, Packet(x, data, time), digest).bases.clocks;
            x in u && u[x].abs == -time.Micros()
  {
    hide Process;
    InvOrder(s);
    assert Untouched(s, x);
    forall h | h in s.order ensures !Outside(Started(s, x, time), HeldElsewhereAt(s, x, digest(data)), x, h) {
      assert !Holds(s.windows, h, digest(data));
    }
    FrameMovesNone(s, x, data, digest(data), time);
  }

  /** After any run a data frame that its receiver has not received recently has one absolute time there and at the first
      holder of every other tree, where it counts as received when it was received last. */
  lemma {:induction false} RunAligns<T(!new), D(!new)>(
    ops: seq<Op<T>>, digest: seq<bv8> -> D, x: T, data: seq<bv8>, time: Timeval, j: nat, i: int)
    requires CanRun(Start(), ops + [Packet(x, data, time)], digest) && |data| > 0 && data[0] as int % 4 == 1
    requires CanRun(Start(), ops, digest) && !Recent(SinceBirth(ops, x, digest), digest(data))
    requires var s := Run(Start(), ops, digest);
             && x in s.bases.clocks && (forall h :: h in s.order ==> h in s.bases.clocks)
             && Leads(Started(s, x, time), s.order, HeldElsewhereAt(s, x, digest(data)), x, j)
             && LatestAt(SinceBirth(ops, s.order[j], digest), digest(data), i)
    ensures var s, u := Run(Start(), ops, digest), Run(Start(), ops + [Packet(x, data, time)], digest).bases.clocks;
            var h := s.order[j];
            && x in u && h in u
            && u[h].abs + SinceBirth(ops, h, digest)[i].info.Micros() == u[x].abs + time.Micros()
  {
    hide *;
    var s, d := Run(Start(), ops, digest), digest(data);
    LastStep(ops, Packet(x, data, time), digest);
    InvOrder(s);
    LeaderHolds(s, x, d, time, j);
    RunState(ops, digest, x);
    RunState(ops, digest, s.order[j]);
    DuplicateIff(SinceBirth(ops, x, digest), d);
    HeldIsLatest(SinceBirth(ops, s.order[j], digest), d, i);
    StepIsProcess(s, x, data, time, digest);
    FrameAligns(s, x, data, d, time, j);
  }

  lemma {:induction false} StepIsProcess<T, D(!new)>(s: State<T, D>, x: T, data: seq<bv8>, time: Timeval, digest: seq<bv8> -> D)
    requires Enabled(s, Packet(x, data, time))
    ensures x in s.windows && x in s.bases.clocks && forall h :: h in s.order ==> h in s.bases.clocks
    ensures Step(s, Packet(x, data, time), digest) == Process(s, x, data, digest(data), time)
  {
  }

  lemma {:induction false} LeaderHolds<T, D(!new)>(s: State<T, D>, x: T, d: D, time: Timeval, j: nat)
    requires x in s.bases.clocks && forall h :: h in s.order ==> h in s.bases.clocks
    requires Leads(Started(s, x, time), s.order, HeldElsewhereAt(s, x, d), x, j)
    ensures j < |s.order| && s.order[j] in s.windows && Seen(s.windows[s.order[j]], d)
    ensures s.order[j] in HeldElsewhereAt(s, x, d)
    ensures HeldElsewhereAt(s, x, d)[s.order[j]] == s.windows[s.order[j]][Position(s.windows[s.order[j]], d)].info.Micros()
  {
  }
}
