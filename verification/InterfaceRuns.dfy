/**
 What the interface manager forwards, over every run from the start and in terms of nothing but the operations of the
 run: the frames that each live interface has received since it was created.
 */
module InterfaceRuns {
  import opened InterfaceSpec
  import opened RecentWindow
  import opened Timevals

  /** The last creation or destruction of a handle decides whether it lives. */
  predicate Lives<T(==)>(ops: seq<Op<T>>, x: T) {
    ops != [] &&
    var op := ops[|ops| - 1];
    op == Create(x) || (op != Destroy(x) && Lives(ops[..|ops| - 1], x))
  }

  /** The data frames that an interface has received in its present life. */
  function SinceBirth<T(==), D>(ops: seq<Op<T>>, x: T, digest: seq<bv8> -> D): seq<Sighting<D, Timeval>> {
    if ops == [] then []
    else
      var before, op := SinceBirth(ops[..|ops| - 1], x, digest), ops[|ops| - 1];
      if op == Create(x) || op == Destroy(x) then []
      else if op.Packet? && op.x == x && |op.data| > 0 && op.data[0] as int % 4 == 1 then
        before + [Sighting(digest(op.data), op.time)]
      else before
  }

  lemma {:induction false} RunSnoc<T, D(!new)>(s: State<T, D>, ops: seq<Op<T>>, digest: seq<bv8> -> D)
    requires CanRun(s, ops, digest) && ops != []
    ensures var before, op := ops[..|ops| - 1], ops[|ops| - 1];
            && CanRun(s, before, digest) && Enabled(Run(s, before, digest), op)
            && Run(s, ops, digest) == Step(Run(s, before, digest), op, digest)
    decreases |ops|
  {
    var before, op := ops[..|ops| - 1], ops[|ops| - 1];
    if |ops| == 1 {
      assert before == [] && ops[1..] == [];
    } else {
      RunSnoc(Step(s, ops[0], digest), ops[1..], digest);
      assert ops[1..][..|ops| - 2] == before[1..];
    }
  }

  lemma {:induction false} StepLives<T, D(!new)>(s: State<T, D>, op: Op<T>, digest: seq<bv8> -> D, x: T)
    requires Inv(s) && Enabled(s, op)
    ensures x in Step(s, op, digest).order <==> op == Create(x) || (op != Destroy(x) && x in s.order)
  {
    if op.Destroy? {
      WithoutRemoves(s.order, op.x);
    }
  }

  /** The live interfaces are those that the operations say, and their windows are what they received. */
  lemma {:induction false} RunState<T, D(!new)>(ops: seq<Op<T>>, digest: seq<bv8> -> D, x: T)
    requires CanRun(Start(), ops, digest)
    ensures var s := Run(Start(), ops, digest);
            && Inv(s) && (x in s.order <==> Lives(ops, x)) && (x in s.windows <==> Lives(ops, x))
            && (Lives(ops, x) ==> s.windows[x] == Replay(SinceBirth(ops, x, digest)))
    decreases |ops|
  {
    EmptyIsInv<T, D>();
    RunKeepsInv(Start(), ops, digest);
    if ops == [] {
      assert Run(Start(), ops, digest) == Start();
    } else {
      var before, op := ops[..|ops| - 1], ops[|ops| - 1];
      RunSnoc(Start(), ops, digest);
      RunState(before, digest, x);
      var s := Run(Start(), before, digest);
      StepLives(s, op, digest, x);
      if op == Create(x) {
        assert Step(s, op, digest).windows[x] == [];
      } else if op != Destroy(x) && x in s.windows {
        StepReplay(s, op, digest, x, SinceBirth(before, x, digest));
        ArrivalsOfOne(op, digest, x, SinceBirth(before, x, digest));
      }
    }
  }

  lemma {:induction false} ArrivalsOfOne<T, D(!new)>(op: Op<T>, digest: seq<bv8> -> D, x: T, h: seq<Sighting<D, Timeval>>)
    ensures h + Arrivals([op], x, digest) ==
              if op.Packet? && op.x == x && |op.data| > 0 && op.data[0] as int % 4 == 1 then
                h + [Sighting(digest(op.data), op.time)]
              else h
  {
    assert [op][1..] == [];
  }

  /** Some live interface has received the digest, in its present life and recently. */
  ghost predicate Recalled<T(!new), D(!new)>(ops: seq<Op<T>>, digest: seq<bv8> -> D, d: D) {
    exists h {:trigger Lives(ops, h)} :: Lives(ops, h) && Recent(SinceBirth(ops, h, digest), d)
  }

  lemma {:induction false} HeldIffRecalled<T(!new), D(!new)>(ops: seq<Op<T>>, digest: seq<bv8> -> D, d: D)
    requires CanRun(Start(), ops, digest)
    ensures var s := Run(Start(), ops, digest);
            (exists h :: h in s.order && Holds(s.windows, h, d)) <==> Recalled(ops, digest, d)
  {
    var s := Run(Start(), ops, digest);
    forall h ensures h in s.order && Holds(s.windows, h, d) <==> Lives(ops, h) && Recent(SinceBirth(ops, h, digest), d) {
      RunState(ops, digest, h);
      DuplicateIff(SinceBirth(ops, h, digest), d);
    }
    if h :| h in s.order && Holds(s.windows, h, d) {
      assert Lives(ops, h) && Recent(SinceBirth(ops, h, digest), d);
    }
    if h :| Lives(ops, h) && Recent(SinceBirth(ops, h, digest), d) {
      assert h in s.order && Holds(s.windows, h, d);
    }
  }

  /** A frame of no or another type, which is empty or whose first byte does not leave 1 by division by four, changes
      nothing after any run. A data frame, of which it leaves 1, is handed on exactly when no live interface has received
      its digest in its present life with fewer than 100 other digests after it. */
  lemma {:induction false} RunForwards<T(!new), D(!new)>(ops: seq<Op<T>>, digest: seq<bv8> -> D, x: T, data: seq<bv8>, time: Timeval)
    requires CanRun(Start(), ops + [Packet(x, data, time)], digest)
    ensures CanRun(Start(), ops, digest)
    ensures var s, s1 := Run(Start(), ops, digest), Run(Start(), ops + [Packet(x, data, time)], digest);
            if |data| == 0 || data[0] as int % 4 != 1 then s1 == s
            else
              && x in s1.bases.clocks
              && s1.forwarded == if Recalled(ops, digest, digest(data)) then s.forwarded
                                 else s.forwarded + [(data, time.Micros() + s1.bases.clocks[x].abs)]
  {
    hide *;
    LastStep(ops, Packet(x, data, time), digest);
    HeldIffRecalled(ops, digest, digest(data));
    PacketForwards(Run(Start(), ops, digest), digest, x, data, time);
  }

  lemma {:induction false} LastStep<T, D(!new)>(ops: seq<Op<T>>, op: Op<T>, digest: seq<bv8> -> D)
    requires CanRun(Start(), ops + [op], digest)
    ensures CanRun(Start(), ops, digest) && Inv(Run(Start(), ops, digest)) && Enabled(Run(Start(), ops, digest), op)
    ensures Run(Start(), ops + [op], digest) == Step(Run(Start(), ops, digest), op, digest)
  {
    hide *;
    assert (ops + [op])[..|ops + [op]| - 1] == ops && (ops + [op])[|ops + [op]| - 1] == op;
    RunSnoc(Start(), ops + [op], digest);
    EmptyIsInv<T, D>();
    RunKeepsInv(Start(), ops, digest);
  }

  lemma {:induction false} PacketForwards<T, D(!new)>(s: State<T, D>, digest: seq<bv8> -> D, x: T, data: seq<bv8>, time: Timeval)
    requires Inv(s) && Enabled(s, Packet(x, data, time))
    ensures var s1 := Step(s, Packet(x, data, time), digest);
            if |data| == 0 || data[0] as int % 4 != 1 then s1 == s
            else
              && x in s1.bases.clocks
              && s1.forwarded == if exists h :: h in s.order && Holds(s.windows, h, digest(data)) then s.forwarded
                                 else s.forwarded + [(data, time.Micros() + s1.bases.clocks[x].abs)]
  {
    hide Process, Inv, Holds;
    ForwardedIff(s, x, data, digest(data), time);
  }
}
