/**
 The parent graph of the capture interfaces as a value: every node has an optional parent and an
 offset to it, and the clock of a node is the sum of the offsets up to and including its root.
 All pointer surgery of the interface manager is an instance of one change, `Attached`.
 */
module TimeForest {
  import opened Options

  /** `rank` witnesses that the graph has no cycle: it decreases from a node to its parent. */
  datatype Node<T> = Node(up: Option<T>, off: int, rank: nat)

  type Forest<T> = map<T, Node<T>>

  ghost predicate HasLowerParent<T>(f: Forest<T>, x: T)
    requires x in f
  {
    f[x].up.Some? ==> f[x].up.value in f && f[f[x].up.value].rank < f[x].rank
  }

  ghost predicate Wf<T>(f: Forest<T>) {
    forall x {:trigger HasLowerParent(f, x)} :: x in f ==> HasLowerParent(f, x)
  }

  ghost function Root<T>(f: Forest<T>, x: T): (r: T)
    requires Wf(f) && x in f
    ensures r in f && f[r].up.None?
    decreases f[x].rank
  {
    assert HasLowerParent(f, x);
    if f[x].up.None? then x else Root(f, f[x].up.value)
  }

  /** The offset of `x` to absolute time. */
  ghost function Abs<T>(f: Forest<T>, x: T): int
    requires Wf(f) && x in f
    decreases f[x].rank
  {
    assert HasLowerParent(f, x);
    f[x].off + if f[x].up.None? then 0 else Abs(f, f[x].up.value)
  }

  /** `x` is `p` or has `p` among its ancestors. */
  ghost predicate Below<T>(f: Forest<T>, x: T, p: T)
    requires Wf(f) && x in f
    decreases f[x].rank
  {
    assert HasLowerParent(f, x);
    x == p || (f[x].up.Some? && Below(f, f[x].up.value, p))
  }

  /** How one node fares when `p` is cut from its parent and hung, with everything below it, under `c` at `delta`. */
  ghost predicate AttachedAt<T>(f: Forest<T>, g: Forest<T>, p: T, c: T, delta: int, x: T)
    requires Wf(f) && x in f && x in g && p in f && c in f
  {
    if x == p then g[x] == Node(Some(c), delta, f[p].rank + f[c].rank + 1)
    else if Below(f, x, p) then g[x] == f[x].(rank := f[x].rank + f[c].rank + 1)
    else g[x] == f[x]
  }

  /** `g` is `f` after that one change. */
  ghost predicate Attached<T>(f: Forest<T>, g: Forest<T>, p: T, c: T, delta: int)
    requires Wf(f) && p in f && c in f
  {
    && g.Keys == f.Keys
    && forall x {:trigger AttachedAt(f, g, p, c, delta, x)} :: x in f ==> AttachedAt(f, g, p, c, delta, x)
  }

  lemma {:induction false} BelowSharesRoot<T>(f: Forest<T>, x: T, p: T)
    requires Wf(f) && x in f && p in f
    ensures Below(f, x, p) ==> Root(f, x) == Root(f, p) && f[p].rank <= f[x].rank
    decreases f[x].rank
  {
    assert HasLowerParent(f, x);
    if x != p && f[x].up.Some? {
      BelowSharesRoot(f, f[x].up.value, p);
    }
  }

  /** Below a root lies exactly its tree. */
  lemma {:induction false} BelowRoot<T>(f: Forest<T>, x: T, p: T)
    requires Wf(f) && x in f && p in f && f[p].up.None?
    ensures Below(f, x, p) <==> Root(f, x) == p
    decreases f[x].rank
  {
    assert HasLowerParent(f, x);
    if f[x].up.Some? {
      BelowRoot(f, f[x].up.value, p);
    }
  }

  lemma {:induction false} AttachedWf<T>(f: Forest<T>, g: Forest<T>, p: T, c: T, delta: int)
    requires Wf(f) && p in f && c in f && !Below(f, c, p) && Attached(f, g, p, c, delta)
    ensures Wf(g)
  {
    forall x | x in g
      ensures HasLowerParent(g, x)
    {
      assert HasLowerParent(f, x) && AttachedAt(f, g, p, c, delta, x) && AttachedAt(f, g, p, c, delta, c);
      if x != p && f[x].up.Some? {
        var y := f[x].up.value;
        assert AttachedAt(f, g, p, c, delta, y);
        assert Below(f, x, p) == Below(f, y, p);
      }
    }
  }

  /** The nodes below `p` move into the tree of `c`, all by the same shift, and nothing else moves. */
  lemma {:induction false} AttachedMoves<T>(f: Forest<T>, g: Forest<T>, p: T, c: T, delta: int, x: T)
    requires Wf(f) && p in f && c in f && !Below(f, c, p) && Attached(f, g, p, c, delta) && Wf(g) && x in f
    ensures
      if Below(f, x, p) then
        Root(g, x) == Root(f, c) && Abs(g, x) == Abs(f, x) - Abs(f, p) + delta + Abs(f, c)
      else
        Root(g, x) == Root(f, x) && Abs(g, x) == Abs(f, x)
    decreases (if Below(f, x, p) then 1 else 0), f[x].rank
  {
    assert HasLowerParent(f, x) && AttachedAt(f, g, p, c, delta, x);
    if x == p {
      AttachedMoves(f, g, p, c, delta, c);
    } else if f[x].up.Some? {
      AttachedMoves(f, g, p, c, delta, f[x].up.value);
    }
  }

  // ---- the flat reading of a forest

  /** What can be observed of a node: which tree it is in, and its absolute offset. */
  datatype Clock<T> = Clock(root: T, abs: int)

  type Table<T> = map<T, Clock<T>>

  ghost function ClockOf<T>(f: Forest<T>, x: T): Clock<T>
    requires Wf(f) && x in f
  {
    Clock(Root(f, x), Abs(f, x))
  }

  ghost function TableOf<T>(f: Forest<T>): Table<T>
    requires Wf(f)
  {
    map x | x in f :: ClockOf(f, x)
  }

  /** Moving one whole tree under another root. */
  function Shift<T(==)>(t: Table<T>, src: T, dest: T, gap: int): Table<T> {
    map x | x in t :: ShiftClock(t[x], src, dest, gap)
  }

  function ShiftClock<T(==)>(c: Clock<T>, src: T, dest: T, gap: int): Clock<T> {
    if c.root == src then Clock(dest, c.abs + gap) else c
  }

  ghost predicate ShiftedAt<T>(f: Forest<T>, g: Forest<T>, src: T, dest: T, gap: int, x: T)
    requires Wf(f) && Wf(g) && x in f && x in g
  {
    ClockOf(g, x) == ShiftClock(ClockOf(f, x), src, dest, gap)
  }

  lemma {:induction false} TablesEqual<T>(t: Table<T>, u: Table<T>)
    requires t.Keys == u.Keys && forall x :: x in t ==> t[x] == u[x]
    ensures t == u
  {
  }

  lemma {:induction false} ShiftedTable<T>(f: Forest<T>, g: Forest<T>, src: T, dest: T, gap: int)
    requires Wf(f) && Wf(g) && f.Keys == g.Keys
    requires forall x {:trigger ShiftedAt(f, g, src, dest, gap, x)} :: x in f ==> ShiftedAt(f, g, src, dest, gap, x)
    ensures TableOf(g) == Shift(TableOf(f), src, dest, gap)
  {
    var after, shifted := TableOf(g), Shift(TableOf(f), src, dest, gap);
    assert after.Keys == shifted.Keys;
    forall x | x in f
      ensures after[x] == shifted[x]
    {
      assert ShiftedAt(f, g, src, dest, gap, x);
    }
    TablesEqual(after, shifted);
  }

  lemma {:induction false} AttachRootShiftsAt<T>(f: Forest<T>, g: Forest<T>, p: T, c: T, delta: int, gap: int, x: T)
    requires Wf(f) && p in f && c in f && f[p].up.None? && Attached(f, g, p, c, delta)
    requires gap == delta + Abs(f, c) - Abs(f, p)
    requires Wf(g) && !Below(f, c, p) && x in f
    ensures ShiftedAt(f, g, p, Root(f, c), gap, x)
  {
    AttachedMoves(f, g, p, c, delta, x);
    BelowRoot(f, x, p);
  }

  /** Hanging a root under a node of another tree is a shift of its tree. */
  lemma {:induction false} AttachRootIsShift<T>(f: Forest<T>, g: Forest<T>, p: T, c: T, delta: int, gap: int)
    requires Wf(f) && p in f && c in f && f[p].up.None? && Root(f, c) != p && Attached(f, g, p, c, delta)
    requires gap == delta + Abs(f, c) - Abs(f, p)
    ensures !Below(f, c, p) && Wf(g)
    ensures TableOf(g) == Shift(TableOf(f), p, Root(f, c), gap)
  {
    BelowRoot(f, c, p);
    AttachedWf(f, g, p, c, delta);
    var dest := Root(f, c);
    forall x | x in f
      ensures ShiftedAt(f, g, p, dest, gap, x)
    {
      AttachRootShiftsAt(f, g, p, c, delta, gap, x);
    }
    ShiftedTable(f, g, p, dest, gap);
  }

  // ---- adding, removing and re-timing a node on which no other clock rests

  /** Nodes other than `x` are the same in both forests. */
  ghost predicate AgreeOff<T>(f: Forest<T>, g: Forest<T>, x: T) {
    && (forall y :: y in f && y != x ==> y in g && g[y] == f[y])
    && (forall y :: y in g && y != x ==> y in f)
  }

  lemma {:induction false} AgreeOffClock<T>(f: Forest<T>, g: Forest<T>, x: T, y: T)
    requires Wf(f) && Wf(g) && AgreeOff(f, g, x) && y in f && !Below(f, y, x)
    ensures y in g && ClockOf(g, y) == ClockOf(f, y)
    decreases f[y].rank
  {
    assert HasLowerParent(f, y) && HasLowerParent(g, y);
    if f[y].up.Some? {
      AgreeOffClock(f, g, x, f[y].up.value);
    }
  }

  lemma {:induction false} BelowIsLive<T>(f: Forest<T>, y: T, x: T)
    requires Wf(f) && y in f && Below(f, y, x)
    ensures x in f
    decreases f[y].rank
  {
    assert HasLowerParent(f, y);
    if y == x {
    } else {
      BelowIsLive(f, f[y].up.value, x);
    }
  }

  ghost predicate IsLeaf<T>(f: Forest<T>, x: T) {
    forall y :: y in f ==> f[y].up != Some(x)
  }

  lemma {:induction false} NothingBelowLeaf<T>(f: Forest<T>, x: T, y: T)
    requires Wf(f) && x in f && y in f && IsLeaf(f, x) && y != x
    ensures !Below(f, y, x) && Root(f, y) != x
    decreases f[y].rank
  {
    assert HasLowerParent(f, y);
    if f[y].up.Some? {
      NothingBelowLeaf(f, x, f[y].up.value);
    }
  }

  lemma {:induction false} AddRoot<T>(f: Forest<T>, g: Forest<T>, x: T)
    requires Wf(f) && x !in f && AgreeOff(f, g, x) && x in g && g[x].up.None?
    ensures Wf(g) && TableOf(g) == TableOf(f)[x := Clock(x, g[x].off)]
  {
    forall y | y in g ensures HasLowerParent(g, y) {
      if y != x { assert HasLowerParent(f, y); }
    }
    forall y | y in f ensures ClockOf(g, y) == ClockOf(f, y) {
      if Below(f, y, x) { BelowIsLive(f, y, x); }
      AgreeOffClock(f, g, x, y);
    }
    assert HasLowerParent(g, x);
    TablesEqual(TableOf(g), TableOf(f)[x := Clock(x, g[x].off)]);
  }

  /** Removing a node keeps the parent graph closed exactly when no other node hangs on it. */
  lemma {:induction false} RemoveWfIff<T>(f: Forest<T>, g: Forest<T>, x: T)
    requires Wf(f) && x in f && AgreeOff(f, g, x) && x !in g
    ensures Wf(g) <==> IsLeaf(f, x)
  {
    if IsLeaf(f, x) {
      forall y | y in g ensures HasLowerParent(g, y) { assert HasLowerParent(f, y); }
    } else {
      var y :| y in f && f[y].up == Some(x);
      assert HasLowerParent(f, y);
      assert !HasLowerParent(g, y);
    }
  }

  /** Destroying a handle that has one child leaves the child with a parent that is gone. */
  lemma {:induction false} RemoveCanBreak(f: Forest<nat>, g: Forest<nat>)
    requires f == map[0 := Node(None, 0, 0), 1 := Node(Some(0), 0, 1)] && g == map[1 := Node(Some(0), 0, 1)]
    ensures Wf(f) && AgreeOff(f, g, 0) && !Wf(g)
  {
    forall x | x in f ensures HasLowerParent(f, x) {
    }
    assert f[1].up == Some(0);
    RemoveWfIff(f, g, 0);
  }

  lemma {:induction false} RemoveLeaf<T>(f: Forest<T>, g: Forest<T>, x: T)
    requires Wf(f) && x in f && AgreeOff(f, g, x) && x !in g && IsLeaf(f, x)
    ensures Wf(g) && TableOf(g) == TableOf(f) - {x}
    ensures forall y :: y in f && y != x ==> TableOf(f)[y].root != x
  {
    RemoveWfIff(f, g, x);
    forall y | y in f && y != x
      ensures y in g && ClockOf(g, y) == ClockOf(f, y) && Root(f, y) != x
    {
      NothingBelowLeaf(f, x, y);
      AgreeOffClock(f, g, x, y);
    }
    TablesEqual(TableOf(g), TableOf(f) - {x});
  }

  lemma {:induction false} RetimeRoot<T>(f: Forest<T>, g: Forest<T>, x: T, off: int)
    requires Wf(f) && x in f && f[x].up.None? && AgreeOff(f, g, x) && x in g && g[x] == f[x].(off := off)
    requires forall y :: y in f && y != x ==> TableOf(f)[y].root != x
    ensures Wf(g) && TableOf(g) == TableOf(f)[x := Clock(x, off)]
  {
    forall y | y in g ensures HasLowerParent(g, y) { assert HasLowerParent(f, y); }
    forall y | y in f && y != x ensures ClockOf(g, y) == ClockOf(f, y) {
      BelowRoot(f, y, x);
      assert TableOf(f)[y].root != x;
      AgreeOffClock(f, g, x, y);
    }
    assert HasLowerParent(g, x);
    TablesEqual(TableOf(g), TableOf(f)[x := Clock(x, off)]);
  }

  /** Path compression: hanging a node directly under its root, at the summed offset, shows in no clock. */
  lemma {:induction false} CompressKeepsClocks<T>(f: Forest<T>, g: Forest<T>, p: T)
    requires Wf(f) && p in f && f[p].up.Some?
    requires Attached(f, g, p, Root(f, p), Abs(f, p) - Abs(f, Root(f, p)))
    ensures !Below(f, Root(f, p), p)
    ensures Wf(g) && TableOf(g) == TableOf(f)
  {
    var r := Root(f, p);
    var delta := Abs(f, p) - Abs(f, r);
    AttachedWf(f, g, p, r, delta);
    forall x | x in f
      ensures ClockOf(g, x) == ClockOf(f, x)
    {
      AttachedMoves(f, g, p, r, delta, x);
      BelowSharesRoot(f, x, p);
    }
    assert TableOf(g).Keys == TableOf(f).Keys;
    TablesEqual(TableOf(g), TableOf(f));
  }

  // ---- re-rooting one tree under another by reversing the path from a node to its root

  /** Where `x` stands while the tree rooted at `r2` is being turned: untouched, or moved into the tree of `r1`. */
  ghost predicate Placed<T>(f0: Forest<T>, f: Forest<T>, r1: T, r2: T, gap: int, x: T)
    requires Wf(f0) && Wf(f) && x in f0 && x in f
  {
    || (Root(f, x) == Root(f0, x) && Abs(f, x) == Abs(f0, x) && (Root(f0, x) == r2 ==> f[x] == f0[x]))
    || (Root(f0, x) == r2 && Root(f, x) == r1 && Abs(f, x) == Abs(f0, x) + gap)
  }

  ghost predicate Reversing<T>(f0: Forest<T>, f: Forest<T>, r1: T, r2: T, gap: int) {
    && Wf(f0) && Wf(f) && f.Keys == f0.Keys && r1 != r2
    && forall x {:trigger Placed(f0, f, r1, r2, gap, x)} :: x in f0 ==> Placed(f0, f, r1, r2, gap, x)
  }

  /** `p` is the next node to turn round and `child` its new parent, at the offset carried over from the last step. */
  ghost predicate NextToTurn<T>(f0: Forest<T>, f: Forest<T>, r1: T, r2: T, gap: int,
                                      child: T, p: T, carried: int)
    requires Reversing(f0, f, r1, r2, gap)
  {
    && p in f && Root(f0, p) == r2 && Root(f, p) == r2
    && child in f && Root(f, child) == r1
    && Abs(f, child) + carried == Abs(f0, p) + gap
  }

  /** Before the first turn nothing has moved. */
  lemma {:induction false} TurnStart<T>(f: Forest<T>, r1: T, r2: T, gap: int)
    requires Wf(f) && r1 != r2
    ensures Reversing(f, f, r1, r2, gap)
  {
  }

  /** What one turn does to one node. */
  lemma {:induction false} TurnMoves<T>(f0: Forest<T>, f: Forest<T>, g: Forest<T>, r1: T, r2: T, gap: int,
                                              child: T, p: T, carried: int, x: T)
    requires Reversing(f0, f, r1, r2, gap) && NextToTurn(f0, f, r1, r2, gap, child, p, carried)
    requires x in f && !Below(f, child, p) && Attached(f, g, p, child, carried) && Wf(g)
    ensures Placed(f0, g, r1, r2, gap, x)
    ensures Root(g, x) == (if Below(f, x, p) then r1 else Root(f, x))
    ensures x != p && !Below(f, x, p) ==> g[x] == f[x]
    ensures Below(f, x, p) ==> Root(f0, x) == r2 && Abs(g, x) == Abs(f0, x) + gap
  {
    AttachedMoves(f, g, p, child, carried, x);
    assert Placed(f0, f, r1, r2, gap, x) && Placed(f0, f, r1, r2, gap, p);
    assert AttachedAt(f, g, p, child, carried, x);
    BelowSharesRoot(f, x, p);
  }

  /** One turn of the loop leaves every node placed. */
  lemma {:induction false} TurnStep<T>(f0: Forest<T>, f: Forest<T>, g: Forest<T>, r1: T, r2: T, gap: int,
                                             child: T, p: T, carried: int)
    requires Reversing(f0, f, r1, r2, gap) && NextToTurn(f0, f, r1, r2, gap, child, p, carried)
    requires Attached(f, g, p, child, carried)
    ensures !Below(f, child, p) && Reversing(f0, g, r1, r2, gap)
  {
    BelowSharesRoot(f, child, p);
    AttachedWf(f, g, p, child, carried);
    forall x | x in f0
      ensures Placed(f0, g, r1, r2, gap, x)
    {
      TurnMoves(f0, f, g, r1, r2, gap, child, p, carried, x);
    }
  }

  /** Short of the root, the loop goes on from the old parent with the negated old offset. */
  lemma {:induction false} TurnGoesOn<T>(f0: Forest<T>, f: Forest<T>, g: Forest<T>, r1: T, r2: T, gap: int,
                                               child: T, p: T, carried: int)
    requires Reversing(f0, f, r1, r2, gap) && NextToTurn(f0, f, r1, r2, gap, child, p, carried)
    requires Attached(f, g, p, child, carried) && f[p].up.Some?
    ensures Reversing(f0, g, r1, r2, gap)
    ensures NextToTurn(f0, g, r1, r2, gap, p, f[p].up.value, -f[p].off)
    ensures f[p].up.value in f && g[f[p].up.value] == f[f[p].up.value] && f[f[p].up.value].rank < f[p].rank
  {
    TurnStep(f0, f, g, r1, r2, gap, child, p, carried);
    assert HasLowerParent(f, p) && HasLowerParent(f0, p);
    var q := f[p].up.value;
    assert Placed(f0, f, r1, r2, gap, p) && Placed(f0, f, r1, r2, gap, q);
    BelowSharesRoot(f, q, p);
    TurnMoves(f0, f, g, r1, r2, gap, child, p, carried, p);
    TurnMoves(f0, f, g, r1, r2, gap, child, p, carried, q);
  }

  /** At the root the whole tree has moved, by one shift. */
  lemma {:induction false} TurnEnds<T>(f0: Forest<T>, f: Forest<T>, g: Forest<T>, r1: T, r2: T, gap: int,
                                             child: T, p: T, carried: int)
    requires Reversing(f0, f, r1, r2, gap) && NextToTurn(f0, f, r1, r2, gap, child, p, carried)
    requires Attached(f, g, p, child, carried) && f[p].up.None?
    ensures Reversing(f0, g, r1, r2, gap)
    ensures TableOf(g) == Shift(TableOf(f0), r2, r1, gap)
  {
    TurnStep(f0, f, g, r1, r2, gap, child, p, carried);
    forall x | x in f0
      ensures ShiftedAt(f0, g, r2, r1, gap, x)
    {
      TurnMoves(f0, f, g, r1, r2, gap, child, p, carried, x);
      BelowRoot(f, x, p);
      assert Placed(f0, f, r1, r2, gap, x);
    }
    ShiftedTable(f0, g, r2, r1, gap);
  }
}
