/**
 The ring buffer between the capture threads and the analyser. A pop hands out the place of the element inside the
 buffer, not a copy.
 */
module RingBuffer {
  import opened Options

  /** The state of a ring: its slots and the two indices. */
  datatype Ring<T> = Ring(slots: seq<T>, read: nat, write: nat)

  function Next(i: nat, size: nat): nat {
    if i + 1 >= size then 0 else i + 1
  }

  ghost predicate Wf<T>(r: Ring<T>) {
    |r.slots| > 0 && r.read < |r.slots| && r.write < |r.slots|
  }

  /** The elements in the ring, the oldest first. */
  ghost function Contents<T>(r: Ring<T>): seq<T>
    requires Wf(r)
  {
    if r.read <= r.write then r.slots[r.read..r.write] else r.slots[r.read..] + r.slots[..r.write]
  }

  ghost function Push<T>(r: Ring<T>, x: T): Ring<T>
    requires Wf(r)
  {
    if r.read == Next(r.write, |r.slots|) then r
    else Ring(r.slots[r.write := x], r.read, Next(r.write, |r.slots|))
  }

  ghost function Pop<T>(r: Ring<T>): Ring<T>
    requires Wf(r)
  {
    if r.read == r.write then r else r.(read := Next(r.read, |r.slots|))
  }

  /** A ring is a queue with room for one element less than it has slots. */
  lemma {:induction false} PushIsEnqueue<T>(r: Ring<T>, x: T)
    requires Wf(r)
    ensures Wf(Push(r, x)) && |Contents(r)| < |r.slots|
    ensures r.read == Next(r.write, |r.slots|) <==> |Contents(r)| + 1 == |r.slots|
    ensures Contents(Push(r, x)) == if |Contents(r)| + 1 < |r.slots| then Contents(r) + [x] else Contents(r)
  {
  }

  lemma {:induction false} PopIsDequeue<T>(r: Ring<T>)
    requires Wf(r)
    ensures Wf(Pop(r)) && (r.read == r.write <==> Contents(r) == [])
    ensures Contents(r) != [] ==> r.slots[r.read] == Contents(r)[0] && Contents(Pop(r)) == Contents(r)[1..]
  {
  }

  // ---- runs

  datatype Op<T> = Put(x: T) | Take

  ghost function Step<T>(r: Ring<T>, op: Op<T>): (r1: Ring<T>)
    requires Wf(r)
    ensures Wf(r1) && |r1.slots| == |r.slots|
  {
    if op.Put? then Push(r, op.x) else Pop(r)
  }

  ghost function Run<T>(r: Ring<T>, ops: seq<Op<T>>): (r1: Ring<T>)
    requires Wf(r)
    ensures Wf(r1) && |r1.slots| == |r.slots|
  {
    if ops == [] then r else Step(Run(r, ops[..|ops| - 1]), ops[|ops| - 1])
  }

  /** The bounded queue. */
  ghost function RunQueue<T>(q: seq<T>, room: nat, ops: seq<Op<T>>): seq<T> {
    if ops == [] then q
    else
      var was, op := RunQueue(q, room, ops[..|ops| - 1]), ops[|ops| - 1];
      if op.Put? then (if |was| < room then was + [op.x] else was)
      else if was == [] then [] else was[1..]
  }

  /** Over every run the ring holds what the queue of one element less holds. */
  lemma {:induction false} RunIsQueue<T>(r: Ring<T>, ops: seq<Op<T>>)
    requires Wf(r)
    ensures Contents(Run(r, ops)) == RunQueue(Contents(r), |r.slots| - 1, ops)
  {
    if ops == [] {
    } else {
      var before, op := Run(r, ops[..|ops| - 1]), ops[|ops| - 1];
      RunIsQueue(r, ops[..|ops| - 1]);
      if op.Put? {
        PushIsEnqueue(before, op.x);
      } else {
        PopIsDequeue(before);
      }
    }
  }

  /** The slot that the last pop handed out. */
  ghost function Lent<T>(r: Ring<T>): nat
    requires Wf(r)
  {
    if r.read == 0 then |r.slots| - 1 else r.read - 1
  }

  /** No number of pushes overwrites the slot that the last pop handed out. */
  lemma {:induction false} PushesSpareLent<T>(r: Ring<T>, ops: seq<Op<T>>)
    requires Wf(r) && forall i :: 0 <= i < |ops| ==> ops[i].Put?
    ensures Run(r, ops).read == r.read && Run(r, ops).slots[Lent(r)] == r.slots[Lent(r)]
  {
    if ops == [] {
    } else {
      PushesSpareLent(r, ops[..|ops| - 1]);
    }
  }

  /** The element that a pop hands out stays in its slot through any number of pushes. */
  lemma {:induction false} LentSurvives<T>(r: Ring<T>, ops: seq<Op<T>>)
    requires Wf(r) && Contents(r) != [] && forall i :: 0 <= i < |ops| ==> ops[i].Put?
    ensures Run(Pop(r), ops).slots[r.read] == Contents(r)[0]
  {
    PopIsDequeue(r);
    PushesSpareLent(Pop(r), ops);
  }

  // ---- the buffer

  class Buffer<T> {
    var data: array<T>
    var readIdx: nat
    var writeIdx: nat

    ghost predicate Valid()
      reads this, data
    {
      Wf(View())
    }

    ghost function View(): Ring<T>
      reads this, data
    {
      Ring(data[..], readIdx, writeIdx)
    }

    constructor (size: nat, fill: T)
      requires size > 0
      ensures Valid() && Contents(View()) == [] && fresh(data) && data.Length == size
    {
      data := new T[size](_ => fill);
      readIdx, writeIdx := 0, 0;
    }

    method IsEmpty() returns (b: bool)
      requires Valid()
      ensures b <==> Contents(View()) == []
    {
      PopIsDequeue(View());
      b := readIdx == writeIdx;
    }

    method IsFull() returns (b: bool)
      requires Valid()
      ensures b <==> |Contents(View())| + 1 == data.Length
      ensures b <==> readIdx == Next(writeIdx, data.Length)
    {
      PushIsEnqueue(View(), data[0]);
      var nextIndex := writeIdx + 1;
      if nextIndex >= data.Length {
        nextIndex := 0;
      }
      b := readIdx == nextIndex;
    }

    /** circular_buffer_push_front. */
    method PushFront(x: T) returns (ok: bool)
      requires Valid()
      modifies this`writeIdx, data
      ensures Valid() && View() == Push(old(View()), x)
      ensures ok <==> |Contents(old(View()))| + 1 < data.Length
      ensures Contents(View()) == if ok then Contents(old(View())) + [x] else Contents(old(View()))
    {
      PushIsEnqueue(View(), x);
      var full := IsFull();
      if full {
        return false;
      }
      data[writeIdx] := x;
      var newIndex := writeIdx + 1;
      if newIndex >= data.Length {
        writeIdx := 0;
      } else {
        writeIdx := newIndex;
      }
      ok := true;
    }

    /** circular_buffer_pop_back. */
    method PopBack() returns (slot: Option<nat>)
      requires Valid()
      modifies this`readIdx
      ensures Valid() && View() == Pop(old(View()))
      ensures slot.Some? <==> Contents(old(View())) != []
      ensures slot.Some? ==> slot.value == Lent(View()) && data[slot.value] == Contents(old(View()))[0]
    {
      PopIsDequeue(View());
      if readIdx == writeIdx {
        return None;
      }
      slot := Some(readIdx);
      var newIndex := readIdx + 1;
      if newIndex >= data.Length {
        readIdx := 0;
      } else {
        readIdx := newIndex;
      }
    }
  }
}
