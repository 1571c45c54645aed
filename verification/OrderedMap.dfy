/**
 What the containers of the analyser are meant to be: maps that keep their entries in insertion order.
 */
module OrderedMap {
  import opened Options
  import opened Sequences

  type Key = seq<bv8>

  datatype Entry = Entry(key: Key, data: int)

  ghost predicate AtKey(c: seq<Entry>, key: Key, i: nat) {
    i < |c| && c[i].key == key
  }

  ghost predicate HasKey(c: seq<Entry>, key: Key) {
    exists i: nat {:trigger AtKey(c, key, i)} :: AtKey(c, key, i)
  }

  ghost predicate KeysApart(c: seq<Entry>, i: nat, j: nat) {
    i < j < |c| ==> c[i].key != c[j].key
  }

  ghost predicate UniqueKeys(c: seq<Entry>) {
    forall i: nat, j: nat {:trigger KeysApart(c, i, j)} :: KeysApart(c, i, j)
  }

  ghost function PlaceOf(c: seq<Entry>, key: Key): (i: nat)
    requires HasKey(c, key)
    ensures AtKey(c, key, i)
  {
    var i: nat :| AtKey(c, key, i);
    i
  }

  lemma {:induction false} PlaceIsUnique(c: seq<Entry>, key: Key, i: nat)
    requires UniqueKeys(c) && AtKey(c, key, i)
    ensures HasKey(c, key) && PlaceOf(c, key) == i
  {
    assert KeysApart(c, i, PlaceOf(c, key)) && KeysApart(c, PlaceOf(c, key), i);
  }

  // ---- the operations of a container

  datatype Mode = NoCheck | FailIfExists | OverwriteIfExists

  datatype Op = Add(key: Key, data: int, mode: Mode) | Delete(key: Key) | Clear

  /** One operation on the entries. */
  ghost function Step(c: seq<Entry>, op: Op): seq<Entry> {
    match op
    case Add(key, data, mode) =>
      if mode == NoCheck || !HasKey(c, key) then c + [Entry(key, data)]
      else if mode == FailIfExists then c
      else c[PlaceOf(c, key) := Entry(key, data)]
    case Delete(key) => if HasKey(c, key) then RemoveAt(c, PlaceOf(c, key)) else c
    case Clear => []
  }

  ghost function Run(ops: seq<Op>): seq<Entry> {
    if ops == [] then [] else Step(Run(ops[..|ops| - 1]), ops[|ops| - 1])
  }

  /** An unchecked addition is for a key that is not there. */
  ghost predicate Enabled(c: seq<Entry>, op: Op) {
    op.Add? && op.mode == NoCheck ==> !HasKey(c, op.key)
  }

  ghost predicate AllEnabled(ops: seq<Op>) {
    ops != [] ==> AllEnabled(ops[..|ops| - 1]) && Enabled(Run(ops[..|ops| - 1]), ops[|ops| - 1])
  }

  ghost function Lookup(c: seq<Entry>, key: Key): Option<int> {
    if HasKey(c, key) then Some(c[PlaceOf(c, key)].data) else None
  }

  // ---- the map: what an operation does to every key, without regard to places

  function StepAt(was: Option<int>, op: Op, key: Key): Option<int> {
    match op
    case Add(k, data, mode) =>
      if k != key then was
      else if was.None? || mode == OverwriteIfExists then Some(data)
      else was
    case Delete(k) => if k == key then None else was
    case Clear => None
  }

  lemma {:induction false} LookupAt(c: seq<Entry>, key: Key, i: nat)
    requires UniqueKeys(c) && AtKey(c, key, i)
    ensures Lookup(c, key) == Some(c[i].data)
  {
    PlaceIsUnique(c, key, i);
  }

  lemma {:induction false} StepIsMapUpdate(c: seq<Entry>, op: Op, key: Key)
    requires UniqueKeys(c) && Enabled(c, op)
    ensures UniqueKeys(Step(c, op)) && Lookup(Step(c, op), key) == StepAt(Lookup(c, key), op, key)
  {
    match op
    case Add(k, data, mode) =>
      if !HasKey(c, k) {
        AppendKeepsOthers(c, k, data, key);
      } else if mode == OverwriteIfExists {
        OverwriteKeepsOthers(c, PlaceOf(c, k), data, key);
      }
    case Delete(k) =>
      if HasKey(c, k) {
        RemoveKeepsOthers(c, PlaceOf(c, k), key);
      }
    case Clear =>
  }

  lemma {:induction false} AppendKeepsOthers(c: seq<Entry>, k: Key, data: int, key: Key)
    requires UniqueKeys(c) && !HasKey(c, k)
    ensures UniqueKeys(c + [Entry(k, data)])
    ensures Lookup(c + [Entry(k, data)], key) == if key == k then Some(data) else Lookup(c, key)
  {
    var after := c + [Entry(k, data)];
    forall i: nat, j: nat ensures KeysApart(after, i, j) {
      assert KeysApart(c, i, j) && !AtKey(c, k, i);
    }
    if key == k {
      LookupAt(after, key, |c|);
    } else if HasKey(c, key) {
      LookupAt(after, key, PlaceOf(c, key));
    } else {
      forall i: nat ensures !AtKey(after, key, i) {
        assert !AtKey(c, key, i);
      }
    }
  }

  lemma {:induction false} OverwriteKeepsOthers(c: seq<Entry>, p: nat, data: int, key: Key)
    requires UniqueKeys(c) && p < |c|
    ensures UniqueKeys(c[p := Entry(c[p].key, data)])
    ensures Lookup(c[p := Entry(c[p].key, data)], key) == if key == c[p].key then Some(data) else Lookup(c, key)
  {
    var after := c[p := Entry(c[p].key, data)];
    forall i: nat, j: nat ensures KeysApart(after, i, j) {
      assert KeysApart(c, i, j);
    }
    if key == c[p].key {
      LookupAt(after, key, p);
    } else if HasKey(c, key) {
      LookupAt(after, key, PlaceOf(c, key));
    } else {
      forall i: nat ensures !AtKey(after, key, i) {
        assert !AtKey(c, key, i);
      }
    }
  }

  lemma {:induction false} RemoveKeepsOthers(c: seq<Entry>, p: nat, key: Key)
    requires UniqueKeys(c) && p < |c|
    ensures UniqueKeys(RemoveAt(c, p))
    ensures Lookup(RemoveAt(c, p), key) == if key == c[p].key then None else Lookup(c, key)
  {
    var after := RemoveAt(c, p);
    forall i: nat, j: nat ensures KeysApart(after, i, j) {
      assert KeysApart(c, if i < p then i else i + 1, if j < p then j else j + 1);
    }
    if key != c[p].key && HasKey(c, key) {
      var q := PlaceOf(c, key);
      LookupAt(after, key, if q < p then q else q - 1);
    } else {
      forall i: nat ensures !AtKey(after, key, i) {
        var j := if i < p then i else i + 1;
        assert KeysApart(c, p, j) && KeysApart(c, j, p);
        assert AtKey(c, key, j) ==> HasKey(c, key);
      }
    }
  }

  /** The meaning of a whole run for one key. */
  ghost function RunAt(ops: seq<Op>, key: Key): Option<int> {
    if ops == [] then None else StepAt(RunAt(ops[..|ops| - 1], key), ops[|ops| - 1], key)
  }

  lemma {:induction false} RunIsUnique(ops: seq<Op>)
    requires AllEnabled(ops)
    ensures UniqueKeys(Run(ops))
  {
    if ops == [] {
    } else {
      RunIsUnique(ops[..|ops| - 1]);
      StepIsMapUpdate(Run(ops[..|ops| - 1]), ops[|ops| - 1], []);
    }
  }

  /** A container is a map: after any run it answers for a key as a map would. */
  lemma {:induction false} RunIsMap(ops: seq<Op>, key: Key)
    requires AllEnabled(ops)
    ensures Lookup(Run(ops), key) == RunAt(ops, key)
  {
    if ops == [] {
    } else {
      RunIsMap(ops[..|ops| - 1], key);
      RunIsUnique(ops[..|ops| - 1]);
      StepIsMapUpdate(Run(ops[..|ops| - 1]), ops[|ops| - 1], key);
    }
  }

  // ---- the order

  /** The operation that began the present life of a key, if it is alive. */
  ghost function Birth(ops: seq<Op>, key: Key): (b: Option<nat>)
    ensures b.Some? ==> b.value < |ops|
  {
    if ops == [] then None
    else
      var before, op := Birth(ops[..|ops| - 1], key), ops[|ops| - 1];
      if op == Clear || op == Delete(key) then None
      else if op.Add? && op.key == key && before.None? then Some(|ops| - 1)
      else before
  }

  lemma {:induction false} BirthIffPresent(ops: seq<Op>, key: Key)
    ensures Birth(ops, key).Some? <==> RunAt(ops, key).Some?
  {
    if ops == [] {
    } else {
      BirthIffPresent(ops[..|ops| - 1], key);
    }
  }

  lemma {:induction false} PresentIsBorn(ops: seq<Op>, key: Key)
    requires AllEnabled(ops)
    ensures HasKey(Run(ops), key) <==> Birth(ops, key).Some?
  {
    RunIsMap(ops, key);
    BirthIffPresent(ops, key);
  }

  /** Where the entry at place i stood before the last operation; past the end if it was not there. */
  ghost function PlaceBefore(c: seq<Entry>, op: Op, i: nat): nat {
    if op.Delete? && HasKey(c, op.key) && PlaceOf(c, op.key) <= i then i + 1 else i
  }

  lemma {:induction false} KeyBefore(c: seq<Entry>, op: Op, i: nat)
    requires i < |Step(c, op)|
    ensures PlaceBefore(c, op, i) < |c| ==> c[PlaceBefore(c, op, i)].key == Step(c, op)[i].key
    ensures PlaceBefore(c, op, i) >= |c| ==> op.Add? && i == |c| && Step(c, op)[i].key == op.key
    ensures PlaceBefore(c, op, i) >= |c| ==> op.mode == NoCheck || !HasKey(c, op.key)
  {
  }

  lemma {:induction false} BirthOfEntry(ops: seq<Op>, i: nat)
    requires AllEnabled(ops) && ops != [] && i < |Run(ops)|
    ensures Birth(ops, Run(ops)[i].key).Some?
    ensures var before, op := ops[..|ops| - 1], ops[|ops| - 1];
            var p := PlaceBefore(Run(before), op, i);
            Birth(ops, Run(ops)[i].key) ==
              if p < |Run(before)| then Birth(before, Run(before)[p].key) else Some(|before|)
  {
    var before, op := ops[..|ops| - 1], ops[|ops| - 1];
    var c, key := Run(before), Run(ops)[i].key;
    KeyBefore(c, op, i);
    assert AtKey(Run(ops), key, i);
    PresentIsBorn(ops, key);
    PresentIsBorn(before, key);
    assert AtKey(c, key, PlaceBefore(c, op, i)) || PlaceBefore(c, op, i) >= |c|;
  }

  ghost predicate Older(ops: seq<Op>, c: seq<Entry>, i: nat, j: nat) {
    i < j < |c| ==>
      && Birth(ops, c[i].key).Some? && Birth(ops, c[j].key).Some?
      && Birth(ops, c[i].key).value < Birth(ops, c[j].key).value
  }

  /** The entries stand in the order in which their keys were inserted, for every run. */
  lemma {:induction false} RunOrder(ops: seq<Op>, i: nat, j: nat)
    requires AllEnabled(ops)
    ensures Older(ops, Run(ops), i, j)
    decreases |ops|
  {
    if ops != [] && i < j < |Run(ops)| {
      var before, op := ops[..|ops| - 1], ops[|ops| - 1];
      BirthOfEntry(ops, i);
      BirthOfEntry(ops, j);
      RunOrder(before, PlaceBefore(Run(before), op, i), PlaceBefore(Run(before), op, j));
    }
  }
}
