/**
 The compression as it is coded: 80 unrolled rounds that rotate the names of the registers instead of their
 contents, over a ring of 16 schedule words that is rewritten in place, with cheaper forms of two functions.
 It computes the 80-word definition of FIPS 180-4, section 6.1.2.
 */
module Sha1Rounds {
  import opened Sha1Spec

  const K1: bv32 := 0x5a827999
  const K2: bv32 := 0x6ed9eba1
  const K3: bv32 := 0x8f1bbcdc
  const K4: bv32 := 0xca62c1d6

  lemma {:induction false} ChooseBySelect(b: bv32, c: bv32, d: bv32)
    ensures d ^ (b & (c ^ d)) == (b & c) ^ (!b & d)
  {
  }

  lemma {:induction false} MajorityByOr(b: bv32, c: bv32, d: bv32)
    ensures (b & c) | (d & (b | c)) == (b & c) ^ (b & d) ^ (c & d)
  {
  }

  lemma {:induction false} SumOrder(e: bv32, r: bv32, f: bv32, k: bv32, w: bv32)
    ensures e + (r + f + k + w) == Sum(r, f, e, k, w)
  {
  }

  function F1(b: bv32, c: bv32, d: bv32): (r: bv32)
    ensures r == Ch(b, c, d)
  {
    ChooseBySelect(b, c, d);
    d ^ (b & (c ^ d))
  }

  function F2(b: bv32, c: bv32, d: bv32): bv32 {
    b ^ c ^ d
  }

  function F3(b: bv32, c: bv32, d: bv32): (r: bv32)
    ensures r == Maj(b, c, d)
  {
    MajorityByOr(b, c, d);
    (b & c) | (d & (b | c))
  }

  function F4(b: bv32, c: bv32, d: bv32): bv32 {
    b ^ c ^ d
  }

  /** One run of the definition: its schedule words and the working variables between its rounds. */
  datatype Run = Run(h: Regs, m: seq<bv32>, words: seq<bv32>, states: seq<Regs>) {
    ghost predicate WordAt(t: nat)
      requires |m| == 16 && |words| == ROUNDS
    {
      t < ROUNDS ==> words[t] == W(m, t)
    }

    ghost predicate StateAt(t: nat)
      requires |m| == 16 && |states| == ROUNDS + 1
    {
      t <= ROUNDS ==> states[t] == Rounds(h, m, t)
    }

    ghost predicate Valid() {
      && |m| == 16 && |words| == ROUNDS && |states| == ROUNDS + 1
      && (forall t: nat {:trigger WordAt(t)} :: WordAt(t))
      && (forall t: nat {:trigger StateAt(t)} :: StateAt(t))
    }
  }

  ghost function RunOf(h: Regs, m: seq<bv32>): (u: Run)
    requires |m| == 16
    ensures u.Valid() && u.words[..16] == m
    ensures u.states[0] == h && u.states[ROUNDS] == Rounds(h, m, ROUNDS)
  {
    var u := Run(h, m, seq(ROUNDS, t requires 0 <= t < ROUNDS => W(m, t)),
                 seq(ROUNDS + 1, t requires 0 <= t <= ROUNDS => Rounds(h, m, t)));
    assert forall t: nat :: t < ROUNDS ==> u.words[t] == W(m, t);
    assert forall t: nat :: t <= ROUNDS ==> u.states[t] == Rounds(h, m, t);
    u
  }

  /** The ring holds the last 16 schedule words before word t. */
  ghost predicate Ring(x: seq<bv32>, words: seq<bv32>, t: nat)
    requires |x| == 16
  {
    16 <= t <= |words| && forall j {:trigger words[j]} :: t - 16 <= j < t ==> x[j % 16] == words[j]
  }

  type Mixer = (bv32, bv32, bv32) -> bv32

  /** The macro arguments F and K are the ones FIPS 180-4 prescribes for round t. */
  ghost predicate Fits(f: Mixer, k: bv32, t: nat) {
    k == K(t) && forall b, c, d {:trigger f(b, c, d)} :: f(b, c, d) == F(t, b, c, d)
  }

  lemma {:induction false} Phase1()
    ensures forall t: nat {:trigger Fits(F1, K1, t)} :: t < 20 ==> Fits(F1, K1, t)
  {
  }

  lemma {:induction false} Phase2()
    ensures forall t: nat {:trigger Fits(F2, K2, t)} :: 20 <= t < 40 ==> Fits(F2, K2, t)
  {
  }

  lemma {:induction false} Phase3()
    ensures forall t: nat {:trigger Fits(F3, K3, t)} :: 40 <= t < 60 ==> Fits(F3, K3, t)
  {
  }

  lemma {:induction false} Phase4()
    ensures forall t: nat {:trigger Fits(F4, K4, t)} :: 60 <= t < 80 ==> Fits(F4, K4, t)
  {
  }

  lemma {:induction false} RunStep(u: Run, t: nat)
    requires u.Valid() && t < ROUNDS
    ensures u.states[t + 1] == Round(u.states[t], t, u.words[t])
  {
    assert u.StateAt(t) && u.StateAt(t + 1) && u.WordAt(t);
  }

  lemma {:induction false} RoundByNames(t: nat, a: bv32, b: bv32, c: bv32, d: bv32, e: bv32,
                                        mixed: bv32, k: bv32, w: bv32)
    requires mixed == F(t, b, c, d) && k == K(t)
    ensures Regs(e + (Rotl5(a) + mixed + k + w), a, Rotl30(b), c, d) == Round(Regs(a, b, c, d, e), t, w)
  {
    SumOrder(e, Rotl5(a), mixed, k, w);
  }

  /** The macro R: two of the five registers change, and the roles of all five move on by one name. */
  method R(t: nat, a: bv32, b: bv32, c: bv32, d: bv32, e: bv32, f: Mixer, k: bv32, w: bv32, ghost u: Run)
    returns (e': bv32, b': bv32)
    requires u.Valid() && t < ROUNDS && Fits(f, k, t)
    requires Regs(a, b, c, d, e) == u.states[t] && w == u.words[t]
    ensures Regs(e', a, b', c, d) == u.states[t + 1]
  {
    RunStep(u, t);
    var mixed := f(b, c, d);
    RoundByNames(t, a, b, c, d, e, mixed, k, w);
    e' := e + (Rotl5(a) + mixed + k + w);
    b' := Rotl30(b);
  }

  lemma {:induction false} XorOrder(p: bv32, q: bv32, r: bv32, s: bv32)
    ensures p ^ q ^ r ^ s == s ^ r ^ q ^ p
  {
  }

  lemma {:induction false} FullRing(x: seq<bv32>, words: seq<bv32>)
    requires |x| == 16 <= |words| && x == words[..16]
    ensures Ring(x, words, 16)
  {
  }

  lemma {:induction false} RingWord(x: seq<bv32>, u: Run, i: nat)
    requires |x| == 16 && u.Valid() && Ring(x, u.words, i) && i < ROUNDS
    ensures Rotl1(x[i % 16] ^ x[(i - 14) % 16] ^ x[(i - 8) % 16] ^ x[(i - 3) % 16]) == u.words[i]
  {
    hide Rotl1;
    var v := u.words;
    assert u.WordAt(i) && u.WordAt(i - 16) && u.WordAt(i - 14) && u.WordAt(i - 8) && u.WordAt(i - 3);
    assert x[(i - 16) % 16] == v[i - 16] && x[(i - 14) % 16] == v[i - 14];
    assert x[(i - 8) % 16] == v[i - 8] && x[(i - 3) % 16] == v[i - 3];
    XorOrder(v[i - 16], v[i - 14], v[i - 8], v[i - 3]);
  }

  lemma {:induction false} RingMoves(x: seq<bv32>, words: seq<bv32>, i: nat)
    requires |x| == 16 && Ring(x, words, i) && i < |words|
    ensures Ring(x[i % 16 := words[i]], words, i + 1)
  {
    var y := x[i % 16 := words[i]];
    forall j | i + 1 - 16 <= j < i + 1
      ensures y[j % 16] == words[j]
    {
      if j < i {
        assert x[j % 16] == words[j];
        assert j % 16 != i % 16;
      }
    }
  }

  /** The macro M: the next schedule word replaces the one 16 places back. */
  method M(i: nat, x: array<bv32>, ghost u: Run) returns (w: bv32)
    requires u.Valid() && x.Length == 16 && Ring(x[..], u.words, i) && i < ROUNDS
    modifies x
    ensures w == u.words[i] && Ring(x[..], u.words, i + 1)
  {
    RingWord(x[..], u, i);
    RingMoves(x[..], u.words, i);
    w := Rotl1(x[i % 16] ^ x[(i - 14) % 16] ^ x[(i - 8) % 16] ^ x[(i - 3) % 16]);
    ghost var y := x[..][i % 16 := w];
    x[i % 16] := w;
    assert x[..] == y;
  }

  // The 80 lines of the block loop, ten rounds to a method: rounds 0 to 15 use the loaded words, later ones rewrite the ring.

  method Rounds0(x: array<bv32>, a0: bv32, b0: bv32, c0: bv32, d0: bv32, e0: bv32, t: nat, ghost u: Run)
    returns (a: bv32, b: bv32, c: bv32, d: bv32, e: bv32)
    requires u.Valid() && x.Length == 16 && t == 0
    requires Regs(a0, b0, c0, d0, e0) == u.states[t]
    requires x[..] == u.words[..16]
    ensures Regs(a, b, c, d, e) == u.states[t + 10]
  {
    Phase1();
    a, b, c, d, e := a0, b0, c0, d0, e0;
    e, b := R(t, a, b, c, d, e, F1, K1, x[0], u);
    d, a := R(t + 1, e, a, b, c, d, F1, K1, x[1], u);
    c, e := R(t + 2, d, e, a, b, c, F1, K1, x[2], u);
    b, d := R(t + 3, c, d, e, a, b, F1, K1, x[3], u);
    a, c := R(t + 4, b, c, d, e, a, F1, K1, x[4], u);
    e, b := R(t + 5, a, b, c, d, e, F1, K1, x[5], u);
    d, a := R(t + 6, e, a, b, c, d, F1, K1, x[6], u);
    c, e := R(t + 7, d, e, a, b, c, F1, K1, x[7], u);
    b, d := R(t + 8, c, d, e, a, b, F1, K1, x[8], u);
    a, c := R(t + 9, b, c, d, e, a, F1, K1, x[9], u);
  }

  method Rounds10(x: array<bv32>, a0: bv32, b0: bv32, c0: bv32, d0: bv32, e0: bv32, t: nat, ghost u: Run)
    returns (a: bv32, b: bv32, c: bv32, d: bv32, e: bv32)
    requires u.Valid() && x.Length == 16 && t == 10
    requires Regs(a0, b0, c0, d0, e0) == u.states[t]
    requires x[..] == u.words[..16]
    modifies x
    ensures Regs(a, b, c, d, e) == u.states[t + 10]
    ensures Ring(x[..], u.words, t + 10)
  {
    Phase1();
    a, b, c, d, e := a0, b0, c0, d0, e0;
    var w: bv32;
    FullRing(x[..], u.words);
    e, b := R(t, a, b, c, d, e, F1, K1, x[10], u);
    d, a := R(t + 1, e, a, b, c, d, F1, K1, x[11], u);
    c, e := R(t + 2, d, e, a, b, c, F1, K1, x[12], u);
    b, d := R(t + 3, c, d, e, a, b, F1, K1, x[13], u);
    a, c := R(t + 4, b, c, d, e, a, F1, K1, x[14], u);
    e, b := R(t + 5, a, b, c, d, e, F1, K1, x[15], u);
    w := M(t + 6, x, u); d, a := R(t + 6, e, a, b, c, d, F1, K1, w, u);
    w := M(t + 7, x, u); c, e := R(t + 7, d, e, a, b, c, F1, K1, w, u);
    w := M(t + 8, x, u); b, d := R(t + 8, c, d, e, a, b, F1, K1, w, u);
    w := M(t + 9, x, u); a, c := R(t + 9, b, c, d, e, a, F1, K1, w, u);
  }

  method Rounds20(x: array<bv32>, a0: bv32, b0: bv32, c0: bv32, d0: bv32, e0: bv32, t: nat, ghost u: Run)
    returns (a: bv32, b: bv32, c: bv32, d: bv32, e: bv32)
    requires u.Valid() && x.Length == 16 && t == 20
    requires Regs(a0, b0, c0, d0, e0) == u.states[t]
    requires Ring(x[..], u.words, t)
    modifies x
    ensures Regs(a, b, c, d, e) == u.states[t + 10]
    ensures Ring(x[..], u.words, t + 10)
  {
    Phase2();
    a, b, c, d, e := a0, b0, c0, d0, e0;
    var w: bv32;
    w := M(t, x, u); e, b := R(t, a, b, c, d, e, F2, K2, w, u);
    w := M(t + 1, x, u); d, a := R(t + 1, e, a, b, c, d, F2, K2, w, u);
    w := M(t + 2, x, u); c, e := R(t + 2, d, e, a, b, c, F2, K2, w, u);
    w := M(t + 3, x, u); b, d := R(t + 3, c, d, e, a, b, F2, K2, w, u);
    w := M(t + 4, x, u); a, c := R(t + 4, b, c, d, e, a, F2, K2, w, u);
    w := M(t + 5, x, u); e, b := R(t + 5, a, b, c, d, e, F2, K2, w, u);
    w := M(t + 6, x, u); d, a := R(t + 6, e, a, b, c, d, F2, K2, w, u);
    w := M(t + 7, x, u); c, e := R(t + 7, d, e, a, b, c, F2, K2, w, u);
    w := M(t + 8, x, u); b, d := R(t + 8, c, d, e, a, b, F2, K2, w, u);
    w := M(t + 9, x, u); a, c := R(t + 9, b, c, d, e, a, F2, K2, w, u);
  }

  method Rounds30(x: array<bv32>, a0: bv32, b0: bv32, c0: bv32, d0: bv32, e0: bv32, t: nat, ghost u: Run)
    returns (a: bv32, b: bv32, c: bv32, d: bv32, e: bv32)
    requires u.Valid() && x.Length == 16 && t == 30
    requires Regs(a0, b0, c0, d0, e0) == u.states[t]
    requires Ring(x[..], u.words, t)
    modifies x
    ensures Regs(a, b, c, d, e) == u.states[t + 10]
    ensures Ring(x[..], u.words, t + 10)
  {
    Phase2();
    a, b, c, d, e := a0, b0, c0, d0, e0;
    var w: bv32;
    w := M(t, x, u); e, b := R(t, a, b, c, d, e, F2, K2, w, u);
    w := M(t + 1, x, u); d, a := R(t + 1, e, a, b, c, d, F2, K2, w, u);
    w := M(t + 2, x, u); c, e := R(t + 2, d, e, a, b, c, F2, K2, w, u);
    w := M(t + 3, x, u); b, d := R(t + 3, c, d, e, a, b, F2, K2, w, u);
    w := M(t + 4, x, u); a, c := R(t + 4, b, c, d, e, a, F2, K2, w, u);
    w := M(t + 5, x, u); e, b := R(t + 5, a, b, c, d, e, F2, K2, w, u);
    w := M(t + 6, x, u); d, a := R(t + 6, e, a, b, c, d, F2, K2, w, u);
    w := M(t + 7, x, u); c, e := R(t + 7, d, e, a, b, c, F2, K2, w, u);
    w := M(t + 8, x, u); b, d := R(t + 8, c, d, e, a, b, F2, K2, w, u);
    w := M(t + 9, x, u); a, c := R(t + 9, b, c, d, e, a, F2, K2, w, u);
  }

  method Rounds40(x: array<bv32>, a0: bv32, b0: bv32, c0: bv32, d0: bv32, e0: bv32, t: nat, ghost u: Run)
    returns (a: bv32, b: bv32, c: bv32, d: bv32, e: bv32)
    requires u.Valid() && x.Length == 16 && t == 40
    requires Regs(a0, b0, c0, d0, e0) == u.states[t]
    requires Ring(x[..], u.words, t)
    modifies x
    ensures Regs(a, b, c, d, e) == u.states[t + 10]
    ensures Ring(x[..], u.words, t + 10)
  {
    Phase3();
    a, b, c, d, e := a0, b0, c0, d0, e0;
    var w: bv32;
    w := M(t, x, u); e, b := R(t, a, b, c, d, e, F3, K3, w, u);
    w := M(t + 1, x, u); d, a := R(t + 1, e, a, b, c, d, F3, K3, w, u);
    w := M(t + 2, x, u); c, e := R(t + 2, d, e, a, b, c, F3, K3, w, u);
    w := M(t + 3, x, u); b, d := R(t + 3, c, d, e, a, b, F3, K3, w, u);
    w := M(t + 4, x, u); a, c := R(t + 4, b, c, d, e, a, F3, K3, w, u);
    w := M(t + 5, x, u); e, b := R(t + 5, a, b, c, d, e, F3, K3, w, u);
    w := M(t + 6, x, u); d, a := R(t + 6, e, a, b, c, d, F3, K3, w, u);
    w := M(t + 7, x, u); c, e := R(t + 7, d, e, a, b, c, F3, K3, w, u);
    w := M(t + 8, x, u); b, d := R(t + 8, c, d, e, a, b, F3, K3, w, u);
    w := M(t + 9, x, u); a, c := R(t + 9, b, c, d, e, a, F3, K3, w, u);
  }

  method Rounds50(x: array<bv32>, a0: bv32, b0: bv32, c0: bv32, d0: bv32, e0: bv32, t: nat, ghost u: Run)
    returns (a: bv32, b: bv32, c: bv32, d: bv32, e: bv32)
    requires u.Valid() && x.Length == 16 && t == 50
    requires Regs(a0, b0, c0, d0, e0) == u.states[t]
    requires Ring(x[..], u.words, t)
    modifies x
    ensures Regs(a, b, c, d, e) == u.states[t + 10]
    ensures Ring(x[..], u.words, t + 10)
  {
    Phase3();
    a, b, c, d, e := a0, b0, c0, d0, e0;
    var w: bv32;
    w := M(t, x, u); e, b := R(t, a, b, c, d, e, F3, K3, w, u);
    w := M(t + 1, x, u); d, a := R(t + 1, e, a, b, c, d, F3, K3, w, u);
    w := M(t + 2, x, u); c, e := R(t + 2, d, e, a, b, c, F3, K3, w, u);
    w := M(t + 3, x, u); b, d := R(t + 3, c, d, e, a, b, F3, K3, w, u);
    w := M(t + 4, x, u); a, c := R(t + 4, b, c, d, e, a, F3, K3, w, u);
    w := M(t + 5, x, u); e, b := R(t + 5, a, b, c, d, e, F3, K3, w, u);
    w := M(t + 6, x, u); d, a := R(t + 6, e, a, b, c, d, F3, K3, w, u);
    w := M(t + 7, x, u); c, e := R(t + 7, d, e, a, b, c, F3, K3, w, u);
    w := M(t + 8, x, u); b, d := R(t + 8, c, d, e, a, b, F3, K3, w, u);
    w := M(t + 9, x, u); a, c := R(t + 9, b, c, d, e, a, F3, K3, w, u);
  }

  method Rounds60(x: array<bv32>, a0: bv32, b0: bv32, c0: bv32, d0: bv32, e0: bv32, t: nat, ghost u: Run)
    returns (a: bv32, b: bv32, c: bv32, d: bv32, e: bv32)
    requires u.Valid() && x.Length == 16 && t == 60
    requires Regs(a0, b0, c0, d0, e0) == u.states[t]
    requires Ring(x[..], u.words, t)
    modifies x
    ensures Regs(a, b, c, d, e) == u.states[t + 10]
    ensures Ring(x[..], u.words, t + 10)
  {
    Phase4();
    a, b, c, d, e := a0, b0, c0, d0, e0;
    var w: bv32;
    w := M(t, x, u); e, b := R(t, a, b, c, d, e, F4, K4, w, u);
    w := M(t + 1, x, u); d, a := R(t + 1, e, a, b, c, d, F4, K4, w, u);
    w := M(t + 2, x, u); c, e := R(t + 2, d, e, a, b, c, F4, K4, w, u);
    w := M(t + 3, x, u); b, d := R(t + 3, c, d, e, a, b, F4, K4, w, u);
    w := M(t + 4, x, u); a, c := R(t + 4, b, c, d, e, a, F4, K4, w, u);
    w := M(t + 5, x, u); e, b := R(t + 5, a, b, c, d, e, F4, K4, w, u);
    w := M(t + 6, x, u); d, a := R(t + 6, e, a, b, c, d, F4, K4, w, u);
    w := M(t + 7, x, u); c, e := R(t + 7, d, e, a, b, c, F4, K4, w, u);
    w := M(t + 8, x, u); b, d := R(t + 8, c, d, e, a, b, F4, K4, w, u);
    w := M(t + 9, x, u); a, c := R(t + 9, b, c, d, e, a, F4, K4, w, u);
  }

  method Rounds70(x: array<bv32>, a0: bv32, b0: bv32, c0: bv32, d0: bv32, e0: bv32, t: nat, ghost u: Run)
    returns (a: bv32, b: bv32, c: bv32, d: bv32, e: bv32)
    requires u.Valid() && x.Length == 16 && t == 70
    requires Regs(a0, b0, c0, d0, e0) == u.states[t]
    requires Ring(x[..], u.words, t)
    modifies x
    ensures Regs(a, b, c, d, e) == u.states[t + 10]
    ensures Ring(x[..], u.words, t + 10)
  {
    Phase4();
    a, b, c, d, e := a0, b0, c0, d0, e0;
    var w: bv32;
    w := M(t, x, u); e, b := R(t, a, b, c, d, e, F4, K4, w, u);
    w := M(t + 1, x, u); d, a := R(t + 1, e, a, b, c, d, F4, K4, w, u);
    w := M(t + 2, x, u); c, e := R(t + 2, d, e, a, b, c, F4, K4, w, u);
    w := M(t + 3, x, u); b, d := R(t + 3, c, d, e, a, b, F4, K4, w, u);
    w := M(t + 4, x, u); a, c := R(t + 4, b, c, d, e, a, F4, K4, w, u);
    w := M(t + 5, x, u); e, b := R(t + 5, a, b, c, d, e, F4, K4, w, u);
    w := M(t + 6, x, u); d, a := R(t + 6, e, a, b, c, d, F4, K4, w, u);
    w := M(t + 7, x, u); c, e := R(t + 7, d, e, a, b, c, F4, K4, w, u);
    w := M(t + 8, x, u); b, d := R(t + 8, c, d, e, a, b, F4, K4, w, u);
    w := M(t + 9, x, u); a, c := R(t + 9, b, c, d, e, a, F4, K4, w, u);
  }

  method FirstHalf(h: Regs, x: array<bv32>, ghost u: Run) returns (a: bv32, b: bv32, c: bv32, d: bv32, e: bv32)
    requires u.Valid() && x.Length == 16 && x[..] == u.words[..16] && h == u.states[0]
    modifies x
    ensures Regs(a, b, c, d, e) == u.states[40] && Ring(x[..], u.words, 40)
  {
    a, b, c, d, e := Rounds0(x, h.a, h.b, h.c, h.d, h.e, 0, u);
    a, b, c, d, e := Rounds10(x, a, b, c, d, e, 10, u);
    a, b, c, d, e := Rounds20(x, a, b, c, d, e, 20, u);
    a, b, c, d, e := Rounds30(x, a, b, c, d, e, 30, u);
  }

  method AllRounds(h: Regs, x: array<bv32>, ghost u: Run) returns (r: Regs)
    requires u.Valid() && x.Length == 16 && x[..] == u.words[..16] && h == u.states[0]
    modifies x
    ensures r == u.states[ROUNDS]
  {
    var a, b, c, d, e := FirstHalf(h, x, u);
    a, b, c, d, e := Rounds40(x, a, b, c, d, e, 40, u);
    a, b, c, d, e := Rounds50(x, a, b, c, d, e, 50, u);
    a, b, c, d, e := Rounds60(x, a, b, c, d, e, 60, u);
    a, b, c, d, e := Rounds70(x, a, b, c, d, e, 70, u);
    r := Regs(a, b, c, d, e);
  }

  /** The body of the block loop, between loading the block into the ring and adding to the chaining value. */
  method CompressRing(h: Regs, x: array<bv32>) returns (r: Regs)
    requires x.Length == 16
    modifies x
    ensures r == Rounds(h, old(x[..]), ROUNDS)
  {
    r := AllRounds(h, x, RunOf(h, x[..]));
  }
}
