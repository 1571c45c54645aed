/**
 Facts about 64-bit words that the masking loops rest on.
 */
module Bits {

  const MSB: bv64 := 0x8000_0000_0000_0000

  function Round(m: bv64): bv64 {
    (m >> 1) | MSB
  }

  lemma {:induction false} EightOf(m: bv64)
    ensures Round(Round(Round(Round(Round(Round(Round(Round(m)))))))) == (m >> 8) | 0xFF00_0000_0000_0000
  {
  }

  lemma {:induction false} XorIsZero(p: bv64, q: bv64)
    ensures p ^ q == 0 <==> p == q
  {
  }

  lemma {:induction false} MaskXor(x: bv64, y: bv64, m: bv64)
    ensures (x ^ y) & m == (x & m) ^ (y & m)
  {
  }

  lemma {:induction false} MaskedXor(x: bv64, y: bv64, m: bv64)
    ensures x & m == y & m <==> (x ^ y) & m == 0
  {
    MaskXor(x, y, m);
    XorIsZero(x & m, y & m);
  }

  lemma {:induction false} PeelMask(z: bv64, m: bv64)
    ensures z & Round(m) == 0 <==> z & MSB == 0 && (z << 1) & m == 0
  {
  }

  lemma {:induction false} AndZero(z: bv64)
    ensures z & 0 == 0
  {
  }

  lemma {:induction false} AndAll(z: bv64)
    ensures z & 0xFFFF_FFFF_FFFF_FFFF == z
  {
  }

  lemma {:induction false} SameUnderAll(x: bv64, y: bv64, m: bv64)
    requires m == 0xFFFF_FFFF_FFFF_FFFF && x & m == y & m
    ensures x == y
  {
    AndAll(x);
    AndAll(y);
  }

  lemma {:induction false} DifferenceIsZero(p: bv32, q: bv32)
    ensures p - q == 0 <==> p == q
  {
  }

  lemma {:induction false} XorTwice(x: bv64, c: bv64)
    ensures (x ^ c) ^ c == x
  {
  }

  lemma {:induction false} AndTwice(x: bv64, m: bv64)
    ensures (x & m) & m == x & m
  {
  }

  lemma {:induction false} ShiftXor(x: bv64, y: bv64)
    ensures (x ^ y) << 1 == (x << 1) ^ (y << 1)
    ensures (x ^ y) & MSB == 0 <==> (x & MSB != 0) == (y & MSB != 0)
  {
  }

  lemma {:induction false} PeelAnd(x: bv64, m: bv64)
    ensures (x & Round(m)) << 1 == (x << 1) & m
  {
  }

  lemma {:induction false} ZeroShift(x: bv64)
    requires x == 0
    ensures x << 1 == 0 && x & MSB == 0
  {
  }
}
