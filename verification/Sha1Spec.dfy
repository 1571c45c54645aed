/**
 SHA-1 as FIPS 180-4 defines it: the functions of section 4.1.1, the constants of sections 4.2.1 and 5.3.1, the
 padding of section 5.1.1, and the computation with a full 80-word schedule of section 6.1.2.
 */
module Sha1Spec {
  import opened Words

  datatype Regs = Regs(a: bv32, b: bv32, c: bv32, d: bv32, e: bv32)

  const H0 := Regs(0x67452301, 0xefcdab89, 0x98badcfe, 0x10325476, 0xc3d2e1f0)

  // the rotations ROTL of section 3.2 that SHA-1 uses

  function Rotl1(x: bv32): bv32 { (x << 1) | (x >> 31) }

  function Rotl5(x: bv32): bv32 { (x << 5) | (x >> 27) }

  function Rotl30(x: bv32): bv32 { (x << 30) | (x >> 2) }

  function Ch(x: bv32, y: bv32, z: bv32): bv32 { (x & y) ^ (!x & z) }

  function Parity(x: bv32, y: bv32, z: bv32): bv32 { x ^ y ^ z }

  function Maj(x: bv32, y: bv32, z: bv32): bv32 { (x & y) ^ (x & z) ^ (y & z) }

  function F(t: nat, x: bv32, y: bv32, z: bv32): bv32 {
    if t < 20 then Ch(x, y, z) else if t < 40 then Parity(x, y, z) else if t < 60 then Maj(x, y, z) else Parity(x, y, z)
  }

  function K(t: nat): bv32 {
    if t < 20 then 0x5a827999 else if t < 40 then 0x6ed9eba1 else if t < 60 then 0x8f1bbcdc else 0xca62c1d6
  }

  /** The message schedule: word t of the 80. */
  function W(m: seq<bv32>, t: nat): bv32
    requires |m| == 16
  {
    if t < 16 then m[t] else Rotl1(W(m, t - 3) ^ W(m, t - 8) ^ W(m, t - 14) ^ W(m, t - 16))
  }

  function Sum(u: bv32, v: bv32, w: bv32, x: bv32, y: bv32): bv32 { u + v + w + x + y }

  function Round(r: Regs, t: nat, w: bv32): Regs {
    Regs(Sum(Rotl5(r.a), F(t, r.b, r.c, r.d), r.e, K(t), w), r.a, Rotl30(r.b), r.c, r.d)
  }

  /** The working variables after t rounds. */
  function Rounds(h: Regs, m: seq<bv32>, t: nat): Regs
    requires |m| == 16
  {
    if t == 0 then h else Round(Rounds(h, m, t - 1), t - 1, W(m, t - 1))
  }

  function Add(h: Regs, r: Regs): Regs {
    Regs(h.a + r.a, h.b + r.b, h.c + r.c, h.d + r.d, h.e + r.e)
  }

  const ROUNDS: nat := 80

  function Compress(h: Regs, m: seq<bv32>): Regs
    requires |m| == 16
  {
    Add(h, Rounds(h, m, ROUNDS))
  }

  // ---- messages

  /** The 16 words of one 64-byte block. */
  function BlockWords(b: seq<bv8>): (m: seq<bv32>)
    requires |b| == 64
    ensures |m| == 16
  {
    seq(16, i requires 0 <= i < 16 => BigEndian(b[4 * i], b[4 * i + 1], b[4 * i + 2], b[4 * i + 3]))
  }

  /** The hash value after the first k blocks. */
  function Blocks(h: Regs, msg: seq<bv8>, k: nat): Regs
    requires 64 * k <= |msg|
  {
    if k == 0 then h else Compress(Blocks(h, msg, k - 1), BlockWords(msg[64 * (k - 1)..64 * k]))
  }

  function Zeros(n: nat): (z: seq<bv8>)
    ensures |z| == n
  {
    seq(n, i => 0)
  }

  lemma {:induction false} PaddedLength(n: nat)
    ensures (n + 1 + (119 - n % 64) % 64 + 8) % 64 == 0
  {
    var q, r := n / 64, n % 64;
    assert n == 64 * q + r;
    if r <= 55 {
      assert (119 - r) % 64 == 55 - r;
      assert n + 1 + (55 - r) + 8 == 64 * (q + 1);
    } else {
      assert (119 - r) % 64 == 119 - r;
      assert n + 1 + (119 - r) + 8 == 64 * (q + 2);
    }
  }

  /** Padding: a one bit, the fewest zero bits that leave 64 bits to the next multiple of 512, and the length in bits. */
  function Pad(msg: seq<bv8>): (p: seq<bv8>)
    ensures |p| % 64 == 0
  {
    PaddedLength(|msg|);
    var zeros := (119 - |msg| % 64) % 64;
    msg + [0x80] + Zeros(zeros) + Bytes(8 * |msg|, 8)
  }

  /** The padded message is the message, a byte 0x80, zero bytes up to eight bytes before the next multiple of 64 that leaves
      room for them, and the length in bits in those. */
  lemma {:induction false} PadIsLeast(msg: seq<bv8>)
    ensures var p, n := Pad(msg), |msg|;
            && |p| % 64 == 0 && n + 9 <= |p| < n + 73
            && p[..n] == msg && p[n] == 0x80 && p[|p| - 8..] == Bytes(8 * n, 8)
            && forall i :: n < i < |p| - 8 ==> p[i] == 0
  {
  }

  const MAX_LENGTH: nat := 0x2000_0000_0000_0000

  /** Messages are shorter than 2^64 bits. */
  function Sha1(msg: seq<bv8>): Regs
    requires |msg| < MAX_LENGTH
  {
    Blocks(H0, Pad(msg), |Pad(msg)| / 64)
  }

  lemma {:induction false} SliceOfSecond<A>(p: seq<A>, q: seq<A>, lo: nat, hi: nat)
    requires lo <= hi <= |q|
    ensures (p + q)[|p| + lo..|p| + hi] == q[lo..hi]
  {
  }

  /** Hashing block by block can be cut at any block boundary. */
  lemma {:induction false} BlocksSplit(h: Regs, p: seq<bv8>, q: seq<bv8>, k: nat)
    requires |p| % 64 == 0 && 64 * k <= |q|
    ensures Blocks(h, p + q, |p| / 64 + k) == Blocks(Blocks(h, p, |p| / 64), q, k)
  {
    hide Compress, BlockWords;
    if k == 0 {
      BlocksPrefix(h, p, q, |p| / 64);
    } else {
      BlocksSplit(h, p, q, k - 1);
      var n := |p| / 64;
      SliceOfSecond(p, q, 64 * (k - 1), 64 * k);
      assert 64 * n == |p| && 64 * (n + k - 1) == |p| + 64 * (k - 1) && 64 * (n + k) == |p| + 64 * k;
    }
  }

  lemma {:induction false} BlocksPrefix(h: Regs, p: seq<bv8>, q: seq<bv8>, k: nat)
    requires 64 * k <= |p|
    ensures Blocks(h, p + q, k) == Blocks(h, p, k)
  {
    if k == 0 {
    } else {
      BlocksPrefix(h, p, q, k - 1);
      assert (p + q)[64 * (k - 1)..64 * k] == p[64 * (k - 1)..64 * k];
    }
  }
}
