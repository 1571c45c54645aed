/**
 The streaming digest: a context that takes a message in chunks of any size, with a 128-byte carry buffer and
 three ways of feeding the compression, and appends the padding at the end.
 */
module Sha1 {
  import opened Sha1Spec
  import opened Sha1Rounds
  import opened Words

  const COUNT: nat := 0x1_0000_0000_0000_0000

  // ---- the message absorbed so far

  ghost predicate WholeBlocks(p: seq<bv8>, k: nat) {
    |p| == 64 * k
  }

  /** `p` consists of whole blocks and has been compressed, starting from the initial hash value. */
  ghost predicate Absorbed(regs: Regs, p: seq<bv8>) {
    |p| % 64 == 0 && forall k: nat {:trigger WholeBlocks(p, k)} :: WholeBlocks(p, k) ==> regs == Blocks(H0, p, k)
  }

  lemma {:induction false} AbsorbMore(regs: Regs, p: seq<bv8>, q: seq<bv8>)
    requires Absorbed(regs, p) && |q| % 64 == 0
    ensures Absorbed(Blocks(regs, q, |q| / 64), p + q)
  {
    assert WholeBlocks(p, |p| / 64);
    BlocksSplit(H0, p, q, |q| / 64);
    assert |p + q| / 64 == |p| / 64 + |q| / 64;
  }

  lemma {:induction false} TwoWordSum(t0: nat, t1: nat, len: nat, n: nat)
    requires t0 < WORD && t1 < WORD && t0 + WORD * t1 == n % COUNT
    ensures (n + len) % COUNT == (t0 + len) % WORD + WORD * ((t1 + (t0 + len) / WORD) % WORD)
  {
    var low, carry := (t0 + len) % WORD, (t0 + len) / WORD;
    assert t0 + len == low + WORD * carry;
    assert (n + len) % COUNT == (low + WORD * (t1 + carry)) % COUNT;
  }

  lemma {:induction false} OneCarry(t0: nat, t1: nat, len: nat)
    requires t0 < WORD && t1 < WORD && len < COUNT
    ensures (t1 + (t0 + len) / WORD) % WORD == (if (t0 + len) % WORD < len then (t1 + 1) % WORD else t1)
       <==> len < WORD || t0 + len < 2 * WORD
  {
    var carry := (t0 + len) / WORD;
    assert carry <= WORD;
    assert len < WORD ==> carry <= 1;
  }

  /** One conditional increment carries the right amount exactly under this condition. */
  lemma {:induction false} CarryIsExactIff(t0: nat, t1: nat, len: nat, n: nat)
    requires t0 < WORD && t1 < WORD && len < COUNT && t0 + WORD * t1 == n % COUNT
    ensures
      var low := (t0 + len) % WORD;
      var high := if low < len then (t1 + 1) % WORD else t1;
      low + WORD * high == (n + len) % COUNT <==> len < WORD || t0 + len < 2 * WORD
  {
    TwoWordSum(t0, t1, len, n);
    OneCarry(t0, t1, len);
  }

  /** A call with 2^33 bytes on a fresh context loses a carry. */
  lemma {:induction false} CarryCanBeLost()
    ensures var len := 0x2_0000_0000;
            var low := len % WORD;
            var high := if low < len then 1 else 0;
            low + WORD * high != len % COUNT
  {
    CarryIsExactIff(0, 0, 0x2_0000_0000, 0);
  }

  class Context {
    var regs: Regs
    var total0: nat
    var total1: nat
    var buflen: nat
    const buffer: array<bv8>
    /** The part of the message that is already compressed. */
    ghost var done: seq<bv8>

    ghost predicate CountIs(n: nat)
      reads this`total0, this`total1
    {
      total0 < WORD && total1 < WORD && total0 + WORD * total1 == n % COUNT
    }

    /** The last bytes of the message wait in the buffer, at most a full block of them. */
    ghost predicate Valid()
      reads this, buffer
    {
      buffer.Length == 128 && buflen <= 64 && Absorbed(regs, done) && CountIs(|done|)
    }

    /** The whole message so far. */
    ghost function Message(): seq<bv8>
      reads this, buffer
      requires Valid()
    {
      done + buffer[..buflen]
    }

    constructor ()
      ensures Valid() && Message() == [] && fresh(buffer)
    {
      regs := H0;
      total0, total1, buflen := 0, 0, 0;
      buffer := new bv8[128];
      done := [];
    }

    /** Adds to the two-word byte count, carrying at most one: exact for every length that fits in a word, and beyond
        that only while the low word cannot overflow twice. */
    method Count(len: nat, ghost n: nat)
      requires len < COUNT && CountIs(n)
      modifies this`total0, this`total1
      ensures CountIs(n + len) <==> len < WORD || old(total0) + len < 2 * WORD
    {
      CarryIsExactIff(total0, total1, len, n);
      total0 := (total0 + len) % WORD;
      if total0 < len {
        total1 := (total1 + 1) % WORD;
      }
    }

    /** Fills the schedule ring with the words of one block. */
    method LoadBlock(block: seq<bv8>, x: array<bv32>)
      requires |block| == 64 && x.Length == 16
      modifies x
      ensures x[..] == BlockWords(block)
    {
      for t := 0 to 16
        invariant forall j :: 0 <= j < t ==> x[j] == BlockWords(block)[j]
      {
        SwappedLoad(block[4 * t], block[4 * t + 1], block[4 * t + 2], block[4 * t + 3]);
        x[t] := Swap(LoadLittleEndian(block[4 * t], block[4 * t + 1], block[4 * t + 2], block[4 * t + 3]));
      }
    }

    /** The block loop. */
    method CompressBlocks(data: seq<bv8>)
      requires |data| % 64 == 0
      modifies this`regs
      ensures regs == Blocks(old(regs), data, |data| / 64)
    {
      var x := new bv32[16];
      var words := 0;
      ghost var k := 0;
      while words < |data|
        invariant words == 64 * k <= |data|
        invariant regs == Blocks(old(regs), data, k)
      {
        LoadBlock(data[words..words + 64], x);
        var r := CompressRing(regs, x);
        regs := Add(regs, r);
        words, k := words + 64, k + 1;
      }
    }

    /** Counts and compresses whole blocks. */
    method ProcessBlock(data: seq<bv8>, ghost n: nat)
      requires |data| % 64 == 0 && |data| < WORD && Absorbed(regs, done) && CountIs(n)
      modifies this`regs, this`total0, this`total1, this`done
      ensures Absorbed(regs, done) && done == old(done) + data && CountIs(n + |data|)
    {
      Count(|data|, n);
      CompressBlocks(data);
      AbsorbMore(old(regs), done, data);
      done := done + data;
    }

    // ---- absorbing bytes

    method CopyIn(at: nat, data: seq<bv8>)
      requires at + |data| <= buffer.Length
      modifies buffer
      ensures buffer[..] == old(buffer[..at]) + data + old(buffer[at + |data|..])
    {
      for i := 0 to |data|
        invariant buffer[..] == old(buffer[..at]) + data[..i] + old(buffer[at + i..])
      {
        buffer[at + i] := data[i];
      }
    }

    /** Compresses the whole blocks in the buffer and moves the rest of it to the front. */
    method Spill()
      requires buffer.Length == 128 && 64 < buflen <= 128 && Absorbed(regs, done) && CountIs(|done|)
      modifies this, buffer
      ensures Valid() && buflen == old(buflen) % 64
      ensures Message() == old(done) + old(buffer[..buflen])
    {
      hide CountIs, Absorbed, Blocks;
      var whole := buflen - buflen % 64;
      ghost var held := buffer[..buflen];
      ProcessBlock(buffer[..whole], |done|);
      buflen := buflen % 64;
      CopyIn(0, buffer[whole..whole + buflen]);
      assert held == held[..whole] + held[whole..];
    }

    /** First tops up a buffer that is in use. */
    method TopUp(data: seq<bv8>) returns (rest: seq<bv8>)
      requires Valid() && buflen != 0
      modifies this, buffer
      ensures Valid()
      ensures |rest| <= |data| && rest == data[|data| - |rest|..]
      ensures Message() == old(Message()) + data[..|data| - |rest|]
      ensures rest != [] ==> buflen == 0
    {
      var leftOver := buflen;
      var add := if 128 - leftOver > |data| then |data| else 128 - leftOver;
      CopyIn(leftOver, data[..add]);
      buflen := buflen + add;
      assert buffer[..buflen] == old(buffer[..buflen]) + data[..add];
      if buflen > 64 {
        Spill();
      }
      rest := data[add..];
    }

    /** One block of input that is not aligned goes through the buffer. */
    method BulkBlock(block: seq<bv8>)
      requires Valid() && buflen == 0 && |block| == 64
      modifies this, buffer
      ensures Valid() && buflen == 0 && done == old(done) + block
    {
      CopyIn(0, block);
      assert buffer[..64] == block;
      ProcessBlock(buffer[..64], |done|);
    }

    method BulkUnaligned(data: seq<bv8>) returns (rest: seq<bv8>)
      requires Valid() && buflen == 0
      modifies this, buffer
      ensures Valid() && buflen == 0
      ensures |rest| <= |data| && rest == data[|data| - |rest|..] && |rest| <= 64
      ensures done == old(done) + data[..|data| - |rest|]
    {
      hide Valid;
      rest := data;
      assert data[..0] == [] && done + [] == done;
      while |rest| > 64
        invariant Valid() && buflen == 0
        invariant |rest| <= |data| && rest == data[|data| - |rest|..]
        invariant done == old(done) + data[..|data| - |rest|]
      {
        BulkBlock(rest[..64]);
        TakeBlock(old(done), data, |data| - |rest|);
        rest := rest[64..];
      }
    }

    /** Then compresses the complete blocks of the input: straight from it, or, when it is not aligned for word
        access, block by block through the buffer, which leaves a last full block for later. */
    method Bulk(data: seq<bv8>, aligned: bool) returns (rest: seq<bv8>)
      requires Valid() && buflen == 0 && |data| >= 64 && |data| < WORD
      modifies this, buffer
      ensures Valid() && buflen == 0
      ensures |rest| <= |data| && rest == data[|data| - |rest|..] && |rest| <= 64
      ensures Message() == old(Message()) + data[..|data| - |rest|]
    {
      if !aligned {
        rest := BulkUnaligned(data);
      } else {
        var whole := |data| - |data| % 64;
        ProcessBlock(data[..whole], |done|);
        rest := data[whole..];
      }
    }

    /** Keeps what is left in the buffer, compressing it when it fills a block. */
    method Keep(data: seq<bv8>)
      requires Valid() && buflen + |data| <= 128
      modifies this, buffer
      ensures Valid()
      ensures Message() == old(Message()) + data
    {
      var leftOver := buflen;
      CopyIn(leftOver, data);
      leftOver := leftOver + |data|;
      ghost var held := old(buffer[..buflen]) + data;
      assert buffer[..leftOver] == held;
      if leftOver >= 64 {
        leftOver := CompressFirst(leftOver, held);
      }
      buflen := leftOver;
    }

    /** The branch of it for a full block: the block is compressed and the rest moved to the front. */
    method CompressFirst(n: nat, ghost held: seq<bv8>) returns (left: nat)
      requires buffer.Length == 128 && 64 <= n <= 128 && buffer[..n] == held && Absorbed(regs, done) && CountIs(|done|)
      modifies this`regs, this`total0, this`total1, this`done, buffer
      ensures left == n - 64 && Absorbed(regs, done) && CountIs(|done|) && done + buffer[..left] == old(done) + held
    {
      left := n - 64;
      ghost var first, rest := held[..64], held[64..];
      assert buffer[..64] == first && buffer[64..n] == rest;
      ProcessBlock(buffer[..64], |done|);
      var moved := buffer[64..n];
      CopyIn(0, moved);
      assert buffer[..left] == moved;
      TwoParts(old(done), held);
    }

    /** One chunk of any size, at an address that may or may not be aligned. */
    method ProcessBytes(chunk: seq<bv8>, aligned: bool)
      requires Valid() && |chunk| < WORD
      modifies this, buffer
      ensures Valid() && Message() == old(Message()) + chunk
    {
      hide Context.CountIs, Absorbed, Blocks;
      var data := chunk;
      if buflen != 0 {
        data := TopUp(data);
      }
      ghost var taken := |chunk| - |data|;
      if |data| >= 64 {
        data := Bulk(data, aligned);
      }
      if |data| > 0 {
        Keep(data);
      }
    }

    // ---- the end of the message

    /** Copies bytes into the buffer, seen as a change of its whole contents. */
    method CopyOver(at: nat, data: seq<bv8>)
      requires at + |data| <= buffer.Length
      modifies buffer
      ensures buffer[..] == Overwrite(old(buffer[..]), at, data)
    {
      ghost var was := buffer[..];
      assert buffer[..at] == was[..at] && buffer[at + |data|..] == was[at + |data|..];
      CopyIn(at, data);
    }

    /** Completes the buffer to one or two blocks: padding after the waiting bytes, the bit count in the last words. */
    method PutPadding(ghost held: seq<bv8>) returns (size: nat)
      requires buffer.Length == 128 && buflen <= 64 && total0 < WORD && total1 < WORD && held == buffer[..buflen]
      modifies buffer
      ensures 4 * size == TailLength(|held|) && buffer[..4 * size] == Tail(held, total0, total1)
    {
      hide HighWord, LowWord, CountBytes, Zeros, Overwrite;
      size := if buflen < 56 then 16 else 32;
      ghost var b0 := buffer[..];
      assert held == b0[..buflen];
      CopyOver(4 * (size - 2), CountBytes(HighWord(total0, total1)));
      CopyOver(4 * (size - 1), CountBytes(LowWord(total0)));
      var fill := FILLBUF[..4 * (size - 2) - buflen];
      CopyOver(buflen, fill);
      PadLayout(b0, buflen, 4 * size, fill, CountBytes(HighWord(total0, total1)), CountBytes(LowWord(total0)));
      assert buffer[..][..4 * size] == buffer[..4 * size];
    }

    /** The last bytes are counted and followed by the padding. */
    method Close() returns (size: nat)
      requires Valid()
      modifies this`total0, this`total1, buffer
      ensures 4 * size == TailLength(buflen) && CountIs(|done| + buflen)
      ensures |done| + buflen < MAX_LENGTH ==> done + buffer[..4 * size] == Pad(old(Message()))
    {
      hide TailLength, Tail, Pad, Bytes;
      ghost var held := buffer[..buflen];
      Count(buflen, |done|);
      size := PutPadding(held);
      if |done| + buflen < MAX_LENGTH {
        TailIsStandard(done, held, total0, total1);
      }
    }

    /** The digest of everything absorbed. */
    method FinishCtx() returns (digest: Regs)
      requires Valid()
      modifies this, buffer
      ensures |old(Message())| < MAX_LENGTH ==> digest == Sha1(old(Message()))
    {
      ghost var msg := Message();
      var size := Close();
      ProcessBlock(buffer[..4 * size], |msg|);
      digest := regs;
      if |msg| < MAX_LENGTH {
        AbsorbedIsDigest(regs, done, msg);
      }
    }
  }

  lemma {:induction false} TakeBlock(done: seq<bv8>, data: seq<bv8>, at: nat)
    requires at + 64 <= |data|
    ensures done + data[..at] + data[at..][..64] == done + data[..at + 64] && data[at..][64..] == data[at + 64..]
  {
  }

  lemma {:induction false} TwoParts(done: seq<bv8>, held: seq<bv8>)
    requires 64 <= |held|
    ensures done + held[..64] + held[64..] == done + held
  {
  }

  /** Bytes written over a part of a sequence. */
  function Overwrite(s: seq<bv8>, at: nat, data: seq<bv8>): (r: seq<bv8>)
    requires at + |data| <= |s|
    ensures |r| == |s|
  {
    s[..at] + data + s[at + |data|..]
  }

  /** The bytes after two words and the filling have been written. */
  lemma {:induction false} PadLayout(b0: seq<bv8>, at: nat, n: nat, fill: seq<bv8>, w1: seq<bv8>, w2: seq<bv8>)
    requires 8 <= n <= |b0| && at + |fill| == n - 8 && |w1| == |w2| == 4
    ensures Overwrite(Overwrite(Overwrite(b0, n - 8, w1), n - 4, w2), at, fill)[..n] == b0[..at] + fill + w1 + w2
  {
    var b1 := Overwrite(b0, n - 8, w1);
    var b2 := Overwrite(b1, n - 4, w2);
    assert b1[..n - 4] == b0[..n - 8] + w1;
    assert b2[..n] == b0[..n - 8] + w1 + w2;
    assert b2[..at] == b0[..at];
    assert b2[n - 8..n] == w1 + w2;
  }

  lemma {:induction false} AbsorbedIsDigest(regs: Regs, done: seq<bv8>, msg: seq<bv8>)
    requires Absorbed(regs, done) && |msg| < MAX_LENGTH && done == Pad(msg)
    ensures regs == Sha1(msg)
  {
    assert WholeBlocks(done, |done| / 64);
  }

  const FILLBUF: seq<bv8> := [0x80] + Zeros(63)

  /** The count of bits in two words, from the two-word count of bytes. */
  function HighWord(total0: nat, total1: nat): bv32 {
    (WordOf(total1) << 3) | (WordOf(total0) >> 29)
  }

  function LowWord(total0: nat): bv32 {
    WordOf(total0) << 3
  }

  /** What a word of the count leaves in the buffer. */
  function CountBytes(x: bv32): (b: seq<bv8>)
    ensures |b| == 4
  {
    StoreLittleEndian(Swap(x))
  }

  /** The numbers that these words stand for. */
  function HighBits(total0: nat, total1: nat): (w: nat)
    requires total0 < WORD
    ensures w < WORD
  {
    assert (8 * total1) % WORD == 8 * (total1 % 0x2000_0000);
    (8 * total1) % WORD + total0 / 0x2000_0000
  }

  function LowBits(total0: nat): (w: nat)
    ensures w < WORD
  {
    (8 * total0) % WORD
  }

  lemma {:induction false} OnlyShift(x: bv32)
    ensures (x << 3) | ((0 as bv32) >> 29) == x << 3
  {
  }

  lemma {:induction false} HighWordBytes(total0: nat, total1: nat)
    requires total0 < WORD && total1 < WORD
    ensures CountBytes(HighWord(total0, total1)) == Bytes(HighBits(total0, total1), 4)
  {
    hide WordOf, Encodes, Bytes, Swap, StoreLittleEndian, BigBytes, BigEndian;
    WordEncodes(total1);
    WordEncodes(total0);
    DoubleShift(WordOf(total1), WordOf(total0), total1, total0);
    EncodedBytes(HighWord(total0, total1), HighBits(total0, total1));
    SwappedStore(HighWord(total0, total1));
  }

  lemma {:induction false} LowWordBytes(total0: nat)
    requires total0 < WORD
    ensures CountBytes(LowWord(total0)) == Bytes(LowBits(total0), 4)
  {
    hide WordOf, Encodes, Bytes, Swap, StoreLittleEndian, BigBytes, BigEndian;
    WordEncodes(total0);
    ZeroEncodes(0);
    DoubleShift(WordOf(total0), 0, total0, 0);
    OnlyShift(WordOf(total0));
    EncodedBytes(LowWord(total0), LowBits(total0));
    SwappedStore(LowWord(total0));
  }

  function Power256(n: nat): nat {
    if n == 0 then 1 else 256 * Power256(n - 1)
  }

  /** The bytes of a number that is put together from a high part and n low bytes. */
  lemma {:induction false} BytesAppend(hi: nat, low: nat, k: nat, n: nat)
    requires low < Power256(n)
    ensures Bytes(hi * Power256(n) + low, k + n) == Bytes(hi, k) + Bytes(low, n)
  {
    if n == 0 {
    } else {
      LastByte(hi, low, n);
      BytesAppend(hi, low / 256, k, n - 1);
      AppendLast(hi * Power256(n) + low, low, Bytes(hi, k), k, n);
    }
  }

  lemma {:induction false} AppendLast(v: nat, low: nat, high: seq<bv8>, k: nat, n: nat)
    requires n > 0 && v % 256 == low % 256 && Bytes(v / 256, k + n - 1) == high + Bytes(low / 256, n - 1)
    ensures Bytes(v, k + n) == high + Bytes(low, n)
  {
    BytesStep(v, k + n);
    BytesStep(low, n);
  }

  lemma {:induction false} BytesStep(v: nat, n: nat)
    requires n > 0
    ensures Bytes(v, n) == Bytes(v / 256, n - 1) + [(v % 256) as bv8]
  {
  }

  lemma {:induction false} LastByte(hi: nat, low: nat, n: nat)
    requires n > 0 && low < Power256(n)
    ensures (hi * Power256(n) + low) / 256 == hi * Power256(n - 1) + low / 256
    ensures (hi * Power256(n) + low) % 256 == low % 256
    ensures low / 256 < Power256(n - 1)
  {
    var q := hi * Power256(n - 1);
    assert hi * Power256(n) == 256 * q;
  }

  lemma {:induction false} BytesSplit(hi: nat, low: nat)
    requires low < WORD
    ensures Bytes(WORD * hi + low, 8) == Bytes(hi, 4) + Bytes(low, 4)
  {
    assert Power256(4) == WORD;
    BytesAppend(hi, low, 4, 4);
  }

  /** The two words written, on the words as they are shifted and joined, are the message length in bits. */
  lemma {:induction false} BitCount(len: nat, total0: nat, total1: nat)
    requires len < MAX_LENGTH && total0 < WORD && total0 + WORD * total1 == len
    ensures CountBytes(HighWord(total0, total1)) + CountBytes(LowWord(total0)) == Bytes(8 * len, 8)
  {
    HighWordBytes(total0, total1);
    LowWordBytes(total0);
    BitWords(len, total0, total1);
    BytesSplit(HighBits(total0, total1), LowBits(total0));
  }

  lemma {:induction false} BitWords(len: nat, total0: nat, total1: nat)
    requires len < MAX_LENGTH && total0 < WORD && total0 + WORD * total1 == len
    ensures WORD * HighBits(total0, total1) + LowBits(total0) == 8 * len
  {
    assert total1 < 0x2000_0000;
    var q, r := total0 / 0x2000_0000, total0 % 0x2000_0000;
    assert total0 == 0x2000_0000 * q + r;
    assert 8 * total0 == WORD * q + 8 * r && LowBits(total0) == 8 * r;
    assert HighBits(total0, total1) == 8 * total1 + q;
  }

  lemma {:induction false} ZerosPrefix(n: nat, m: nat)
    requires 0 < n <= m + 1
    ensures ([0x80] + Zeros(m))[..n] == [0x80] + Zeros(n - 1)
  {
  }

  /** The zero bytes written are the fewest that the standard allows. */
  lemma {:induction false} ZeroCount(done: nat, held: nat, size: nat)
    requires done % 64 == 0 && held <= 64 && size == if held < 56 then 16 else 32
    ensures (119 - (done + held) % 64) % 64 == 4 * size - 8 - held - 1
    ensures 0 < 4 * size - 8 - held <= 64
  {
    assert (done + held) % 64 == held % 64;
  }

  /** What is put behind the waiting bytes is the padding of section 5.1.1. */
  lemma {:induction false} PaddingIsStandard(done: seq<bv8>, held: seq<bv8>, size: nat, hi: seq<bv8>, low: seq<bv8>)
    requires |done| % 64 == 0 && |held| <= 64
    requires size == if |held| < 56 then 16 else 32
    requires hi + low == Bytes(8 * |done + held|, 8)
    ensures done + (held + FILLBUF[..4 * size - 8 - |held|] + hi + low) == Pad(done + held)
  {
    ZeroCount(|done|, |held|, size);
    var n := 4 * size - 8 - |held|;
    ZerosPrefix(n, 63);
    Regroup(done, held, [0x80], Zeros(n - 1), hi, low);
  }

  /** The length of the last one or two blocks. */
  function TailLength(held: nat): (n: nat)
    ensures n % 64 == 0 && n <= 128
    ensures held <= 64 ==> 0 < n - 8 - held <= 64
  {
    if held < 56 then 64 else 128
  }

  /** The last blocks: the waiting bytes, the filling and the two words of the bit count. */
  function Tail(held: seq<bv8>, t0: nat, t1: nat): (tail: seq<bv8>)
    requires |held| <= 64 && t0 < WORD && t1 < WORD
  {
    held + FILLBUF[..TailLength(|held|) - 8 - |held|] + CountBytes(HighWord(t0, t1)) + CountBytes(LowWord(t0))
  }

  /** They complete the padded message. */
  lemma {:induction false} TailIsStandard(done: seq<bv8>, held: seq<bv8>, t0: nat, t1: nat)
    requires |done| % 64 == 0 && |held| <= 64
    requires |done| + |held| < MAX_LENGTH && t0 < WORD && t1 < WORD && t0 + WORD * t1 == |done| + |held|
    ensures done + Tail(held, t0, t1) == Pad(done + held)
  {
    hide CountBytes, HighWord, LowWord, Bytes;
    var hi, low := CountBytes(HighWord(t0, t1)), CountBytes(LowWord(t0));
    assert |done + held| == |done| + |held|;
    BitCount(|done| + |held|, t0, t1);
    PaddingIsStandard(done, held, TailLength(|held|) / 4, hi, low);
  }

  lemma {:induction false} Regroup<A>(a: seq<A>, b: seq<A>, c: seq<A>, d: seq<A>, e: seq<A>, f: seq<A>)
    ensures a + (b + (c + d) + e + f) == a + b + c + d + (e + f)
  {
  }

  /** `sha1_buffer`: the digest of one buffer. */
  method Sha1Buffer(data: seq<bv8>, aligned: bool) returns (digest: Regs)
    requires |data| < WORD
    ensures digest == Sha1(data)
  {
    var ctx := new Context();
    ctx.ProcessBytes(data, aligned);
    assert [] + data == data;
    digest := ctx.FinishCtx();
  }

  function Concat(chunks: seq<seq<bv8>>): seq<bv8> {
    if chunks == [] then [] else Concat(chunks[..|chunks| - 1]) + chunks[|chunks| - 1]
  }

  /** However a message is cut into chunks, and wherever they lie in memory, the digest is that of the whole. */
  method Sha1Chunks(chunks: seq<seq<bv8>>, aligned: seq<bool>) returns (digest: Regs)
    requires |aligned| == |chunks| && forall i :: 0 <= i < |chunks| ==> |chunks[i]| < WORD
    requires |Concat(chunks)| < MAX_LENGTH
    ensures digest == Sha1(Concat(chunks))
  {
    var ctx := new Context();
    for i := 0 to |chunks|
      invariant ctx.Valid() && fresh(ctx) && fresh(ctx.buffer) && ctx.Message() == Concat(chunks[..i])
    {
      assert chunks[..i + 1][..i] == chunks[..i];
      ctx.ProcessBytes(chunks[i], aligned[i]);
    }
    assert chunks[..|chunks|] == chunks;
    digest := ctx.FinishCtx();
  }

  // ---- the digest in memory

  /** `sha1_read_ctx`: the five words, stored one after the other. */
  function ReadCtx(r: Regs): (b: seq<bv8>)
    ensures |b| == 20
  {
    StoreLittleEndian(Swap(r.a)) + StoreLittleEndian(Swap(r.b)) + StoreLittleEndian(Swap(r.c)) + StoreLittleEndian(Swap(r.d))
    + StoreLittleEndian(Swap(r.e))
  }

  /** The digest as the standard writes it, most significant byte first. */
  function DigestBytes(r: Regs): (b: seq<bv8>)
    ensures |b| == 20
  {
    BigBytes(r.a) + BigBytes(r.b) + BigBytes(r.c) + BigBytes(r.d) + BigBytes(r.e)
  }

  /** These are the bytes left in memory. */
  lemma {:induction false} ReadCtxIsDigest(r: Regs)
    ensures ReadCtx(r) == DigestBytes(r)
  {
    SwappedStore(r.a);
    SwappedStore(r.b);
    SwappedStore(r.c);
    SwappedStore(r.d);
    SwappedStore(r.e);
  }
}
