/**
 IPv6 addresses as the analyser holds them, four 32-bit words read from memory on a little-endian host, and the two
 masking loops on them.
 */
module Address {
  import opened Bits

  type Mac = bv64

  /** struct in6_addr, by its 32-bit words. */
  datatype Ip = Ip(w0: bv32, w1: bv32, w2: bv32, w3: bv32)

  const UNIVERSAL_BIT: bv64 := 0x0200_0000_0000_0000

  // ---- byte order

  function Swap32(x: bv32): bv32 {
    ((x & 0xFF) << 24) | ((x & 0xFF00) << 8) | ((x >> 8) & 0xFF00) | (x >> 24)
  }

  /** be32toh of two words, joined: eight bytes of memory as a number in network order. */
  function Join(first: bv32, second: bv32): bv64 {
    ((Swap32(first) as bv64) << 32) | (Swap32(second) as bv64)
  }

  function Low(x: bv64): bv32 {
    (x & 0xFFFF_FFFF) as bv32
  }

  function High(x: bv64): bv32 {
    (x >> 32) as bv32
  }

  /** htobe64 on a little-endian host. */
  function HostToBig(x: bv64): bv64 {
    ((Swap32(Low(x)) as bv64) << 32) | (Swap32(High(x)) as bv64)
  }

  /** The two words that hold the bytes of a number, most significant byte first. */
  function FirstWord(x: bv64): bv32 {
    Swap32(High(x))
  }

  function SecondWord(x: bv64): bv32 {
    Swap32(Low(x))
  }

  lemma {:induction false} JoinOfWords(x: bv64)
    ensures Join(FirstWord(x), SecondWord(x)) == x
  {
  }

  // ---- the bits of an address

  /** Bit i of a 64-bit number, counted from the most significant one. */
  function Bit(x: bv64, i: nat): bool
    decreases i
  {
    if i == 0 then x & MSB != 0 else Bit(x << 1, i - 1)
  }

  /** Bit i of an address in network order. */
  function AddressBit(a: Ip, i: nat): bool
    requires i < 128
  {
    if i < 64 then Bit(Join(a.w0, a.w1), i) else Bit(Join(a.w2, a.w3), i - 64)
  }

  ghost predicate AgreeAt(a: Ip, b: Ip, i: nat) {
    i < 128 ==> AddressBit(a, i) == AddressBit(b, i)
  }

  /** The first n bits of two addresses are the same. */
  ghost predicate SamePrefix(a: Ip, b: Ip, n: int) {
    forall i: nat {:trigger AgreeAt(a, b, i)} :: i < n ==> AgreeAt(a, b, i)
  }

  // ---- masks

  /** The value of the mask after n rounds of the loop. */
  function Mask(n: nat): bv64 {
    if n == 0 then 0 else Round(Mask(n - 1))
  }

  lemma {:induction false} EightRounds(n: nat)
    ensures Mask(n + 8) == Round(Round(Round(Round(Round(Round(Round(Round(Mask(n)))))))))
  {
    var m := Mask(n);
    assert Mask(n + 2) == Round(Round(m));
    assert Mask(n + 4) == Round(Round(Mask(n + 2)));
    assert Mask(n + 6) == Round(Round(Mask(n + 4)));
  }

  lemma {:induction false} FullMask()
    ensures Mask(64) == 0xFFFF_FFFF_FFFF_FFFF
  {
    EightRounds(0);
    EightOf(Mask(0));
    EightRounds(8);
    EightOf(Mask(8));
    EightRounds(16);
    EightOf(Mask(16));
    EightRounds(24);
    EightOf(Mask(24));
    EightRounds(32);
    EightOf(Mask(32));
    EightRounds(40);
    EightOf(Mask(40));
    EightRounds(48);
    EightOf(Mask(48));
    EightRounds(56);
    EightOf(Mask(56));
  }

  /** The first n bits are clear. */
  function FirstClear(z: bv64, n: nat): bool
    decreases n
  {
    n == 0 || (z & MSB == 0 && FirstClear(z << 1, n - 1))
  }

  lemma {:induction false} ClearUnderMask(z: bv64, n: nat)
    requires FirstClear(z, n)
    ensures z & Mask(n) == 0
    decreases n
  {
    if n == 0 {
      AndZero(z);
    } else {
      ClearUnderMask(z << 1, n - 1);
      PeelMask(z, Mask(n - 1));
    }
  }

  lemma {:induction false} MaskedIsClear(z: bv64, n: nat)
    requires z & Mask(n) == 0
    ensures FirstClear(z, n)
    decreases n
  {
    if n == 0 {
    } else {
      PeelMask(z, Mask(n - 1));
      MaskedIsClear(z << 1, n - 1);
    }
  }

  ghost predicate SameBit(x: bv64, y: bv64, i: nat) {
    Bit(x, i) == Bit(y, i)
  }

  predicate Top(x: bv64) {
    x & MSB != 0
  }

  function Up(x: bv64): bv64 {
    x << 1
  }

  predicate IsXor(z: bv64, x: bv64, y: bv64) {
    z == x ^ y
  }

  lemma {:induction false} BitStep(x: bv64, i: nat)
    ensures i == 0 ==> Bit(x, i) == Top(x)
    ensures i > 0 ==> Bit(x, i) == Bit(Up(x), i - 1)
  {
  }

  lemma {:induction false} XorStep(z: bv64, x: bv64, y: bv64)
    requires IsXor(z, x, y)
    ensures (Top(z) <==> Top(x) != Top(y)) && IsXor(Up(z), Up(x), Up(y))
  {
    ShiftXor(x, y);
  }

  lemma {:induction false} XorBit(z: bv64, x: bv64, y: bv64, i: nat)
    requires IsXor(z, x, y)
    ensures Bit(z, i) <==> Bit(x, i) != Bit(y, i)
    decreases i
  {
    hide *;
    BitStep(x, i);
    BitStep(y, i);
    BitStep(z, i);
    XorStep(z, x, y);
    if i > 0 {
      XorBit(Up(z), Up(x), Up(y), i - 1);
    }
  }

  lemma {:induction false} ClearStep(z: bv64, n: nat)
    requires n > 0
    ensures FirstClear(z, n) <==> !Top(z) && FirstClear(Up(z), n - 1)
  {
  }

  lemma {:induction false} FirstClearIff(z: bv64, n: nat)
    ensures FirstClear(z, n) <==> forall i: nat {:trigger Bit(z, i)} :: i < n ==> !Bit(z, i)
    decreases n
  {
    if n == 0 {
    } else {
      hide *;
      ClearStep(z, n);
      FirstClearIff(Up(z), n - 1);
      if FirstClear(z, n) {
        forall i: nat | i < n ensures !Bit(z, i) {
          BitStep(z, i);
        }
      } else if Top(z) {
        BitStep(z, 0);
      } else {
        var i: nat :| i < n - 1 && Bit(Up(z), i);
        BitStep(z, i + 1);
      }
    }
  }

  lemma {:induction false} ClearIffSame(x: bv64, y: bv64, n: nat)
    ensures FirstClear(x ^ y, n) <==> forall i: nat {:trigger SameBit(x, y, i)} :: i < n ==> SameBit(x, y, i)
  {
    var z := x ^ y;
    SameIffClear(z, x, y, n);
  }

  lemma {:induction false} SameIffClear(z: bv64, x: bv64, y: bv64, n: nat)
    requires IsXor(z, x, y)
    ensures FirstClear(z, n) <==> forall i: nat {:trigger SameBit(x, y, i)} :: i < n ==> SameBit(x, y, i)
  {
    hide IsXor, Bit, FirstClear;
    FirstClearIff(z, n);
    if FirstClear(z, n) {
      forall i: nat | i < n ensures SameBit(x, y, i) {
        XorBit(z, x, y, i);
      }
    } else {
      var i: nat :| i < n && Bit(z, i);
      XorBit(z, x, y, i);
      assert !SameBit(x, y, i);
    }
  }

  ghost predicate SameBits(x: bv64, y: bv64, n: nat) {
    forall i: nat {:trigger SameBit(x, y, i)} :: i < n ==> SameBit(x, y, i)
  }

  /** Two numbers are the same under the mask of n rounds if and only if their first n bits are the same. */
  lemma {:induction false} SameUnderMask(x: bv64, y: bv64, n: nat)
    requires x & Mask(n) == y & Mask(n)
    ensures SameBits(x, y, n)
  {
    MaskedXor(x, y, Mask(n));
    MaskedIsClear(x ^ y, n);
    ClearIffSame(x, y, n);
  }

  lemma {:induction false} SameIsUnderMask(x: bv64, y: bv64, n: nat)
    requires SameBits(x, y, n)
    ensures x & Mask(n) == y & Mask(n)
  {
    ClearIffSame(x, y, n);
    ClearUnderMask(x ^ y, n);
    MaskedXor(x, y, Mask(n));
  }

  lemma {:induction false} JoinInjective(p: bv32, q: bv32)
    ensures FirstWord(Join(p, q)) == p && SecondWord(Join(p, q)) == q
  {
  }

  /** Masking the words of memory with the swapped mask masks the number in network order. */
  lemma {:induction false} JoinMasked(p: bv32, q: bv32, m: bv64)
    ensures Join(p & Low(HostToBig(m)), q & High(HostToBig(m))) == Join(p, q) & m
  {
  }

  lemma {:induction false} AllOnesSwapped()
    ensures HostToBig(0xFFFF_FFFF_FFFF_FFFF) == 0xFFFF_FFFF_FFFF_FFFF
  {
  }

  lemma {:induction false} FullMaskValue() returns (m: bv64)
    ensures m == Mask(64) && m == 0xFFFF_FFFF_FFFF_FFFF
  {
    FullMask();
    m := Mask(64);
  }

  lemma {:induction false} SameUnderGiven(x: bv64, y: bv64, n: nat, m: bv64)
    requires SameBits(x, y, n) && m == Mask(n)
    ensures x & m == y & m
  {
    SameIsUnderMask(x, y, n);
  }

  lemma {:induction false} SixtyFourEqual(x: bv64, y: bv64)
    requires SameBits(x, y, 64)
    ensures x == y
  {
    var m := FullMaskValue();
    SameUnderGiven(x, y, 64, m);
    SameUnderAll(x, y, m);
  }

  /** 64 equal bits are all there are. */
  lemma {:induction false} SixtyFourBits(x: bv64, y: bv64, n: nat)
    requires SameBits(x, y, 64)
    ensures x == y && SameBits(x, y, n)
  {
    SixtyFourEqual(x, y);
  }

  // ---- comparing

  lemma {:induction false} MaskedWordsSame(a0: bv32, a1: bv32, b0: bv32, b1: bv32, m: bv64, n: nat)
    requires m == Mask(n)
    requires a0 & Low(HostToBig(m)) == b0 & Low(HostToBig(m)) && a1 & High(HostToBig(m)) == b1 & High(HostToBig(m))
    ensures SameBits(Join(a0, a1), Join(b0, b1), n)
  {
    JoinMasked(a0, a1, m);
    JoinMasked(b0, b1, m);
    SameUnderMask(Join(a0, a1), Join(b0, b1), n);
  }

  lemma {:induction false} SameMaskedWords(a0: bv32, a1: bv32, b0: bv32, b1: bv32, m: bv64, n: nat)
    requires m == Mask(n) && SameBits(Join(a0, a1), Join(b0, b1), n)
    ensures a0 & Low(HostToBig(m)) == b0 & Low(HostToBig(m)) && a1 & High(HostToBig(m)) == b1 & High(HostToBig(m))
  {
    JoinMasked(a0, a1, m);
    JoinMasked(b0, b1, m);
    SameIsUnderMask(Join(a0, a1), Join(b0, b1), n);
    JoinInjective(a0 & Low(HostToBig(m)), a1 & High(HostToBig(m)));
    JoinInjective(b0 & Low(HostToBig(m)), b1 & High(HostToBig(m)));
  }

  lemma {:induction false} SameMaskedIff(a0: bv32, a1: bv32, b0: bv32, b1: bv32, m: bv64, n: nat)
    requires m == Mask(n)
    ensures SameMasked(a0, b0, Low(HostToBig(m))) && SameMasked(a1, b1, High(HostToBig(m)))
            <==> SameBits(Join(a0, a1), Join(b0, b1), n)
  {
    hide Mask, HostToBig, SameBits, Join, Low, High;
    if SameBits(Join(a0, a1), Join(b0, b1), n) {
      SameMaskedWords(a0, a1, b0, b1, m, n);
    }
    if SameMasked(a0, b0, Low(HostToBig(m))) && SameMasked(a1, b1, High(HostToBig(m))) {
      MaskedWordsSame(a0, a1, b0, b1, m, n);
    }
  }

  /** The loop that builds a mask, and its conversion to network order. */
  method BuildMask(bitLen: int) returns (mask: bv64)
    ensures mask == HostToBig(Mask(if bitLen < 0 then 0 else bitLen))
  {
    mask := 0;
    var i := 0;
    while i < bitLen
      invariant 0 <= i && (i <= bitLen || i == 0) && mask == Mask(i)
    {
      mask := (mask >> 1) | 0x8000_0000_0000_0000;
      i := i + 1;
    }
    mask := HostToBig(mask);
  }

  predicate SameMasked(x: bv32, y: bv32, m: bv32) {
    x & m == y & m
  }

  /** The difference of two words under a mask, modulo 2^32. */
  function MaskedDifference(x: bv32, y: bv32, m: bv32): (d: bv32)
    ensures d == 0 <==> SameMasked(x, y, m)
  {
    DifferenceIsZero(x & m, y & m);
    (x & m) - (y & m)
  }

  /** The comparison of two words under a mask. */
  method CompareWords(a0: bv32, a1: bv32, b0: bv32, b1: bv32, mask: bv64, ghost n: nat) returns (res: bv32)
    requires mask == HostToBig(Mask(n))
    ensures res == 0 <==> SameBits(Join(a0, a1), Join(b0, b1), n)
  {
    hide *;
    SameMaskedIff(a0, a1, b0, b1, Mask(n), n);
    res := MaskedDifference(a0, b0, Low(mask));
    if res != 0 {
      return;
    }
    res := MaskedDifference(a1, b1, High(mask));
  }

  lemma {:induction false} PrefixOfHalves(a: Ip, b: Ip, bitLen: int)
    ensures var hi, lo := SameBits(Join(a.w0, a.w1), Join(b.w0, b.w1), Clamp(bitLen)),
                          bitLen > 64 ==> SameBits(Join(a.w2, a.w3), Join(b.w2, b.w3), Clamp(bitLen - 64));
            SamePrefix(a, b, bitLen) <==> hi && lo
  {
    var hi, lo := SameBits(Join(a.w0, a.w1), Join(b.w0, b.w1), Clamp(bitLen)),
                  bitLen > 64 ==> SameBits(Join(a.w2, a.w3), Join(b.w2, b.w3), Clamp(bitLen - 64));
    if SamePrefix(a, b, bitLen) {
      forall i: nat | i < Clamp(bitLen) ensures SameBit(Join(a.w0, a.w1), Join(b.w0, b.w1), i) {
        assert AgreeAt(a, b, i);
      }
      forall i: nat | bitLen > 64 && i < Clamp(bitLen - 64) ensures SameBit(Join(a.w2, a.w3), Join(b.w2, b.w3), i) {
        assert AgreeAt(a, b, 64 + i);
      }
    }
    if hi && lo {
      forall i: nat | i < bitLen ensures AgreeAt(a, b, i) {
        assert i < 64 ==> SameBit(Join(a.w0, a.w1), Join(b.w0, b.w1), i);
        assert 64 <= i < 128 ==> SameBit(Join(a.w2, a.w3), Join(b.w2, b.w3), i - 64);
      }
    }
  }

  function Clamp(n: int): nat {
    if n < 0 then 0 else if n > 64 then 64 else n
  }

  /** addr_compare_ip_len: 0 exactly when the first bitLen bits, at most all 128, are the same. */
  method CompareIpLen(a: Ip, b: Ip, bitLen: int) returns (res: bv32)
    ensures res == 0 <==> SamePrefix(a, b, bitLen)
  {
    PrefixOfHalves(a, b, bitLen);
    var mask: bv64;
    if bitLen < 64 {
      mask := BuildMask(bitLen);
    } else {
      mask := 0xFFFF_FFFF_FFFF_FFFF;
      FullMask();
      AllOnesSwapped();
    }
    res := CompareWords(a.w0, a.w1, b.w0, b.w1, mask, Clamp(bitLen));
    if res != 0 {
      return;
    }
    if bitLen > 64 {
      mask := BuildMask(bitLen - 64);
      res := CompareWords(a.w2, a.w3, b.w2, b.w3, mask, bitLen - 64);
      if SameBits(Join(a.w2, a.w3), Join(b.w2, b.w3), Clamp(bitLen - 64)) && bitLen > 128 {
        SixtyFourBits(Join(a.w2, a.w3), Join(b.w2, b.w3), bitLen - 64);
      }
    }
  }

  /** addr_compare_ip compares whole addresses word by word. */
  method CompareIp(a: Ip, b: Ip) returns (res: bv32)
    ensures res == 0 <==> a == b
  {
    DifferenceIsZero(a.w0, b.w0);
    DifferenceIsZero(a.w1, b.w1);
    DifferenceIsZero(a.w2, b.w2);
    DifferenceIsZero(a.w3, b.w3);
    res := a.w0 - b.w0;
    if res != 0 {
      return;
    }
    res := a.w1 - b.w1;
    if res != 0 {
      return;
    }
    res := a.w2 - b.w2;
    if res != 0 {
      return;
    }
    res := a.w3 - b.w3;
  }

  /** The prefix comparison at full length is equality. */
  lemma {:induction false} FullPrefixIsEquality(a: Ip, b: Ip)
    ensures SamePrefix(a, b, 128) <==> a == b
  {
    if SamePrefix(a, b, 128) {
      PrefixOfHalves(a, b, 128);
      SixtyFourBits(Join(a.w0, a.w1), Join(b.w0, b.w1), 64);
      SixtyFourBits(Join(a.w2, a.w3), Join(b.w2, b.w3), 64);
      JoinInjective(a.w0, a.w1);
      JoinInjective(b.w0, b.w1);
      JoinInjective(a.w2, a.w3);
      JoinInjective(b.w2, b.w3);
    }
  }

  /** Having the same first bits is an equivalence. */
  lemma {:induction false} PrefixTransitive(a: Ip, b: Ip, c: Ip, n: int)
    requires SamePrefix(a, b, n) && SamePrefix(b, c, n)
    ensures SamePrefix(a, c, n) && SamePrefix(b, a, n)
  {
    forall i: nat | i < n ensures AgreeAt(a, c, i) && AgreeAt(b, a, i) {
      assert AgreeAt(a, b, i) && AgreeAt(b, c, i);
    }
  }

  // ---- autoconfigured addresses

  function IntId(mac: Mac): bv64 {
    mac ^ UNIVERSAL_BIT
  }

  /** addr_get_mac64_from_ip. */
  function MacOfIp(a: Ip): Mac {
    Join(a.w2, a.w3) ^ UNIVERSAL_BIT
  }

  /** addr_get_local_ip_from_mac64. */
  function LocalIp(mac: Mac): Ip {
    Ip(0x0000_80FE, 0, FirstWord(IntId(mac)), SecondWord(IntId(mac)))
  }

  lemma {:induction false} ZeroBit(x: bv64, i: nat)
    requires x == 0
    ensures !Bit(x, i)
    decreases i
  {
    ZeroShift(x);
    if i == 0 {
    } else {
      ZeroBit(x << 1, i - 1);
    }
  }

  lemma {:induction false} ShiftMasked(z: bv64, x: bv64, m: bv64, r: bv64)
    requires z == x & m && m == Round(r)
    ensures z << 1 == (x << 1) & r
  {
    PeelAnd(x, r);
  }

  lemma {:induction false} NextBit(z: bv64, i: nat)
    requires i > 0 && !Bit(z << 1, i - 1)
    ensures !Bit(z, i)
  {
  }

  lemma {:induction false} MaskZero(n: nat, x: bv64, m: bv64)
    requires n == 0 && m == Mask(n)
    ensures x & m == 0
  {
    AndZero(x);
  }

  lemma {:induction false} MaskSucc(n: nat)
    requires n > 0
    ensures Mask(n) == Round(Mask(n - 1))
  {
  }

  /** Masking clears every bit from the length of the mask on. */
  lemma {:induction false} MaskedTail(z: bv64, x: bv64, m: bv64, n: nat, i: nat)
    requires n <= i && m == Mask(n) && z == x & m
    ensures !Bit(z, i)
    decreases n
  {
    hide *;
    if n == 0 {
      MaskZero(n, x, m);
      ZeroBit(z, i);
    } else {
      MaskSucc(n);
      ShiftMasked(z, x, m, Mask(n - 1));
      MaskedTail(z << 1, x << 1, Mask(n - 1), n - 1, i - 1);
      NextBit(z, i);
    }
  }

  ghost predicate ClearFrom(z: bv64, n: nat) {
    forall i: nat {:trigger Bit(z, i)} :: n <= i ==> !Bit(z, i)
  }

  lemma {:induction false} MaskedTails(z: bv64, x: bv64, m: bv64, n: nat)
    requires z == x & m && m == Mask(n)
    ensures ClearFrom(z, n)
  {
    hide Mask, Bit;
    forall i: nat | n <= i ensures !Bit(z, i) {
      MaskedTail(z, x, m, n, i);
    }
  }

  /** addr_get_global_ip_from_mac64: the masked prefix words and the interface identifier. */
  method GlobalIp(prefix: Ip, prefixLength: nat, mac: Mac) returns (a: Ip)
    ensures SamePrefix(a, prefix, if prefixLength > 64 then 64 else prefixLength)
    ensures ClearFrom(Join(a.w0, a.w1), if prefixLength > 64 then 64 else prefixLength)
    ensures MacOfIp(a) == mac && forall i: nat {:trigger Identifies(a, mac, i)} :: Identifies(a, mac, i)
  {
    hide Bit, Mask, ClearFrom, SamePrefix, SameBits, Identifies;
    var length := if prefixLength > 64 then 64 else prefixLength;
    var mask := BuildMask(length);
    var w0, w1 := prefix.w0 & Low(mask), prefix.w1 & High(mask);
    a := Ip(w0, w1, FirstWord(IntId(mac)), SecondWord(IntId(mac)));
    IdRoundTrip(mac);
    GlobalHalf(prefix, length, a);
    AllIdentify(a, mac);
  }

  lemma {:induction false} AllIdentify(a: Ip, mac: Mac)
    requires MacOfIp(a) == mac
    ensures forall i: nat {:trigger Identifies(a, mac, i)} :: Identifies(a, mac, i)
  {
    hide Identifies;
    forall i: nat ensures Identifies(a, mac, i) {
      MacOfIpBits(a, i);
    }
  }

  /** What the masked words have of the prefix. */
  lemma {:induction false} GlobalHalf(prefix: Ip, length: nat, a: Ip)
    requires length <= 64 && a.w0 == prefix.w0 & Low(HostToBig(Mask(length))) && a.w1 == prefix.w1 & High(HostToBig(Mask(length)))
    ensures SamePrefix(a, prefix, length) && ClearFrom(Join(a.w0, a.w1), length)
  {
    hide *;
    HalfMasked(prefix, a, Mask(length));
    MaskedHalf(Join(a.w0, a.w1), Join(prefix.w0, prefix.w1), Mask(length), length);
    SameFirst(a, prefix, length);
  }

  lemma {:induction false} HalfMasked(prefix: Ip, a: Ip, m: bv64)
    requires a.w0 == prefix.w0 & Low(HostToBig(m)) && a.w1 == prefix.w1 & High(HostToBig(m))
    ensures Join(a.w0, a.w1) == Join(prefix.w0, prefix.w1) & m
  {
    JoinMasked(prefix.w0, prefix.w1, m);
  }

  lemma {:induction false} MaskedHalf(z: bv64, x: bv64, m: bv64, n: nat)
    requires z == x & m && m == Mask(n)
    ensures SameBits(z, x, n) && ClearFrom(z, n)
  {
    hide *;
    MaskedMatches(z, x, m, n);
    MaskedTails(z, x, m, n);
  }

  lemma {:induction false} SameFirst(a: Ip, b: Ip, n: nat)
    requires n <= 64 && SameBits(Join(a.w0, a.w1), Join(b.w0, b.w1), n)
    ensures SamePrefix(a, b, n)
  {
    hide Join, SameBits, SamePrefix;
    PrefixOfHalves(a, b, n);
  }

  lemma {:induction false} IdRoundTrip(mac: Mac)
    ensures Join(FirstWord(IntId(mac)), SecondWord(IntId(mac))) ^ UNIVERSAL_BIT == mac
  {
    JoinOfWords(IntId(mac));
    XorTwice(mac, UNIVERSAL_BIT);
  }

  lemma {:induction false} MaskedMatches(z: bv64, x: bv64, m: bv64, n: nat)
    requires z == x & m && m == Mask(n)
    ensures SameBits(z, x, n)
  {
    hide Mask, SameBits;
    AndTwice(x, m);
    SameUnderMask(z, x, n);
  }

  /** The word whose one bit is bit n. */
  function OneBit(n: nat): bv64
    requires n < 7
  {
    match n
    case 0 => 0x8000_0000_0000_0000
    case 1 => 0x4000_0000_0000_0000
    case 2 => 0x2000_0000_0000_0000
    case 3 => 0x1000_0000_0000_0000
    case 4 => 0x0800_0000_0000_0000
    case 5 => 0x0400_0000_0000_0000
    case 6 => 0x0200_0000_0000_0000
  }

  lemma {:induction false} OneBitUp(n: nat)
    requires n < 7
    ensures if n == 0 then Top(OneBit(n)) && Up(OneBit(n)) == 0 else !Top(OneBit(n)) && Up(OneBit(n)) == OneBit(n - 1)
  {
  }

  lemma {:induction false} SingleBit(n: nat, i: nat)
    requires n < 7
    ensures Bit(OneBit(n), i) <==> i == n
  {
    hide *;
    OneBitUp(n);
    BitStep(OneBit(n), i);
    if n == 0 {
      if i > 0 {
        ZeroBit(Up(OneBit(n)), i - 1);
      }
    } else if i > 0 {
      SingleBit(n - 1, i - 1);
    }
  }

  /** The one bit by which an interface identifier differs from its MAC. */
  lemma {:induction false} UniversalBit(i: nat)
    ensures Bit(UNIVERSAL_BIT, i) <==> i == 6
  {
    assert OneBit(6) == UNIVERSAL_BIT;
    SingleBit(6, i);
  }

  /** Bit i of the interface identifier of an address: that of the MAC, but the universal bit, bit 6, is turned over, as in
      the modified EUI-64 format of RFC 4291, appendix A. */
  ghost predicate Identifies(a: Ip, mac: Mac, i: nat) {
    i < 64 ==> (AddressBit(a, 64 + i) <==> if i == 6 then !Bit(mac, i) else Bit(mac, i))
  }

  lemma {:induction false} MacIdentifies(a: Ip, mac: Mac, i: nat)
    requires Join(a.w2, a.w3) == mac ^ UNIVERSAL_BIT
    ensures Identifies(a, mac, i)
  {
    XorBit(Join(a.w2, a.w3), mac, UNIVERSAL_BIT, i);
    UniversalBit(i);
  }

  /** The MAC that an address is taken to have, bit by bit, for every address. */
  lemma {:induction false} MacOfIpBits(a: Ip, i: nat)
    ensures Identifies(a, MacOfIp(a), i)
  {
    XorTwice(Join(a.w2, a.w3), UNIVERSAL_BIT);
    MacIdentifies(a, MacOfIp(a), i);
  }

  /** The autoconfigured link-local address of a MAC, bit by bit. */
  lemma {:induction false} LocalIpBits(mac: Mac, i: nat)
    ensures Identifies(LocalIp(mac), mac, i)
  {
    LocalIpRoundTrip(mac);
    MacOfIpBits(LocalIp(mac), i);
  }

  /** fe80::212:7400:102:304 is the address of 00:12:74:00:01:02:03:04. */
  lemma {:induction false} LocalIpExample()
    ensures LocalIp(0x0012_7400_0102_0304) == Ip(0x0000_80FE, 0, 0x0074_1202, 0x0403_0201)
  {
  }

  /** The link-local address of a MAC is in fe80::/64 and gives the MAC back. */
  lemma {:induction false} LocalIpRoundTrip(mac: Mac)
    ensures MacOfIp(LocalIp(mac)) == mac
    ensures Join(LocalIp(mac).w0, LocalIp(mac).w1) == 0xFE80_0000_0000_0000
  {
    IdRoundTrip(mac);
  }
}
