/**
 An example computed by the definition: the message "abc", of one block, has the digest that section 7.3 of RFC 3174 gives
 for it. That ties every constant, function and rotation of the definition to a published value.
 */
module Sha1Example {
  import opened Sha1Spec
  import opened Words

  const ABC: seq<bv8> := [0x61, 0x62, 0x63]

  const BLOCK: seq<bv32> := [0x61626380, 0, 0, 0, 0, 0, 0, 0, 0, 0, 0, 0, 0, 0, 0, 0x18]

  // ---- the message schedule

  lemma {:induction false} Given(t: nat)
    requires t < 16
    ensures W(BLOCK, t) == BLOCK[t]
  {
  }

  lemma {:induction false} Word(t: nat)
    requires 16 <= t
    ensures W(BLOCK, t) == Rotl1(W(BLOCK, t - 3) ^ W(BLOCK, t - 8) ^ W(BLOCK, t - 14) ^ W(BLOCK, t - 16))
  {
  }

  lemma {:induction false} Words0()
    ensures W(BLOCK, 0) == 0x61626380 && W(BLOCK, 1) == 0 && W(BLOCK, 2) == 0 && W(BLOCK, 3) == 0
    ensures W(BLOCK, 4) == 0 && W(BLOCK, 5) == 0 && W(BLOCK, 6) == 0 && W(BLOCK, 7) == 0
  {
    hide W;
    Given(0); Given(1); Given(2); Given(3);
    Given(4); Given(5); Given(6); Given(7);
  }

  lemma {:induction false} Words8()
    ensures W(BLOCK, 8) == 0 && W(BLOCK, 9) == 0 && W(BLOCK, 10) == 0 && W(BLOCK, 11) == 0
    ensures W(BLOCK, 12) == 0 && W(BLOCK, 13) == 0 && W(BLOCK, 14) == 0 && W(BLOCK, 15) == 0x00000018
  {
    hide W;
    Given(8); Given(9); Given(10); Given(11);
    Given(12); Given(13); Given(14); Given(15);
  }

  lemma {:induction false} Words16()
    ensures W(BLOCK, 16) == 0xc2c4c700 && W(BLOCK, 17) == 0 && W(BLOCK, 18) == 0x00000030 && W(BLOCK, 19) == 0x85898e01
    ensures W(BLOCK, 20) == 0 && W(BLOCK, 21) == 0x00000060 && W(BLOCK, 22) == 0x0b131c03 && W(BLOCK, 23) == 0x00000030
    ensures W(BLOCK, 24) == 0x85898ec1 && W(BLOCK, 25) == 0x16263806 && W(BLOCK, 26) == 0 && W(BLOCK, 27) == 0x00000180
    ensures W(BLOCK, 28) == 0x2c4c700c && W(BLOCK, 29) == 0x000000f0 && W(BLOCK, 30) == 0x93afb507 && W(BLOCK, 31) == 0x5898e048
  {
    hide W;
    Words0();
    Words8();
    Word(16); Word(17); Word(18); Word(19);
    Word(20); Word(21); Word(22); Word(23);
    Word(24); Word(25); Word(26); Word(27);
    Word(28); Word(29); Word(30); Word(31);
  }

  lemma {:induction false} Words32()
    ensures W(BLOCK, 32) == 0x8e9a9202 && W(BLOCK, 33) == 0x00000600 && W(BLOCK, 34) == 0xb131c0f0 && W(BLOCK, 35) == 0x16263bc6
    ensures W(BLOCK, 36) == 0x4ebed41e && W(BLOCK, 37) == 0x626380a1 && W(BLOCK, 38) == 0x16263806 && W(BLOCK, 39) == 0x000018c0
    ensures W(BLOCK, 40) == 0xd2e138c4 && W(BLOCK, 41) == 0x00000f00 && W(BLOCK, 42) == 0x3afb5079 && W(BLOCK, 43) == 0x898e04e5
    ensures W(BLOCK, 44) == 0xe2ba3c2b && W(BLOCK, 45) == 0x000060c0 && W(BLOCK, 46) == 0x053a37cd && W(BLOCK, 47) == 0x74458547
  {
    hide W;
    Words16();
    Word(32); Word(33); Word(34); Word(35);
    Word(36); Word(37); Word(38); Word(39);
    Word(40); Word(41); Word(42); Word(43);
    Word(44); Word(45); Word(46); Word(47);
  }

  lemma {:induction false} Words48()
    ensures W(BLOCK, 48) == 0xda9415ed && W(BLOCK, 49) == 0x26380a16 && W(BLOCK, 50) == 0x626383a1 && W(BLOCK, 51) == 0x4ebf54de
    ensures W(BLOCK, 52) == 0x3835b44b && W(BLOCK, 53) == 0x0000f600 && W(BLOCK, 54) == 0x1e84c7a3 && W(BLOCK, 55) == 0x98e04d98
    ensures W(BLOCK, 56) == 0x651d16a0 && W(BLOCK, 57) == 0x62658ca1 && W(BLOCK, 58) == 0x458544d6 && W(BLOCK, 59) == 0x44584cb7
    ensures W(BLOCK, 60) == 0x7ba06619 && W(BLOCK, 61) == 0x6380aea2 && W(BLOCK, 62) == 0x0ae55269 && W(BLOCK, 63) == 0x627b49a1
  {
    hide W;
    Words32();
    Word(48); Word(49); Word(50); Word(51);
    Word(52); Word(53); Word(54); Word(55);
    Word(56); Word(57); Word(58); Word(59);
    Word(60); Word(61); Word(62); Word(63);
  }

  lemma {:induction false} Words64()
    ensures W(BLOCK, 64) == 0x7cd45c9d && W(BLOCK, 65) == 0x000f0000 && W(BLOCK, 66) == 0xfb50753a && W(BLOCK, 67) == 0xec6765e8
    ensures W(BLOCK, 68) == 0xba3c2be2 && W(BLOCK, 69) == 0x0060c000 && W(BLOCK, 70) == 0x3a37cd05 && W(BLOCK, 71) == 0x458546f4
    ensures W(BLOCK, 72) == 0xb8599dd6 && W(BLOCK, 73) == 0x380a1a26 && W(BLOCK, 74) == 0x01e02203 && W(BLOCK, 75) == 0xe7cc3456
    ensures W(BLOCK, 76) == 0xe6e60b69 && W(BLOCK, 77) == 0x00f60a00 && W(BLOCK, 78) == 0x5795ef4f && W(BLOCK, 79) == 0x822e0879
  {
    hide W;
    Words48();
    Word(64); Word(65); Word(66); Word(67);
    Word(68); Word(69); Word(70); Word(71);
    Word(72); Word(73); Word(74); Word(75);
    Word(76); Word(77); Word(78); Word(79);
  }

  // ---- the rounds

  lemma {:induction false} NextRound(t: nat)
    ensures Rounds(H0, BLOCK, t + 1) == Round(Rounds(H0, BLOCK, t), t, W(BLOCK, t))
  {
  }

  lemma {:induction false} Rounds8()
    ensures Rounds(H0, BLOCK, 8) == Regs(0x9e8c07d4, 0x993e30c1, 0x0ff1f290, 0xb3f52677, 0xf3763846)
  {
    hide Rounds, W;
    Words0();
    NoRound();
    NextRound(0); NextRound(1); NextRound(2); NextRound(3);
    NextRound(4); NextRound(5); NextRound(6); NextRound(7);
  }

  lemma {:induction false} Rounds16()
    ensures Rounds(H0, BLOCK, 16) == Regs(0x20bdd62f, 0x196bee77, 0x644a3da5, 0x1181ed99, 0x18c623f9)
  {
    hide Rounds, W;
    Words8();
    Rounds8();
    NextRound(8); NextRound(9); NextRound(10); NextRound(11);
    NextRound(12); NextRound(13); NextRound(14); NextRound(15);
  }

  lemma {:induction false} Rounds24()
    ensures Rounds(H0, BLOCK, 24) == Regs(0xd541f12d, 0x21283486, 0x0ce88eff, 0x868dec32, 0x7f67875f)
  {
    hide Rounds, W;
    Words16();
    Rounds16();
    NextRound(16); NextRound(17); NextRound(18); NextRound(19);
    NextRound(20); NextRound(21); NextRound(22); NextRound(23);
  }

  lemma {:induction false} Rounds32()
    ensures Rounds(H0, BLOCK, 32) == Regs(0x3b845d33, 0x1267b407, 0x717eebd7, 0xa0dc2d4b, 0xd2aa1365)
  {
    hide Rounds, W;
    Words16();
    Rounds24();
    NextRound(24); NextRound(25); NextRound(26); NextRound(27);
    NextRound(28); NextRound(29); NextRound(30); NextRound(31);
  }

  lemma {:induction false} Rounds40()
    ensures Rounds(H0, BLOCK, 40) == Regs(0x32de1cba, 0x4c986405, 0xf718e5cf, 0x03d447f6, 0xf72eec32)
  {
    hide Rounds, W;
    Words32();
    Rounds32();
    NextRound(32); NextRound(33); NextRound(34); NextRound(35);
    NextRound(36); NextRound(37); NextRound(38); NextRound(39);
  }

  lemma {:induction false} Rounds48()
    ensures Rounds(H0, BLOCK, 48) == Regs(0xbead02ca, 0xa01b846c, 0x8714787c, 0x503ca382, 0xfb86c6ab)
  {
    hide Rounds, W;
    Words32();
    Rounds40();
    NextRound(40); NextRound(41); NextRound(42); NextRound(43);
    NextRound(44); NextRound(45); NextRound(46); NextRound(47);
  }

  lemma {:induction false} Rounds56()
    ensures Rounds(H0, BLOCK, 56) == Regs(0x5e6456af, 0x7b71f76d, 0x09fa7c76, 0x792410db, 0x8e11eb59)
  {
    hide Rounds, W;
    Words48();
    Rounds48();
    NextRound(48); NextRound(49); NextRound(50); NextRound(51);
    NextRound(52); NextRound(53); NextRound(54); NextRound(55);
  }

  lemma {:induction false} Rounds64()
    ensures Rounds(H0, BLOCK, 64) == Regs(0x6b61c9e1, 0xb66c020b, 0x9523272c, 0xf5d5b051, 0x8fd4b796)
  {
    hide Rounds, W;
    Words48();
    Rounds56();
    NextRound(56); NextRound(57); NextRound(58); NextRound(59);
    NextRound(60); NextRound(61); NextRound(62); NextRound(63);
  }

  lemma {:induction false} Rounds72()
    ensures Rounds(H0, BLOCK, 72) == Regs(0x39859de7, 0xc199f8c7, 0x8fc96230, 0x125c24f0, 0xde37534a)
  {
    hide Rounds, W;
    Words64();
    Rounds64();
    NextRound(64); NextRound(65); NextRound(66); NextRound(67);
    NextRound(68); NextRound(69); NextRound(70); NextRound(71);
  }

  lemma {:induction false} Rounds80()
    ensures Rounds(H0, BLOCK, 80) == Regs(0x42541b35, 0x5738d5e1, 0x21834873, 0x681e6df6, 0xd8fdf6ad)
  {
    hide Rounds, W;
    Words64();
    Rounds72();
    NextRound(72); NextRound(73); NextRound(74); NextRound(75);
    NextRound(76); NextRound(77); NextRound(78); NextRound(79);
  }

  lemma {:induction false} NoRound()
    ensures Rounds(H0, BLOCK, 0) == H0
  {
  }

  // ---- the message

  lemma {:induction false} LengthBytes()
    ensures Bytes(24, 8) == [0, 0, 0, 0, 0, 0, 0, 24]
  {
    hide Bytes;
    LastByte(24, 7); LastByte(0, 6); LastByte(0, 5); LastByte(0, 4);
    LastByte(0, 3); LastByte(0, 2); LastByte(0, 1); LastByte(0, 0);
    assert Bytes(0, 0) == [] by {
      NoBytes();
    }
  }

  lemma {:induction false} LastByte(v: nat, n: nat)
    requires v < 256
    ensures Bytes(v, n + 1) == Bytes(0, n) + [v as bv8]
  {
    assert v / 256 == 0;
  }

  lemma {:induction false} NoBytes()
    ensures Bytes(0, 0) == []
  {
  }

  lemma {:induction false} Padded()
    ensures Pad(ABC) == ABC + [0x80] + Zeros(52) + [0, 0, 0, 0, 0, 0, 0, 24] && |Pad(ABC)| == 64
  {
    LengthBytes();
    hide Bytes;
    assert |ABC| == 3 && (119 - 3) % 64 == 52;
  }

  lemma {:induction false} PaddedWord(p: seq<bv8>, i: nat)
    requires p == ABC + [0x80] + Zeros(52) + [0, 0, 0, 0, 0, 0, 0, 24] && i < 16
    ensures |p| == 64 && BigEndian(p[4 * i], p[4 * i + 1], p[4 * i + 2], p[4 * i + 3]) == BLOCK[i]
  {
    hide BigEndian;
    FirstWord();
    if i == 15 {
      assert p[60] == 0 && p[61] == 0 && p[62] == 0 && p[63] == 24;
    } else if i > 0 {
      assert p[4 * i] == 0 && p[4 * i + 1] == 0 && p[4 * i + 2] == 0 && p[4 * i + 3] == 0;
    }
  }

  lemma {:induction false} PaddedBlock()
    ensures |Pad(ABC)| == 64 && BlockWords(Pad(ABC)) == BLOCK
  {
    hide Pad, BigEndian, Zeros;
    Padded();
    forall i: nat | i < 16 ensures BlockWords(Pad(ABC))[i] == BLOCK[i] {
      PaddedWord(Pad(ABC), i);
    }
  }

  lemma {:induction false} FirstWord()
    ensures BigEndian(0x61, 0x62, 0x63, 0x80) == 0x61626380 && BigEndian(0, 0, 0, 24) == 0x18 && BigEndian(0, 0, 0, 0) == 0
  {
  }

  lemma {:induction false} OneBlock(msg: seq<bv8>)
    requires |Pad(msg)| == 64 && |msg| < MAX_LENGTH
    ensures Sha1(msg) == Add(H0, Rounds(H0, BlockWords(Pad(msg)), 80))
  {
    var p := Pad(msg);
    assert p[0..64] == p;
    assert Blocks(H0, p, 1) == Compress(Blocks(H0, p, 0), BlockWords(p[0..64]));
  }

  /** The digest of "abc". */
  lemma {:induction false} DigestOfAbc()
    ensures Sha1(ABC) == Regs(0xa9993e36, 0x4706816a, 0xba3e2571, 0x7850c26c, 0x9cd0d89d)
  {
    hide Pad, Sha1, Rounds, BlockWords;
    PaddedBlock();
    OneBlock(ABC);
    Rounds80();
  }
}
