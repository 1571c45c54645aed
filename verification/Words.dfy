/**
 32-bit words and the bytes that a little-endian machine keeps of them.
 */
module Words {

  function BigEndian(b0: bv8, b1: bv8, b2: bv8, b3: bv8): bv32 {
    ((b0 as bv32) << 24) | ((b1 as bv32) << 16) | ((b2 as bv32) << 8) | (b3 as bv32)
  }

  /** The bytes of a word, most significant first. */
  function BigBytes(x: bv32): (b: seq<bv8>)
    ensures |b| == 4
  {
    [(x >> 24) as bv8, ((x >> 16) & 0xFF) as bv8, ((x >> 8) & 0xFF) as bv8, (x & 0xFF) as bv8]
  }

  lemma {:induction false} BigBytesOf(b0: bv8, b1: bv8, b2: bv8, b3: bv8)
    ensures BigBytes(BigEndian(b0, b1, b2, b3)) == [b0, b1, b2, b3]
  {
  }

  function LoadLittleEndian(b0: bv8, b1: bv8, b2: bv8, b3: bv8): bv32 {
    (b0 as bv32) | ((b1 as bv32) << 8) | ((b2 as bv32) << 16) | ((b3 as bv32) << 24)
  }

  /** What a store of the word leaves in memory. */
  function StoreLittleEndian(x: bv32): (b: seq<bv8>)
    ensures |b| == 4
  {
    [(x & 0xFF) as bv8, ((x >> 8) & 0xFF) as bv8, ((x >> 16) & 0xFF) as bv8, (x >> 24) as bv8]
  }

  lemma {:induction false} LoadStored(x: bv32)
    ensures var b := StoreLittleEndian(x); LoadLittleEndian(b[0], b[1], b[2], b[3]) == x
  {
  }

  /** The macro SWAP. */
  function Swap(n: bv32): bv32 {
    (n << 24) | ((n & 0xff00) << 8) | ((n >> 8) & 0xff00) | (n >> 24)
  }

  lemma {:induction false} SwappedLoad(b0: bv8, b1: bv8, b2: bv8, b3: bv8)
    ensures Swap(LoadLittleEndian(b0, b1, b2, b3)) == BigEndian(b0, b1, b2, b3)
  {
  }

  lemma {:induction false} SwappedStore(x: bv32)
    ensures StoreLittleEndian(Swap(x)) == BigBytes(x)
  {
  }

  lemma {:induction false} WordOfBytes(x: bv32, y: bv32)
    requires (x >> 24) as bv8 == (y >> 24) as bv8 && ((x >> 16) & 0xFF) as bv8 == ((y >> 16) & 0xFF) as bv8
    requires ((x >> 8) & 0xFF) as bv8 == ((y >> 8) & 0xFF) as bv8 && (x & 0xFF) as bv8 == (y & 0xFF) as bv8
    ensures x == y
  {
  }

  lemma {:induction false} SameBigBytes(x: bv32, y: bv32)
    requires BigBytes(x) == BigBytes(y)
    ensures x == y
  {
    var p, q := BigBytes(x), BigBytes(y);
    assert p[0] == q[0] && p[1] == q[1] && p[2] == q[2] && p[3] == q[3];
    WordOfBytes(x, y);
  }

  lemma {:induction false} SameStored(x: bv32, y: bv32)
    requires StoreLittleEndian(x) == StoreLittleEndian(y)
    ensures x == y
  {
    var p, q := StoreLittleEndian(x), StoreLittleEndian(y);
    assert p[0] == q[0] && p[1] == q[1] && p[2] == q[2] && p[3] == q[3];
    WordOfBytes(x, y);
  }

  lemma {:induction false} SamePart(a: seq<bv8>, b: seq<bv8>, s: seq<bv8>, t: seq<bv8>)
    requires |a| == |b| && a + s == b + t
    ensures a == b && s == t
  {
    assert (a + s)[..|a|] == a && (a + s)[|a|..] == s;
    assert (b + t)[..|b|] == b && (b + t)[|b|..] == t;
  }

  // ---- words and numbers

  const WORD: nat := 0x1_0000_0000

  /** The n bytes of v, most significant first. */
  function Bytes(v: nat, n: nat): (b: seq<bv8>)
    ensures |b| == n
  {
    if n == 0 then [] else Bytes(v / 256, n - 1) + [(v % 256) as bv8]
  }

  /** A byte and its number, by counting down. */
  ghost predicate Is(b: bv8, n: nat) {
    if n == 0 then b == 0 else b != 0 && Is(b - 1, n - 1)
  }

  lemma {:induction false} ByteBefore(b: bv8)
    requires b != 0
    ensures (b - 1) as nat == b as nat - 1
  {
  }

  lemma {:induction false} IsNat(b: bv8, n: nat)
    ensures Is(b, n) <==> b as nat == n
  {
    if n > 0 && b != 0 {
      IsNat(b - 1, n - 1);
      ByteBefore(b);
    }
  }

  lemma {:induction false} NatIsByte(b: bv8, n: nat)
    requires b as nat == n
    ensures n < 256 && b == n as bv8
  {
    assert (b as nat) as bv8 == b;
  }

  lemma {:induction false} IsCast(b: bv8, n: nat)
    requires Is(b, n)
    ensures n < 256 && b == n as bv8
  {
    IsNat(b, n);
    NatIsByte(b, n);
  }

  lemma {:induction false} ByteAfter(b: bv8)
    requires b as nat < 255
    ensures (b + 1) as nat == b as nat + 1
  {
  }

  /** Every number below 256 is that of a byte. */
  lemma {:induction false} ByteFor(n: nat) returns (b: bv8)
    requires n < 256
    ensures Is(b, n)
  {
    if n == 0 {
      b := 0;
    } else {
      b := ByteFor(n - 1);
      IsNat(b, n - 1);
      ByteAfter(b);
      b := b + 1;
      IsNat(b, n);
    }
  }

  /** A byte and its number, which is cut into its three high and five low bits. */
  datatype Digit = Digit(b: bv8, q: nat, r: nat)

  function Num(d: Digit): nat {
    32 * d.q + d.r
  }

  ghost predicate DigitOk(d: Digit) {
    d.q < 8 && d.r < 32 && Is(d.b, Num(d))
  }

  lemma {:induction false} DigitFor(n: nat) returns (d: Digit)
    requires n < 256
    ensures DigitOk(d) && Num(d) == n
  {
    var b := ByteFor(n);
    d := Digit(b, n / 32, n % 32);
  }

  lemma {:induction false} LastDigit(v: nat, q: nat, d: nat)
    requires v == 256 * q + d && d < 256
    ensures v / 256 == q && v % 256 == d
  {
  }

  lemma {:induction false} BytesStep(v: nat, n: nat, q: nat, d: nat, b: bv8)
    requires v == 256 * q + d && Is(b, d)
    ensures Bytes(v, n + 1) == Bytes(q, n) + [b]
  {
    IsCast(b, d);
    LastDigit(v, q, d);
  }

  /** The four digits of a number below 2^32, most significant first. */
  datatype Quad = Quad(d3: Digit, d2: Digit, d1: Digit, d0: Digit)

  ghost predicate QuadOk(w: Quad, v: nat) {
    && DigitOk(w.d3) && DigitOk(w.d2) && DigitOk(w.d1) && DigitOk(w.d0)
    && v == 0x100_0000 * Num(w.d3) + 0x1_0000 * Num(w.d2) + 0x100 * Num(w.d1) + Num(w.d0)
  }

  lemma {:induction false} QuadFor(v: nat) returns (w: Quad)
    requires v < WORD
    ensures QuadOk(w, v)
  {
    assert v / 256 / 256 / 256 < 256;
    var d3 := DigitFor(v / 256 / 256 / 256);
    var d2 := DigitFor(v / 256 / 256 % 256);
    var d1 := DigitFor(v / 256 % 256);
    var d0 := DigitFor(v % 256);
    w := Quad(d3, d2, d1, d0);
  }

  function QuadBytes(w: Quad): seq<bv8> {
    [w.d3.b, w.d2.b, w.d1.b, w.d0.b]
  }

  lemma {:induction false} FourBytes(v: nat, n: nat, d3: nat, d2: nat, d1: nat, d0: nat, b3: bv8, b2: bv8, b1: bv8, b0: bv8)
    requires v == 0x100_0000 * d3 + 0x1_0000 * d2 + 0x100 * d1 + d0 && Is(b3, d3) && Is(b2, d2) && Is(b1, d1) && Is(b0, d0)
    ensures Bytes(v, n + 4) == Bytes(0, n) + [b3] + [b2] + [b1] + [b0]
  {
    var v1 := 0x1_0000 * d3 + 0x100 * d2 + d1;
    var v2 := 0x100 * d3 + d2;
    BytesStep(v, n + 3, v1, d0, b0);
    BytesStep(v1, n + 2, v2, d1, b1);
    BytesStep(v2, n + 1, d3, d2, b2);
    BytesStep(d3, n, 0, d3, b3);
  }

  lemma {:induction false} BytesOfQuad(w: Quad, v: nat, n: nat)
    requires QuadOk(w, v)
    ensures Bytes(v, n + 4) == Bytes(0, n) + QuadBytes(w)
  {
    FourBytes(v, n, Num(w.d3), Num(w.d2), Num(w.d1), Num(w.d0), w.d3.b, w.d2.b, w.d1.b, w.d0.b);
  }

  /** The bytes of a word are the digits of a number. */
  ghost predicate Encodes(x: bv32, v: nat) {
    exists w: Quad {:trigger QuadOk(w, v)} :: QuadOk(w, v) && BigBytes(x) == QuadBytes(w)
  }

  lemma {:induction false} EncodedBytes(x: bv32, v: nat)
    requires Encodes(x, v)
    ensures BigBytes(x) == Bytes(v, 4)
  {
    var w: Quad :| QuadOk(w, v) && BigBytes(x) == QuadBytes(w);
    BytesOfQuad(w, v, 0);
    assert Bytes(0, 0) == [];
  }

  lemma {:induction false} ZeroBytes()
    ensures BigBytes(0) == [0, 0, 0, 0]
  {
  }

  lemma {:induction false} ZeroByte(d: Digit, n: nat)
    requires DigitOk(d) && Num(d) == n && n <= 0
    ensures d.b == 0
  {
    IsNat(d.b, n);
  }

  lemma {:induction false} ZeroEncodes(n: nat)
    requires n <= 0
    ensures Encodes(0, n)
  {
    var w := QuadFor(n);
    ZeroByte(w.d3, n);
    ZeroByte(w.d2, n);
    ZeroByte(w.d1, n);
    ZeroByte(w.d0, n);
    ZeroBytes();
  }

  /** The word of a number. */
  function WordOf(v: nat): (x: bv32) {
    BigEndian((v / 0x100_0000 % 256) as bv8, (v / 0x1_0000 % 256) as bv8, (v / 0x100 % 256) as bv8, (v % 256) as bv8)
  }

  lemma {:induction false} WordEncodes(v: nat)
    requires v < WORD
    ensures Encodes(WordOf(v), v)
  {
    var w := QuadFor(v);
    Quotients(v, Num(w.d3), Num(w.d2), Num(w.d1), Num(w.d0));
    IsCast(w.d3.b, Num(w.d3));
    IsCast(w.d2.b, Num(w.d2));
    IsCast(w.d1.b, Num(w.d1));
    IsCast(w.d0.b, Num(w.d0));
    BigBytesOf(w.d3.b, w.d2.b, w.d1.b, w.d0.b);
  }

  lemma {:induction false} Quotients(v: nat, d3: nat, d2: nat, d1: nat, d0: nat)
    requires v == 0x100_0000 * d3 + 0x1_0000 * d2 + 0x100 * d1 + d0 && d3 < 256 && d2 < 256 && d1 < 256 && d0 < 256
    ensures v / 0x100_0000 % 256 == d3 && v / 0x1_0000 % 256 == d2 && v / 0x100 % 256 == d1 && v % 256 == d0
  {
    LastDigit(v, 0x1_0000 * d3 + 0x100 * d2 + d1, d0);
    LastDigit(v / 256, 0x100 * d3 + d2, d1);
    LastDigit(v / 256 / 256, d3, d2);
    DivTwice(v);
  }

  lemma {:induction false} DivTwice(v: nat)
    ensures v / 0x1_0000 == v / 256 / 256 && v / 0x100_0000 == v / 256 / 256 / 256
  {
  }

  lemma {:induction false} UpThree(b: bv8, q: nat, r: nat)
    requires b as nat == 32 * q + r && r < 32
    ensures (b << 3) as nat == 8 * r && (b << 3) & 7 == 0
  {
  }

  lemma {:induction false} DownFive(b: bv8, q: nat, r: nat)
    requires b as nat == 32 * q + r && r < 32
    ensures (b >> 5) as nat == q && b >> 5 < 8
  {
  }

  lemma {:induction false} JoinBits(b: bv8, c: bv8)
    requires b & 7 == 0 && c < 8
    ensures (b | c) as nat == b as nat + c as nat
  {
  }

  /** One byte of a shift to the left by three: its own low bits, and the high bits of the byte below. */
  function ShiftIn(b: bv8, c: bv8): bv8 {
    (b << 3) | (c >> 5)
  }

  lemma {:induction false} ShiftBits(b: bv8, c: bv8, q: nat, r: nat, q1: nat, r1: nat)
    requires b as nat == 32 * q + r && r < 32 && c as nat == 32 * q1 + r1 && r1 < 32
    ensures ShiftIn(b, c) as nat == 8 * r + q1
  {
    UpThree(b, q, r);
    DownFive(c, q1, r1);
    JoinBits(b << 3, c >> 5);
  }

  lemma {:induction false} ShiftDigit(d: Digit, e: Digit) returns (s: Digit)
    requires DigitOk(d) && DigitOk(e)
    ensures DigitOk(s) && Num(s) == 8 * d.r + e.q && s.b == ShiftIn(d.b, e.b)
  {
    s := Digit(ShiftIn(d.b, e.b), (8 * d.r + e.q) / 32, (8 * d.r + e.q) % 32);
    IsNat(d.b, Num(d));
    IsNat(e.b, Num(e));
    ShiftBits(d.b, e.b, d.q, d.r, e.q, e.r);
    IsNat(s.b, Num(s));
  }

  lemma {:induction false} ModWord(v: nat, q: nat, r: nat)
    requires v == WORD * q + r && r < WORD
    ensures v % WORD == r
  {
  }

  lemma {:induction false} DivTop(v: nat, q: nat, r: nat)
    requires v == 0x2000_0000 * q + r && r < 0x2000_0000
    ensures v / 0x2000_0000 == q
  {
  }

  lemma {:induction false} ShiftedNumber(x: Quad, y: Quad, z: Quad, high: nat, low: nat)
    requires QuadOk(x, high) && QuadOk(y, low)
    requires Num(z.d3) == 8 * x.d3.r + x.d2.q && Num(z.d2) == 8 * x.d2.r + x.d1.q && Num(z.d1) == 8 * x.d1.r + x.d0.q
    requires Num(z.d0) == 8 * x.d0.r + y.d3.q && DigitOk(z.d3) && DigitOk(z.d2) && DigitOk(z.d1) && DigitOk(z.d0)
    ensures QuadOk(z, (8 * high) % WORD + low / 0x2000_0000)
  {
    var n := 0x100_0000 * Num(z.d3) + 0x1_0000 * Num(z.d2) + 0x100 * Num(z.d1) + 8 * x.d0.r;
    ModWord(8 * high, x.d3.q, n);
    DivTop(low, y.d3.q, 0x100_0000 * y.d3.r + 0x1_0000 * Num(y.d2) + 0x100 * Num(y.d1) + Num(y.d0));
  }

  lemma {:induction false} ShiftedBytes(x: bv32, y: bv32, b3: bv8, b2: bv8, b1: bv8, b0: bv8, c3: bv8, c2: bv8, c1: bv8, c0: bv8)
    requires BigBytes(x) == [b3, b2, b1, b0] && BigBytes(y) == [c3, c2, c1, c0]
    ensures BigBytes((x << 3) | (y >> 29)) == [ShiftIn(b3, b2), ShiftIn(b2, b1), ShiftIn(b1, b0), ShiftIn(b0, c3)]
  {
    var p, q := BigBytes(x), BigBytes(y);
    assert p[0] == b3 && p[1] == b2 && p[2] == b1 && p[3] == b0 && q[0] == c3;
  }

  lemma {:induction false} ShiftedQuad(x: Quad, y: Quad, high: nat, low: nat) returns (z: Quad)
    requires QuadOk(x, high) && QuadOk(y, low)
    ensures QuadOk(z, (8 * high) % WORD + low / 0x2000_0000)
    ensures QuadBytes(z) ==
              [ShiftIn(x.d3.b, x.d2.b), ShiftIn(x.d2.b, x.d1.b), ShiftIn(x.d1.b, x.d0.b), ShiftIn(x.d0.b, y.d3.b)]
  {
    var d3 := ShiftDigit(x.d3, x.d2);
    var d2 := ShiftDigit(x.d2, x.d1);
    var d1 := ShiftDigit(x.d1, x.d0);
    var d0 := ShiftDigit(x.d0, y.d3);
    z := Quad(d3, d2, d1, d0);
    ShiftedNumber(x, y, z, high, low);
  }

  /** The double-word shift to the left by three, on words and on numbers. */
  lemma {:induction false} DoubleShift(x: bv32, y: bv32, high: nat, low: nat)
    requires Encodes(x, high) && Encodes(y, low)
    ensures Encodes((x << 3) | (y >> 29), (8 * high) % WORD + low / 0x2000_0000)
  {
    var v: Quad :| QuadOk(v, high) && BigBytes(x) == QuadBytes(v);
    var w: Quad :| QuadOk(w, low) && BigBytes(y) == QuadBytes(w);
    var z := ShiftedQuad(v, w, high, low);
    ShiftedBytes(x, y, v.d3.b, v.d2.b, v.d1.b, v.d0.b, w.d3.b, w.d2.b, w.d1.b, w.d0.b);
  }
}
