/**
 * The CRC-32 of section 3.2.9 of IEEE 802.3 in the two forms the repository implements: a register shifted
 * towards its most significant bit, and a reflected one driven by a table. The algebra is for any generator
 * whose constant term is 1, so it does not depend on the digits of the polynomial.
 */
module CrcRegister {
  import opened Words

  /** 0x04C11DB7: the coefficients of the generator below x^32. Bit i belongs to x^i. */
  const IEEE: Word32 := Coefficients({0, 1, 2, 4, 5, 7, 8, 10, 11, 12, 16, 22, 23, 26})

  /** 0xEDB88320 */
  const IEEE_REFLECTED: Word32 := Coefficients({5, 8, 9, 15, 19, 20, 21, 23, 24, 26, 27, 29, 30, 31})

  function Coefficients(exponents: set<int>): (w: Word32) {
    seq(32, i => i in exponents)
  }

  function Nibble(p: bool, q: bool, r: bool, s: bool): (n: nat) {
    (if p then 1 else 0) + (if q then 2 else 0) + (if r then 4 else 0) + (if s then 8 else 0)
  }

  /** What the eight bits from the k-th on are worth. */
  function ByteAt(e: set<int>, k: nat): (n: nat) {
    Nibble(k in e, k + 1 in e, k + 2 in e, k + 3 in e) + 16 * Nibble(k + 4 in e, k + 5 in e, k + 6 in e, k + 7 in e)
  }

  lemma {:induction false} FourBits(a: Bits)
    requires |a| == 4
    ensures ToNat(a) == Nibble(a[0], a[1], a[2], a[3])
  {
    assert a[1..][1..] == a[2..] && a[2..][1..] == a[3..] && a[3..][1..] == [];
    assert ToNat(a[2..]) == (if a[2] then 1 else 0) + 2 * (if a[3] then 1 else 0);
  }

  lemma {:induction false} EightBits(exponents: set<int>, k: nat)
    requires k <= 24
    ensures ToNat(Coefficients(exponents)[k..k + 8]) == ByteAt(exponents, k)
  {
    var a := Coefficients(exponents)[k..k + 8];
    var low, high := a[..4], a[4..];
    assert forall i :: 0 <= i < 8 ==> a[i] == (k + i in exponents);
    assert forall i :: 0 <= i < 4 ==> low[i] == a[i] && high[i] == a[4 + i];
    assert Pow2(4) == 16;
    hide ToNat, Nibble;
    FourBits(low);
    FourBits(high);
    ToNatConcat(low, high);
    assert a == low + high;
  }

  /** A word by its four bytes, the lowest first. */
  lemma {:induction false} FourBytes(exponents: set<int>)
    ensures ToNat(Coefficients(exponents))
            == ByteAt(exponents, 0) + 0x100 * ByteAt(exponents, 8) + 0x1_0000 * ByteAt(exponents, 16)
               + 0x100_0000 * ByteAt(exponents, 24)
  {
    var w := Coefficients(exponents);
    var a, b, c, d := w[0..8], w[8..16], w[16..24], w[24..32];
    assert Pow2(8) == 256;
    assert w == a + (b + (c + d));
    EightBits(exponents, 0);
    EightBits(exponents, 8);
    EightBits(exponents, 16);
    EightBits(exponents, 24);
    hide ToNat, ByteAt, Coefficients;
    ToNatConcat(c, d);
    ToNatConcat(b, c + d);
    ToNatConcat(a, b + (c + d));
  }

  /** The two generators are the numbers the sources write. */
  lemma PolynomialNumbers()
    ensures ToNat(IEEE) == 0x04C1_1DB7 && ToNat(IEEE_REFLECTED) == 0xEDB8_8320
  {
    ForwardNumber();
    ReflectedNumber();
  }

  lemma {:induction false} ForwardNumber()
    ensures ToNat(IEEE) == 0x04C1_1DB7
  {
    FourBytes({0, 1, 2, 4, 5, 7, 8, 10, 11, 12, 16, 22, 23, 26});
    hide ToNat, Coefficients, ByteAt;
    ForwardLow();
    ForwardHigh();
  }

  lemma ForwardLow()
    ensures var e := {0, 1, 2, 4, 5, 7, 8, 10, 11, 12, 16, 22, 23, 26};
            ByteAt(e, 0) == 0xB7 && ByteAt(e, 8) == 0x1D
  {
  }

  lemma ForwardHigh()
    ensures var e := {0, 1, 2, 4, 5, 7, 8, 10, 11, 12, 16, 22, 23, 26};
            ByteAt(e, 16) == 0xC1 && ByteAt(e, 24) == 0x04
  {
  }

  lemma {:induction false} ReflectedNumber()
    ensures ToNat(IEEE_REFLECTED) == 0xEDB8_8320
  {
    FourBytes({5, 8, 9, 15, 19, 20, 21, 23, 24, 26, 27, 29, 30, 31});
    hide ToNat, Coefficients, ByteAt;
    ReflectedLow();
    ReflectedHigh();
  }

  lemma ReflectedLow()
    ensures var e := {5, 8, 9, 15, 19, 20, 21, 23, 24, 26, 27, 29, 30, 31};
            ByteAt(e, 0) == 0x20 && ByteAt(e, 8) == 0x83
  {
  }

  lemma ReflectedHigh()
    ensures var e := {5, 8, 9, 15, 19, 20, 21, 23, 24, 26, 27, 29, 30, 31};
            ByteAt(e, 16) == 0xB8 && ByteAt(e, 24) == 0xED
  {
  }

  // ---- The register that shifts towards bit 31 ----

  function Step(g: Word32, r: Word32, b: bool): (s: Word32) {
    if r[31] != b then Xor(Shl(r), g) else Shl(r)
  }

  function Run(g: Word32, r: Word32, bits: Bits): (s: Word32)
    decreases |bits|
  {
    if bits == [] then r else Run(g, Step(g, r, bits[0]), bits[1..])
  }

  function Crc(g: Word32, m: seq<Byte>): (s: Word32) {
    Run(g, Ones(32), BitStream(m))
  }

  lemma {:induction false} RunConcat(g: Word32, r: Word32, a: Bits, b: Bits)
    ensures Run(g, r, a + b) == Run(g, Run(g, r, a), b)
    decreases |a|
  {
    if a == [] {
      assert a + b == b;
    } else {
      assert (a + b)[1..] == a[1..] + b;
      RunConcat(g, Step(g, r, a[0]), a[1..], b);
    }
  }

  /** The CRC of a message that arrives in two parts is the second part's run from the first part's CRC. */
  lemma CrcComposes(g: Word32, a: seq<Byte>, b: seq<Byte>)
    ensures Crc(g, a + b) == Run(g, Crc(g, a), BitStream(b))
  {
    BitStreamConcat(a, b);
    RunConcat(g, Ones(32), BitStream(a), BitStream(b));
  }

  /** The register before the step that consumed b and produced s. */
  function Unstep(g: Word32, s: Word32, b: bool): (r: Word32)
    requires g[0]
    ensures Step(g, r, b) == s
  {
    var t := if s[0] then Xor(s, g) else s;
    var r := t[1..] + [s[0] != b];
    assert Step(g, r, b) == s;
    r
  }

  /** For a fixed message bit a step is a bijection of the register: Unstep is its two-sided inverse. */
  lemma StepBijective(g: Word32, r: Word32, s: Word32, b: bool)
    requires g[0]
    ensures Step(g, r, b) == s <==> r == Unstep(g, s, b)
  {
    if Step(g, r, b) == s {
      assert s[0] == (r[31] != b);
      assert r == Unstep(g, s, b);
    }
  }

  lemma {:induction false} RunInjective(g: Word32, r: Word32, s: Word32, bits: Bits)
    requires g[0] && r != s
    ensures Run(g, r, bits) != Run(g, s, bits)
    decreases |bits|
  {
    if bits != [] {
      StepBijective(g, r, Step(g, r, bits[0]), bits[0]);
      StepBijective(g, s, Step(g, s, bits[0]), bits[0]);
      RunInjective(g, Step(g, r, bits[0]), Step(g, s, bits[0]), bits[1..]);
    }
  }

  lemma StepLinear(g: Word32, r: Word32, s: Word32, b: bool, c: bool)
    ensures Step(g, Xor(r, s), b != c) == Xor(Step(g, r, b), Step(g, s, c))
  {
    var left, right := Step(g, Xor(r, s), b != c), Xor(Step(g, r, b), Step(g, s, c));
    forall i | 0 <= i < 32 ensures left[i] == right[i] {
    }
  }

  /** A run that ends in the zero register on at most 32 bits started from exactly those bits. */
  lemma {:induction false} ShortRunToZero(g: Word32, r: Word32, e: Bits)
    requires g[0] && |e| <= 32 && Run(g, r, e) == Zeros(32)
    ensures forall i :: 0 <= i < 32 ==> r[i] == (31 - i < |e| && e[31 - i])
    decreases |e|
  {
    if e != [] {
      var s := Step(g, r, e[0]);
      ShortRunToZero(g, s, e[1..]);
      assert !s[0];
      assert s == Shl(r);
      forall i | 0 <= i < 31 ensures r[i] == (31 - i < |e| && e[31 - i]) {
        assert r[i] == s[i + 1];
      }
    }
  }

  /** Two runs whose bits differ somewhere, but only inside one window of at most 32 bits, end apart. */
  lemma {:induction false} WindowKeepsApart(g: Word32, r: Word32, a: Bits, b: Bits)
    requires g[0] && |a| == |b| <= 32 && a != b
    ensures Run(g, r, a) != Run(g, r, b)
  {
    if Run(g, r, a) == Run(g, r, b) {
      RunLinear(g, r, r, a, b);
      assert Xor(r, r) == Zeros(32) == Xor(Run(g, r, a), Run(g, r, b));
      ShortRunToZero(g, Zeros(32), Xor(a, b));
      forall i | 0 <= i < |a| ensures a[i] == b[i] {
        assert !Zeros(32)[31 - i];
      }
      assert false;
    }
  }

  lemma {:induction false} RunLinear(g: Word32, r: Word32, s: Word32, a: Bits, b: Bits)
    requires |a| == |b|
    ensures Run(g, Xor(r, s), Xor(a, b)) == Xor(Run(g, r, a), Run(g, s, b))
    decreases |a|
  {
    if a != [] {
      assert Xor(a, b)[1..] == Xor(a[1..], b[1..]);
      StepLinear(g, r, s, a[0], b[0]);
      RunLinear(g, Step(g, r, a[0]), Step(g, s, b[0]), a[1..], b[1..]);
    }
  }

  lemma {:induction false} BitStreamInjective(m: seq<Byte>, n: seq<Byte>)
    requires |m| == |n| && BitStream(m) == BitStream(n)
    ensures m == n
  {
    if m != [] {
      assert BitStream(m)[..8] == ByteBits(m[0]) && BitStream(n)[..8] == ByteBits(n[0]);
      assert Pow2(8) == 256;
      ToFromNat(m[0], 8);
      ToFromNat(n[0], 8);
      assert BitStream(m)[8..] == BitStream(m[1..]) && BitStream(n)[8..] == BitStream(n[1..]);
      BitStreamInjective(m[1..], n[1..]);
    }
  }

  /**
   * Every error burst of at most 32 bits is detected: two different messages of one length whose bits agree
   * outside some window of 32 bits have different CRCs. A single flipped bit is the window of width 1.
   */
  lemma BurstDetected(g: Word32, m: seq<Byte>, n: seq<Byte>, from: nat, width: nat)
    requires g[0] && |m| == |n| && m != n && width <= 32 && from + width <= 8 * |m|
    requires forall i :: 0 <= i < 8 * |m| && !(from <= i < from + width) ==> BitStream(m)[i] == BitStream(n)[i]
    ensures Crc(g, m) != Crc(g, n)
  {
    if BitStream(m) == BitStream(n) {
      BitStreamInjective(m, n);
    }
    BurstInBits(g, BitStream(m), BitStream(n), from, from + width);
  }

  lemma BurstInBits(g: Word32, a: Bits, b: Bits, from: nat, to: nat)
    requires g[0] && |a| == |b| && a != b && from <= to <= |a| && to - from <= 32
    requires forall i :: 0 <= i < |a| && !(from <= i < to) ==> a[i] == b[i]
    ensures Run(g, Ones(32), a) != Run(g, Ones(32), b)
  {
    assert a[..from] == b[..from] && a[to..] == b[to..];
    assert a[from..to] != b[from..to];
    var r := Run(g, Ones(32), a[..from]);
    WindowKeepsApart(g, r, a[from..to], b[from..to]);
    RunInjective(g, Run(g, r, a[from..to]), Run(g, r, b[from..to]), a[to..]);
    RunThreeParts(g, a, from, to);
    RunThreeParts(g, b, from, to);
  }

  lemma RunThreeParts(g: Word32, a: Bits, from: nat, to: nat)
    requires from <= to <= |a|
    ensures Run(g, Ones(32), a) == Run(g, Run(g, Run(g, Ones(32), a[..from]), a[from..to]), a[to..])
  {
    assert a == a[..from] + (a[from..to] + a[to..]);
    RunConcat(g, Ones(32), a[..from], a[from..to] + a[to..]);
    RunConcat(g, Run(g, Ones(32), a[..from]), a[from..to], a[to..]);
  }

  // ---- The reflected register, and the table ----

  function RStep(h: Word32, r: Word32, b: bool): (s: Word32) {
    if r[0] != b then Xor(Shr(r), h) else Shr(r)
  }

  function RRun(h: Word32, r: Word32, bits: Bits): (s: Word32)
    decreases |bits|
  {
    if bits == [] then r else RRun(h, RStep(h, r, bits[0]), bits[1..])
  }

  /** Preset to ones, final complement. */
  function ReflectedCrc(h: Word32, m: seq<Byte>): (s: Word32) {
    Not(RRun(h, Ones(32), BitStream(m)))
  }

  lemma StepReflects(g: Word32, r: Word32, b: bool)
    ensures RStep(Reverse(g), Reverse(r), b) == Reverse(Step(g, r, b))
  {
    var left, right := RStep(Reverse(g), Reverse(r), b), Reverse(Step(g, r, b));
    forall i | 0 <= i < 32 ensures left[i] == right[i] {
    }
  }

  lemma {:induction false} RunReflects(g: Word32, r: Word32, bits: Bits)
    ensures RRun(Reverse(g), Reverse(r), bits) == Reverse(Run(g, r, bits))
    decreases |bits|
  {
    if bits != [] {
      StepReflects(g, r, bits[0]);
      RunReflects(g, Step(g, r, bits[0]), bits[1..]);
    }
  }

  lemma GeneratorFacts()
    ensures IEEE[0] && Reverse(IEEE) == IEEE_REFLECTED
  {
    var left, right := Reverse(IEEE), IEEE_REFLECTED;
    forall i | 0 <= i < 32 ensures left[i] == right[i] {
    }
  }

  /** The two families compute one checksum: the reflected one is the complement of the bit-reversed other. */
  lemma ReflectedIsComplementOfReversal(m: seq<Byte>)
    ensures ReflectedCrc(IEEE_REFLECTED, m) == Not(Reverse(Crc(IEEE, m)))
  {
    GeneratorFacts();
    assert Reverse(Ones(32)) == Ones(32);
    RunReflects(IEEE, Ones(32), BitStream(m));
  }

  /** What the table holds for index i: eight message-free steps of the word i. */
  function TableEntry(h: Word32, i: nat): (s: Word32) {
    RRun(h, FromNat(i, 32), Zeros(8))
  }

  /** The register with message bits added into its low end. */
  function Mixed(r: Word32, bits: Bits): (s: Word32)
    requires |bits| <= 32
  {
    Xor(r[..|bits|], bits) + Zeros(32 - |bits|)
  }

  /** k message bits at once: the k bits leaving the register select a correction for the rest. */
  lemma {:induction false} RunByTable(h: Word32, r: Word32, bits: Bits)
    requires |bits| <= 32
    ensures RRun(h, r, bits) == Xor(r[|bits|..] + Zeros(|bits|), RRun(h, Mixed(r, bits), Zeros(|bits|)))
    decreases |bits|
  {
    var k := |bits|;
    if k == 0 {
      assert Xor(r[0..] + Zeros(0), Mixed(r, bits)) == r;
    } else {
      RunOneByTable(h, r, bits);
      hide RRun, RStep, Mixed;
      var r', e' := RStep(h, r, bits[0]), RStep(h, Mixed(r, bits), false);
      RunByTable(h, r', bits[1..]);
      RunByTable(h, e', Zeros(k - 1));
      MixedStep(h, r, bits);
      SplitTail(h, r, bits, RRun(h, Mixed(e', Zeros(k - 1)), Zeros(k - 1)));
    }
  }

  lemma RunOneByTable(h: Word32, r: Word32, bits: Bits)
    requires 0 < |bits| <= 32
    ensures RRun(h, r, bits) == RRun(h, RStep(h, r, bits[0]), bits[1..])
    ensures RRun(h, Mixed(r, bits), Zeros(|bits|)) == RRun(h, RStep(h, Mixed(r, bits), false), Zeros(|bits| - 1))
  {
    assert Zeros(|bits|)[1..] == Zeros(|bits| - 1);
  }

  lemma MixedStep(h: Word32, r: Word32, bits: Bits)
    requires 0 < |bits| <= 32
    ensures Mixed(RStep(h, r, bits[0]), bits[1..]) == Mixed(RStep(h, Mixed(r, bits), false), Zeros(|bits| - 1))
  {
    var k, e := |bits|, Mixed(r, bits);
    assert e[0] == (r[0] != bits[0]);
    var left, right := Mixed(RStep(h, r, bits[0]), bits[1..]), Mixed(RStep(h, e, false), Zeros(k - 1));
    forall i | 0 <= i < 32 ensures left[i] == right[i] {
      if i < k - 1 {
        assert e[i + 1] == (r[i + 1] != bits[i + 1]);
      }
    }
  }

  lemma SplitTail(h: Word32, r: Word32, bits: Bits, c: Word32)
    requires 0 < |bits| <= 32
    ensures var k := |bits|;
            var r', e' := RStep(h, r, bits[0]), RStep(h, Mixed(r, bits), false);
            Xor(r'[k - 1..] + Zeros(k - 1), c) == Xor(r[k..] + Zeros(k), Xor(e'[k - 1..] + Zeros(k - 1), c))
  {
    var k, e := |bits|, Mixed(r, bits);
    assert e[0] == (r[0] != bits[0]);
    var r', e' := RStep(h, r, bits[0]), RStep(h, e, false);
    var left, right := Xor(r'[k - 1..] + Zeros(k - 1), c), Xor(r[k..] + Zeros(k), Xor(e'[k - 1..] + Zeros(k - 1), c));
    forall i | 0 <= i < 32 ensures left[i] == right[i] {
    }
  }

  /** One table lookup does the work of one message byte. */
  lemma TableStep(h: Word32, r: Word32, x: Byte)
    ensures var i := ToNat(Xor(r[..8], ByteBits(x)));
            i < 256 && RRun(h, r, ByteBits(x)) == Xor(r[8..] + Zeros(8), TableEntry(h, i))
  {
    var low := Xor(r[..8], ByteBits(x));
    assert Pow2(8) == 256;
    RunByTable(h, r, ByteBits(x));
    FromToNat(low);
    FromNatWiden(ToNat(low), 8, 32);
  }

  // ---- What the polynomial is worth ----

  function OneAt(k: nat): (r: Word32)
    requires k < 32
  {
    Zeros(k) + [true] + Zeros(31 - k)
  }

  lemma OneFalls(h: Word32, k: nat)
    requires k < 32
    ensures RStep(h, OneAt(k), false) == if k == 0 then h else OneAt(k - 1)
  {
    var left, right := RStep(h, OneAt(k), false), if k == 0 then h else OneAt(k - 1);
    forall i | 0 <= i < 32 ensures left[i] == right[i] {
    }
  }

  lemma OneZeroMore(h: Word32, r: Word32, k: nat)
    ensures RRun(h, r, Zeros(k + 1)) == RRun(h, RStep(h, r, false), Zeros(k))
  {
    assert Zeros(k + 1)[1..] == Zeros(k);
  }

  /** A one bit falling out of the register after k shifts leaves the polynomial. */
  lemma {:induction false} FallingBit(h: Word32, k: nat)
    requires k < 32
    ensures RRun(h, OneAt(k), Zeros(k + 1)) == h
    decreases k
  {
    hide RStep, OneAt;
    OneZeroMore(h, OneAt(k), k);
    OneFalls(h, k);
    if k > 0 {
      FallingBit(h, k - 1);
    }
  }

  lemma {:induction false} TopBitValue(k: nat)
    ensures ToNat(Zeros(k) + [true]) == Pow2(k)
  {
    var a := Zeros(k) + [true];
    if k > 0 {
      TopBitValue(k - 1);
      assert a[1..] == Zeros(k - 1) + [true];
    } else {
      assert a[1..] == [] && ToNat(a[1..]) == 0;
    }
  }

  lemma {:induction false} LowBitsValue(k: nat)
    ensures ToNat(Ones(k) + [false]) == Pow2(k) - 1
  {
    var a := Ones(k) + [false];
    if k > 0 {
      LowBitsValue(k - 1);
      assert a[1..] == Ones(k - 1) + [false];
    } else {
      assert a[1..] == [] && ToNat(a[1..]) == 0;
    }
  }

  lemma Bits128()
    ensures ByteBits(128) == Zeros(7) + [true]
    ensures ToNat(ByteBits(128)) == 128 && FromNat(128, 32) == OneAt(7)
  {
    assert Pow2(7) == 128 && Pow2(8) == 256;
    TopBitValue(7);
    FromToNat(Zeros(7) + [true]);
    FromNatWiden(128, 8, 32);
  }

  /** The polynomial is a word of its own table. */
  lemma Entry128(h: Word32)
    ensures TableEntry(h, 128) == h
  {
    Bits128();
    hide RRun, FromNat;
    FallingBit(h, 7);
  }

  /** The byte that has word 128 looked up. */
  function TellTale(r: Word32): (x: Byte) {
    assert Pow2(8) == 256;
    ToNat(Xor(r[..8], ByteBits(128)))
  }

  lemma TellTaleShows(h: Word32, r: Word32)
    ensures RRun(h, r, BitStream([TellTale(r)])) == Xor(r[8..] + Zeros(8), h)
  {
    var mark := Xor(r[..8], ByteBits(128));
    assert BitStream([TellTale(r)]) == ByteBits(TellTale(r)) by {
      assert [TellTale(r)][1..] == [] && ByteBits(TellTale(r)) + [] == ByteBits(TellTale(r));
    }
    FromToNat(mark);
    assert Xor(r[..8], mark) == ByteBits(128);
    Bits128();
    hide RRun, FromNat, ToNat, TableEntry;
    TableStep(h, r, TellTale(r));
    Entry128(h);
  }

  lemma XorCancels(a: Word32, b: Word32, c: Word32)
    requires Xor(a, b) == Xor(a, c)
    ensures b == c
  {
    forall i | 0 <= i < 32 ensures b[i] == c[i] {
      assert Xor(a, b)[i] == (a[i] != b[i]) && Xor(a, c)[i] == (a[i] != c[i]);
    }
  }

  /** Whatever the register starts from, two polynomials give the same checksums only if they are the same. */
  lemma PolynomialCounts(first: Word32, h: Word32, r: Word32)
    ensures first == h <==> forall m: seq<Byte> :: RRun(first, r, BitStream(m)) == RRun(h, r, BitStream(m))
  {
    hide RRun, FromNat, TellTale;
    if first != h {
      TellTaleShows(first, r);
      TellTaleShows(h, r);
      if RRun(first, r, BitStream([TellTale(r)])) == RRun(h, r, BitStream([TellTale(r)])) {
        XorCancels(r[8..] + Zeros(8), first, h);
      }
    }
  }

  /** The failing input: with the default initial value the single byte 127 tells any two polynomials apart. */
  lemma ByteTellsPolynomials(first: Word32, h: Word32)
    requires first != h
    ensures ReflectedCrc(first, [127]) != ReflectedCrc(h, [127])
  {
    var r := Ones(32);
    assert TellTale(r) == 127 by {
      TellTaleOfOnes();
    }
    hide RRun, FromNat, TellTale;
    TellTaleShows(first, r);
    TellTaleShows(h, r);
    if ReflectedCrc(first, [127]) == ReflectedCrc(h, [127]) {
      var a, b := RRun(first, r, BitStream([127])), RRun(h, r, BitStream([127]));
      NotCancels(a, b);
      XorCancels(r[8..] + Zeros(8), first, h);
    }
  }

  lemma NotCancels(a: Word32, b: Word32)
    requires Not(a) == Not(b)
    ensures a == b
  {
    forall i | 0 <= i < 32 ensures a[i] == b[i] {
      assert Not(a)[i] == !a[i] && Not(b)[i] == !b[i];
    }
  }

  lemma TellTaleOfOnes()
    ensures TellTale(Ones(32)) == 127
  {
    Bits128();
    assert Xor(Ones(32)[..8], ByteBits(128)) == Ones(7) + [false];
    assert Pow2(7) == 128;
    LowBitsValue(7);
  }
}
