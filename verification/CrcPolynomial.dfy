/** The CRC register as the remainder of a polynomial division over GF(2). Index i is the coefficient of x^i. */
module CrcPolynomial {
  import opened Words
  import opened CrcRegister

  type Poly = seq<bool>

  predicate At(p: Poly, i: int) {
    0 <= i < |p| && p[i]
  }

  function Add(p: Poly, q: Poly): (r: Poly)
    ensures forall i :: At(r, i) == (At(p, i) != At(q, i))
  {
    seq(if |p| < |q| then |q| else |p|, i => At(p, i) != At(q, i))
  }

  function Mul(p: Poly, q: Poly): (r: Poly) {
    if p == [] then [] else Add(if p[0] then q else [], [false] + Mul(p[1..], q))
  }

  /** x^32 plus the generator's lower coefficients. */
  function Generator(g: Word32): (p: Poly) {
    g + [true]
  }

  /** The all-ones preset in front of the message, the message's first bit highest, times x^32. */
  function Dividend(bits: Bits): (p: Poly)
    ensures forall i :: At(p, i) == (At(Reverse(bits), i - 32) != (|bits| <= i < |bits| + 32))
  {
    seq(|bits| + 32, i => At(Reverse(bits), i - 32) != (|bits| <= i < |bits| + 32))
  }

  /** d == q * g + r, coefficient by coefficient. */
  ghost predicate Divides(d: Poly, q: Poly, g: Poly, r: Poly) {
    forall i :: At(d, i) == (At(Mul(q, g), i) != At(r, i))
  }

  function Quotient(g: Word32, bits: Bits): (q: Poly)
  {
    if bits == [] then []
    else
      var init, last := bits[..|bits| - 1], bits[|bits| - 1];
      [Run(g, Ones(32), init)[31] != last] + Quotient(g, init)
  }

  lemma MulCons(c: bool, p: Poly, q: Poly, i: int)
    ensures At(Mul([c] + p, q), i) == ((c && At(q, i)) != At(Mul(p, q), i - 1))
  {
    assert ([c] + p)[1..] == p;
    assert At([false] + Mul(p, q), i) == At(Mul(p, q), i - 1);
  }

  lemma RunLast(g: Word32, bits: Bits)
    requires bits != []
    ensures Run(g, Ones(32), bits) == Step(g, Run(g, Ones(32), bits[..|bits| - 1]), bits[|bits| - 1])
  {
    var init, last := bits[..|bits| - 1], bits[|bits| - 1];
    assert bits == init + [last];
    RunConcat(g, Ones(32), init, [last]);
    var r := Run(g, Ones(32), init);
    assert Run(g, r, [last]) == Run(g, Step(g, r, last), []);
  }

  lemma DividendLast(bits: Bits, i: int)
    requires bits != []
    ensures At(Dividend(bits), i) == (At(Dividend(bits[..|bits| - 1]), i - 1) != (i == 32 && bits[|bits| - 1]))
  {
    var init := bits[..|bits| - 1];
    assert i != 32 ==> At(Reverse(bits), i - 32) == At(Reverse(init), i - 33);
  }

  lemma StepCoefficient(g: Word32, r: Word32, b: bool, i: int)
    ensures At(Step(g, r, b), i)
            == (((At(r, i - 1) != (i == 32 && b))) != ((r[31] != b) && At(Generator(g), i)))
  {
  }

  /** The register after the whole message is the remainder of the division of its dividend by the generator. */
  lemma {:induction false} RunIsRemainder(g: Word32, bits: Bits)
    ensures Divides(Dividend(bits), Quotient(g, bits), Generator(g), Run(g, Ones(32), bits))
  {
    if bits == [] {
      assert forall i :: At(Dividend(bits), i) == At(Ones(32), i);
    } else {
      var init, last := bits[..|bits| - 1], bits[|bits| - 1];
      RunIsRemainder(g, init);
      RunLast(g, bits);
      var r, q := Run(g, Ones(32), init), Quotient(g, init);
      forall i ensures At(Dividend(bits), i) == (At(Mul(Quotient(g, bits), Generator(g)), i) != At(Run(g, Ones(32), bits), i)) {
        DividendLast(bits, i);
        MulCons(r[31] != last, q, Generator(g), i);
        StepCoefficient(g, r, last, i);
        assert At(Dividend(init), i - 1) == (At(Mul(q, Generator(g)), i - 1) != At(r, i - 1));
      }
    }
  }

  lemma {:induction false} MulZero(q: Poly, g: Poly, i: int)
    requires forall k :: !At(q, k)
    ensures !At(Mul(q, g), i)
  {
    if q != [] {
      MulHead(q, g, i);
      MulZero(Tail(q), g, i - 1);
    }
  }

  /** A nonzero multiple of the generator has a coefficient at degree 32 or above. */
  lemma {:induction false} MultipleIsLong(q: Poly, g: Word32, k: int) returns (i: int)
    requires At(q, k)
    ensures i >= 32 && At(Mul(q, Generator(g)), i)
  {
    if j :| At(Tail(q), j) {
      var t := MultipleIsLong(Tail(q), g, j);
      i := t + 1;
    } else {
      assert k > 0 ==> At(Tail(q), k - 1);
      i := 32;
      MulZero(Tail(q), Generator(g), 31);
    }
    MulHead(q, Generator(g), i);
  }

  function Tail(p: Poly): (t: Poly)
    ensures forall i :: At(t, i) == (i >= 0 && At(p, i + 1))
  {
    if p == [] then [] else p[1..]
  }

  lemma {:induction false} MulDistributes(p: Poly, q: Poly, g: Poly, i: int)
    ensures At(Mul(Add(p, q), g), i) == (At(Mul(p, g), i) != At(Mul(q, g), i))
    decreases |p| + |q|
  {
    if p == [] && q == [] {
      assert Add(p, q) == [];
    } else {
      AddTail(p, q);
      MulHead(Add(p, q), g, i);
      MulHead(p, g, i);
      MulHead(q, g, i);
      MulDistributes(Tail(p), Tail(q), g, i - 1);
    }
  }

  lemma AddTail(p: Poly, q: Poly)
    ensures Tail(Add(p, q)) == Add(Tail(p), Tail(q))
  {
    var left, right := Tail(Add(p, q)), Add(Tail(p), Tail(q));
    assert |left| == |right|;
    forall i | 0 <= i < |left| ensures left[i] == right[i] {
      assert At(left, i) == At(right, i);
    }
  }

  lemma MulHead(p: Poly, g: Poly, i: int)
    ensures At(Mul(p, g), i) == ((At(p, 0) && At(g, i)) != At(Mul(Tail(p), g), i - 1))
  {
    if p != [] {
      assert p == [p[0]] + p[1..];
      MulCons(p[0], p[1..], g, i);
    }
  }

  /** Dividing by the generator leaves one remainder only. */
  lemma RemainderUnique(d: Poly, g: Word32, q: Poly, r: Word32, q': Poly, r': Word32)
    requires Divides(d, q, Generator(g), r) && Divides(d, q', Generator(g), r')
    ensures r == r'
  {
    var s := Add(q, q');
    if k :| At(s, k) {
      var i := MultipleIsLong(s, g, k);
      MulDistributes(q, q', Generator(g), i);
      assert false;
    } else {
      forall i | 0 <= i < 32 ensures r[i] == r'[i] {
        MulZero(s, Generator(g), i);
        MulDistributes(q, q', Generator(g), i);
        assert At(d, i) == (At(Mul(q, Generator(g)), i) != At(r, i));
        assert At(d, i) == (At(Mul(q', Generator(g)), i) != At(r', i));
      }
    }
  }

  ghost predicate IsRemainder(g: Word32, bits: Bits, r: Word32) {
    exists q :: Divides(Dividend(bits), q, Generator(g), r)
  }

  lemma OnlyRemainder(g: Word32, bits: Bits, q: Poly, r: Word32)
    requires Divides(Dividend(bits), q, Generator(g), r)
    ensures r == Run(g, Ones(32), bits)
  {
    RunIsRemainder(g, bits);
    RemainderUnique(Dividend(bits), g, q, r, Quotient(g, bits), Run(g, Ones(32), bits));
  }

  /** The CRC is exactly the remainder: a word is the CRC if and only if some division leaves it. */
  lemma CrcIsTheRemainder(g: Word32, m: seq<Byte>, r: Word32)
    ensures r == Crc(g, m) <==> IsRemainder(g, BitStream(m), r)
  {
    if IsRemainder(g, BitStream(m), r) {
      var q :| Divides(Dividend(BitStream(m)), q, Generator(g), r);
      OnlyRemainder(g, BitStream(m), q, r);
    }
    RunIsRemainder(g, BitStream(m));
  }
}
