/** Bytes and fixed-width machine words. A word is the sequence of its bits, index 0 the least significant. */
module Words {
  type Byte = b: int | 0 <= b < 256
  type Bits = seq<bool>
  type Word32 = w: Bits | |w| == 32 witness Zeros(32)

  function Zeros(n: nat): (z: Bits)
    ensures |z| == n && forall i :: 0 <= i < n ==> !z[i]
  {
    seq(n, i => false)
  }

  function Ones(n: nat): (z: Bits)
    ensures |z| == n && forall i :: 0 <= i < n ==> z[i]
  {
    seq(n, i => true)
  }

  function Xor(a: Bits, b: Bits): (r: Bits)
    requires |a| == |b|
    ensures |r| == |a| && forall i :: 0 <= i < |a| ==> r[i] == (a[i] != b[i])
  {
    seq(|a|, i requires 0 <= i < |a| => a[i] != b[i])
  }

  function Shl(r: Word32): (s: Word32)
    ensures !s[0] && forall i :: 0 < i < 32 ==> s[i] == r[i - 1]
  {
    [false] + r[..31]
  }

  function Shr(r: Word32): (s: Word32)
    ensures !s[31] && forall i :: 0 <= i < 31 ==> s[i] == r[i + 1]
  {
    r[1..] + [false]
  }

  function Reverse(a: Bits): (r: Bits)
    ensures |r| == |a| && forall i :: 0 <= i < |a| ==> r[i] == a[|a| - 1 - i]
  {
    seq(|a|, i requires 0 <= i < |a| => a[|a| - 1 - i])
  }

  function Not(a: Bits): (r: Bits)
    ensures |r| == |a| && forall i :: 0 <= i < |a| ==> r[i] == !a[i]
  {
    seq(|a|, i requires 0 <= i < |a| => !a[i])
  }

  /** The w low bits of n. */
  function FromNat(n: nat, w: nat): (r: Bits)
    ensures |r| == w
    decreases w, n
  {
    if w == 0 then [] else [n % 2 == 1] + FromNat(n / 2, w - 1)
  }

  function Pow2(w: nat): (p: nat)
    ensures p >= 1
  {
    if w == 0 then 1 else 2 * Pow2(w - 1)
  }

  /** The number a bit sequence stands for. */
  function ToNat(a: Bits): (n: nat)
    ensures n < Pow2(|a|)
  {
    if a == [] then 0 else (if a[0] then 1 else 0) + 2 * ToNat(a[1..])
  }

  lemma {:induction false} FromToNat(a: Bits)
    ensures FromNat(ToNat(a), |a|) == a
  {
    if a != [] {
      FromToNat(a[1..]);
      assert ToNat(a) / 2 == ToNat(a[1..]);
    }
  }

  lemma {:induction false} ToFromNat(n: nat, w: nat)
    requires n < Pow2(w)
    ensures ToNat(FromNat(n, w)) == n
    decreases w
  {
    if w > 0 {
      ToFromNat(n / 2, w - 1);
      assert FromNat(n, w)[1..] == FromNat(n / 2, w - 1);
    }
  }

  /** A number that fits k bits, read in w bits, is its k bits and then zeros. */
  lemma {:induction false} FromNatWiden(n: nat, k: nat, w: nat)
    requires n < Pow2(k) && k <= w
    ensures FromNat(n, w) == FromNat(n, k) + Zeros(w - k)
    decreases w
  {
    if w == 0 {
    } else if k == 0 {
      FromNatWiden(0, 0, w - 1);
    } else {
      FromNatWiden(n / 2, k - 1, w - 1);
    }
  }

  /** The number of a word is that of its low bits and, weighted, that of its high ones. */
  lemma {:induction false} ToNatConcat(a: Bits, b: Bits)
    ensures ToNat(a + b) == ToNat(a) + Pow2(|a|) * ToNat(b)
  {
    if a == [] {
      assert a + b == b;
    } else {
      ToNatConcat(a[1..], b);
      ToNatStep(a, b);
      DoubleProduct(Pow2(|a| - 1), ToNat(b));
      hide ToNat;
    }
  }

  lemma ToNatStep(a: Bits, b: Bits)
    requires a != []
    ensures ToNat(a) == (if a[0] then 1 else 0) + 2 * ToNat(a[1..])
    ensures ToNat(a + b) == (if a[0] then 1 else 0) + 2 * ToNat(a[1..] + b)
  {
    assert (a + b)[1..] == a[1..] + b;
  }

  lemma DoubleProduct(p: nat, n: nat)
    ensures 2 * p * n == 2 * (p * n)
  {
  }

  function ByteBits(b: Byte): (r: Bits)
    ensures |r| == 8
  {
    FromNat(b, 8)
  }

  /** A message as the wire carries it: each byte least significant bit first. */
  function BitStream(m: seq<Byte>): (r: Bits)
    ensures |r| == 8 * |m|
  {
    if m == [] then [] else ByteBits(m[0]) + BitStream(m[1..])
  }

  lemma {:induction false} BitStreamConcat(a: seq<Byte>, b: seq<Byte>)
    ensures BitStream(a + b) == BitStream(a) + BitStream(b)
  {
    if a == [] {
      assert a + b == b;
    } else {
      assert (a + b)[1..] == a[1..] + b;
      calc {
        BitStream(a + b);
        ByteBits(a[0]) + BitStream(a[1..] + b);
        { BitStreamConcat(a[1..], b); }
        ByteBits(a[0]) + (BitStream(a[1..]) + BitStream(b));
        (ByteBits(a[0]) + BitStream(a[1..])) + BitStream(b);
      }
    }
  }
}
