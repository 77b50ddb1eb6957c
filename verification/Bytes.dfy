/** Bytes as integers, and their exclusive or. */
module Bytes {

  type Byte = x: int | 0 <= x < 256

  function Pow2(n: nat): (p: nat)
    ensures p >= 1
  {
    if n == 0 then 1 else 2 * Pow2(n - 1)
  }

  // Exclusive or of the low n bits.
  function XorBits(a: nat, b: nat, n: nat): (r: nat)
    ensures r < Pow2(n)
    decreases n
  {
    if n == 0 then 0 else 2 * XorBits(a / 2, b / 2, n - 1) + (a % 2 + b % 2) % 2
  }

  lemma {:induction false} XorBitsCancel(a: nat, b: nat, n: nat)
    requires a < Pow2(n)
    ensures XorBits(XorBits(a, b, n), b, n) == a
    decreases n
  {
    if n > 0 {
      var half, bit := XorBits(a / 2, b / 2, n - 1), (a % 2 + b % 2) % 2;
      var x := XorBits(a, b, n);
      assert x == 2 * half + bit;
      assert x / 2 == half && x % 2 == bit;
      assert (bit + b % 2) % 2 == a % 2;
      XorBitsCancel(a / 2, b / 2, n - 1);
    }
  }

  // Bit j of a number, counted from the low end.
  function BitAt(w: nat, j: nat): (b: nat)
    ensures b <= 1
  {
    if j == 0 then w % 2 else BitAt(w / 2, j - 1)
  }

  lemma {:induction false} XorBitsAt(a: nat, b: nat, n: nat, j: nat)
    requires j < n
    ensures BitAt(XorBits(a, b, n), j) == if BitAt(a, j) == BitAt(b, j) then 0 else 1
    decreases n
  {
    var half, bit := XorBits(a / 2, b / 2, n - 1), (a % 2 + b % 2) % 2;
    assert (2 * half + bit) / 2 == half && (2 * half + bit) % 2 == bit;
    if j > 0 {
      XorBitsAt(a / 2, b / 2, n - 1, j - 1);
    }
  }

  // Exclusive or bit by bit.
  lemma XorAt(a: Byte, b: Byte, j: nat)
    requires j < 8
    ensures BitAt(Xor(a, b), j) == if BitAt(a, j) == BitAt(b, j) then 0 else 1
  {
    XorBitsAt(a, b, BYTE_BITS, j);
  }

  const BYTE_BITS: nat := 8

  function Xor(a: Byte, b: Byte): (r: Byte) {
    assert Pow2(BYTE_BITS) == 256 by { Pow2Eight(); }
    XorBits(a, b, BYTE_BITS)
  }

  lemma Pow2Eight()
    ensures Pow2(8) == 256
  {
    assert Pow2(4) == 16;
    assert Pow2(8) == 16 * Pow2(4);
  }

  lemma XorCancel(a: Byte, b: Byte)
    ensures Xor(Xor(a, b), b) == a
  {
    Pow2Eight();
    XorBitsCancel(a, b, BYTE_BITS);
  }

  function XorSeq(a: seq<Byte>, b: seq<Byte>): (r: seq<Byte>)
    requires |a| == |b|
    ensures |r| == |a| && forall i | 0 <= i < |a| :: r[i] == Xor(a[i], b[i])
  {
    seq(|a|, i requires 0 <= i < |a| => Xor(a[i], b[i]))
  }

  lemma XorSeqCancel(a: seq<Byte>, b: seq<Byte>)
    requires |a| == |b|
    ensures XorSeq(XorSeq(a, b), b) == a
  {
    forall i | 0 <= i < |a|
      ensures Xor(Xor(a[i], b[i]), b[i]) == a[i]
    {
      XorCancel(a[i], b[i]);
    }
  }

  // Quotient and remainder are determined by the division equation.
  lemma DivMod(x: int, d: int, q: int, r: int)
    requires d > 0 && x == d * q + r && 0 <= r < d
    ensures x / d == q && x % d == r
  {
    var k := x / d - q;
    assert d * k == r - x % d;
    if k != 0 {
      MulBig(d, k);
      assert false;
    }
  }

  lemma MulBig(d: int, k: int)
    requires d > 0 && k != 0
    ensures d * k >= d || d * k <= -d
  {
    if k > 0 {
      assert d * (k - 1) >= 0;
    } else {
      assert d * (-k - 1) >= 0;
    }
  }
}
