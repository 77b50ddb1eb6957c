/** The MD5 implementation: padding into a buffer, the 64 unrolled steps on four
    working words, and the block loop, proved equal to Md5Spec. */
module Md5 {
  import opened Bytes
  import opened Md5Spec
  import opened Md5Sine

  // ----- the step macros -----

  lemma AddMod(a: nat, b: nat)
    ensures (a + b % MOD) % MOD == (a + b) % MOD
  {
    var q, r := b / MOD, b % MOD;
    var p, s := (a + r) / MOD, (a + r) % MOD;
    DivMod(a + b, MOD, p + q, s);
  }

  lemma SumMod(a: Word, f: Word, x: Word, t: Word)
    ensures (a + ((f + x) % MOD + t) % MOD) % MOD == (a + f + x + t) % MOD
  {
    AddMod(t, f + x);
    AddMod(a, f + x + t);
  }

  // Halving a multiple of 2^k leaves a multiple of 2^(k-1).
  lemma HalfMultiple(x: nat, k: nat)
    requires k > 0 && x % Pow2(k) == 0
    ensures x % 2 == 0 && (x / 2) % Pow2(k - 1) == 0
  {
    var h, q := Pow2(k - 1), x / Pow2(k);
    assert x == 2 * h * q;
    assert 2 * h * q == 2 * (h * q);
    DivMod(x, 2, h * q, 0);
    DivMod(h * q, h, q, 0);
  }

  // Or of words that share no bit is their sum.
  lemma {:induction false} OrDisjoint(x: nat, y: nat, k: nat, n: nat)
    requires x % Pow2(k) == 0 && y < Pow2(k) && x < Pow2(n) && y < Pow2(n)
    ensures Bits(Or, x, y, n) == x + y
    decreases n
  {
    if n > 0 {
      if k > 0 {
        HalfMultiple(x, k);
        OrDisjoint(x / 2, y / 2, k - 1, n - 1);
      } else {
        assert (x / 2) % Pow2(0) == 0;
        OrDisjoint(x / 2, 0, 0, n - 1);
      }
    }
  }

  lemma {:induction false} MulMono(a: nat, b: nat, c: nat)
    requires a <= b
    ensures a * c <= b * c
    decreases c
  {
    if c > 0 {
      MulMono(a, b, c - 1);
      assert a * c == a * (c - 1) + a && b * c == b * (c - 1) + b;
    }
  }

  lemma QuotientLess(x: nat, d: nat, q: nat, r: nat)
    requires d > 0 && x == q * d + r
    ensures q <= x
  {
    MulMono(1, d, q);
    assert d * q == q * d;
  }

  function ShiftRight(x: Word, d: nat): Word
    requires d > 0
  {
    QuotientLess(x, d, x / d, x % d);
    x / d
  }

  function ShiftLeft(x: Word, d: nat): Word {
    x * d % MOD
  }

  // ROTATE_LEFT as written: the two shifts put together by or.
  function ShiftOr(x: Word, s: nat): Word
    requires 0 < s < WORD_BITS
  {
    Bitwise(Or, ShiftLeft(x, Pow2(s)), ShiftRight(x, Pow2(WORD_BITS - s)))
  }

  // With x = h * q + l the left shift keeps l and the right shift h.
  lemma {:induction false} HighPartSmall(p: nat, q: nat, h: nat, l: nat, x: nat)
    requires x == h * q + l && x < p * q
    ensures h < p
  {
    if h >= p {
      MulMono(p, h, q);
      assert false;
    }
  }

  lemma {:induction false} LowPartFits(p: nat, q: nat, h: nat, l: nat)
    requires h < p && l < q
    ensures l * p + h < q * p
  {
    MulMono(l + 1, q, p);
    assert (l + 1) * p == l * p + p;
  }

  lemma Shifted(p: nat, q: nat, h: nat, l: nat)
    ensures (h * q + l) * p == (q * p) * h + l * p
  {
    assert (h * q + l) * p == h * q * p + l * p;
    assert h * q * p == h * (q * p);
    assert h * (q * p) == (q * p) * h;
  }

  lemma {:induction false} ShiftOrParts(x: Word, s: nat, p: nat, q: nat, h: nat, l: nat)
    requires 0 < s < WORD_BITS && p == Pow2(s) && q == Pow2(WORD_BITS - s) && h == x / q && l == x % q
    ensures h < p && l * p + h < MOD && ShiftLeft(x, p) == l * p && RotateLeft(x, s) == l * p + h
  {
    assert q * p == MOD by {
      Pow2Add(WORD_BITS - s, s);
      Pow2ThirtyTwo();
    }
    assert p * q == q * p;
    HighPartSmall(p, q, h, l, x);
    LowPartFits(p, q, h, l);
    Shifted(p, q, h, l);
    assert x * p == MOD * h + l * p;
    DivMod(x * p, MOD, h, l * p);
    DivMod(x * p + h, MOD, h, l * p + h);
  }

  lemma WordPow(n: nat)
    requires n == WORD_BITS
    ensures Pow2(n) == MOD
  {
    Pow2ThirtyTwo();
  }

  lemma BitwiseIs(op: BitOp, x: Word, y: Word, n: nat)
    requires n == WORD_BITS
    ensures Bitwise(op, x, y) == Bits(op, x, y, n)
  {
  }

  lemma {:induction false} ShiftOrRotates(x: Word, s: nat)
    requires 0 < s < WORD_BITS
    ensures ShiftOr(x, s) == RotateLeft(x, s)
  {
    var n, p, q := WORD_BITS, Pow2(s), Pow2(WORD_BITS - s);
    RotatesAs(n, x, s, p, q, ShiftLeft(x, p), ShiftRight(x, q));
  }

  lemma {:induction false} RotatesAs(n: nat, x: Word, s: nat, p: nat, q: nat, hi: Word, lo: Word)
    requires n == WORD_BITS && 0 < s < WORD_BITS && p == Pow2(s) && q == Pow2(WORD_BITS - s)
    requires hi == ShiftLeft(x, p) && lo == x / q
    ensures Bitwise(Or, hi, lo) == RotateLeft(x, s)
  {
    var l := x % q;
    ShiftOrParts(x, s, p, q, lo, l);
    OrOfParts(n, s, p, lo, l, hi, lo);
  }

  lemma {:induction false} OrOfParts(n: nat, s: nat, p: nat, h: nat, l: nat, hi: Word, lo: Word)
    requires n == WORD_BITS && p == Pow2(s) && h < p && hi == l * p && lo == h
    ensures Bitwise(Or, hi, lo) == l * p + h
  {
    WordPow(n);
    BitwiseIs(Or, hi, lo, n);
    Multiple(l, p);
    OrDisjoint(hi, lo, s, n);
  }

  lemma Multiple(l: nat, p: nat)
    requires p > 0
    ensures 0 <= l * p && l * p % p == 0
  {
    DivMod(l * p, p, l, 0);
  }

  function Rotated(x: Word, s: nat): (r: Word)
    ensures r == RotateLeft(x, s)
  {
    if 0 < s < WORD_BITS then
      ShiftOrRotates(x, s);
      ShiftOr(x, s)
    else x
  }

  // The value a step macro leaves in its first operand: add the mixed words,
  // the block word and the constant, rotate, and add the second operand.
  function MacroCombine(a: Word, f: Word, b: Word, x: Word, s: nat, ac: Word): (r: Word)
    ensures r == Combine(a, f, b, x, s, ac)
  {
    SumMod(a, f, x, ac);
    var sum := (a + ((f + x) % MOD + ac) % MOD) % MOD;
    (Rotated(sum, s) + b) % MOD
  }

  // The four macros F, G, H and I.
  function MacroMix(round: nat, x: Word, y: Word, z: Word): Word {
    if round == 0 then Bitwise(Or, Bitwise(And, x, y), Bitwise(And, Not(x), z))
    else if round == 1 then Bitwise(Or, Bitwise(And, x, z), Bitwise(And, y, Not(z)))
    else if round == 2 then Bitwise(ExclusiveOr, Bitwise(ExclusiveOr, x, y), z)
    else Bitwise(ExclusiveOr, y, Bitwise(Or, x, Not(z)))
  }

  lemma BitsParts(op: BitOp, x: nat, y: nat, n: nat)
    requires n > 0
    ensures Bits(op, x, y, n) / 2 == Bits(op, x / 2, y / 2, n - 1) && Bits(op, x, y, n) % 2 == Bit(op, x, y)
  {
  }

  // A number and its complement in n bits, halved.
  lemma NotParts(x: nat, x': nat, n: nat)
    requires n > 0 && x + x' == Pow2(n) - 1
    ensures x / 2 + x' / 2 == Pow2(n - 1) - 1 && x' % 2 == 1 - x % 2
  {
  }

  lemma {:induction false} MixesF(x: nat, x': nat, y: nat, z: nat, n: nat)
    requires x + x' == Pow2(n) - 1
    ensures Bits(Or, Bits(And, x, y, n), Bits(And, x', z, n), n) == MixBits(0, x, y, z, n)
    decreases n
  {
    if n > 0 {
      NotParts(x, x', n);
      BitsParts(And, x, y, n);
      BitsParts(And, x', z, n);
      MixesF(x / 2, x' / 2, y / 2, z / 2, n - 1);
    }
  }

  lemma {:induction false} MixesG(x: nat, y: nat, z: nat, z': nat, n: nat)
    requires z + z' == Pow2(n) - 1
    ensures Bits(Or, Bits(And, x, z, n), Bits(And, y, z', n), n) == MixBits(1, x, y, z, n)
    decreases n
  {
    if n > 0 {
      NotParts(z, z', n);
      BitsParts(And, x, z, n);
      BitsParts(And, y, z', n);
      MixesG(x / 2, y / 2, z / 2, z' / 2, n - 1);
    }
  }

  lemma {:induction false} MixesH(x: nat, y: nat, z: nat, n: nat)
    ensures Bits(ExclusiveOr, Bits(ExclusiveOr, x, y, n), z, n) == MixBits(2, x, y, z, n)
    decreases n
  {
    if n > 0 {
      BitsParts(ExclusiveOr, x, y, n);
      MixesH(x / 2, y / 2, z / 2, n - 1);
    }
  }

  lemma {:induction false} MixesI(x: nat, y: nat, z: nat, z': nat, n: nat)
    requires z + z' == Pow2(n) - 1
    ensures Bits(ExclusiveOr, y, Bits(Or, x, z', n), n) == MixBits(3, x, y, z, n)
    decreases n
  {
    if n > 0 {
      NotParts(z, z', n);
      BitsParts(Or, x, z', n);
      MixesI(x / 2, y / 2, z / 2, z' / 2, n - 1);
    }
  }

  lemma {:induction false} MixBitsLast(round: nat, x: nat, y: nat, z: nat, n: nat)
    requires round >= 3
    ensures MixBits(round, x, y, z, n) == MixBits(3, x, y, z, n)
    decreases n
  {
    if n > 0 {
      MixBitsLast(round, x / 2, y / 2, z / 2, n - 1);
    }
  }

  lemma {:induction false} MacroMixesF(x: Word, x': Word, y: Word, z: Word, n: nat)
    requires n == WORD_BITS && x + x' == Pow2(n) - 1
    ensures Bitwise(Or, Bitwise(And, x, y), Bitwise(And, x', z)) == MixBits(0, x, y, z, n)
  {
    BitwiseIs(And, x, y, n);
    BitwiseIs(And, x', z, n);
    BitwiseIs(Or, Bitwise(And, x, y), Bitwise(And, x', z), n);
    MixesF(x, x', y, z, n);
  }

  lemma {:induction false} MacroMixesG(x: Word, y: Word, z: Word, z': Word, n: nat)
    requires n == WORD_BITS && z + z' == Pow2(n) - 1
    ensures Bitwise(Or, Bitwise(And, x, z), Bitwise(And, y, z')) == MixBits(1, x, y, z, n)
  {
    BitwiseIs(And, x, z, n);
    BitwiseIs(And, y, z', n);
    BitwiseIs(Or, Bitwise(And, x, z), Bitwise(And, y, z'), n);
    MixesG(x, y, z, z', n);
  }

  lemma {:induction false} MacroMixesH(x: Word, y: Word, z: Word, n: nat)
    requires n == WORD_BITS
    ensures Bitwise(ExclusiveOr, Bitwise(ExclusiveOr, x, y), z) == MixBits(2, x, y, z, n)
  {
    BitwiseIs(ExclusiveOr, x, y, n);
    BitwiseIs(ExclusiveOr, Bitwise(ExclusiveOr, x, y), z, n);
    MixesH(x, y, z, n);
  }

  lemma {:induction false} MacroMixesI(x: Word, y: Word, z: Word, z': Word, n: nat)
    requires n == WORD_BITS && z + z' == Pow2(n) - 1
    ensures Bitwise(ExclusiveOr, y, Bitwise(Or, x, z')) == MixBits(3, x, y, z, n)
  {
    BitwiseIs(Or, x, z', n);
    BitwiseIs(ExclusiveOr, y, Bitwise(Or, x, z'), n);
    MixesI(x, y, z, z', n);
  }

  // And, or, complement and exclusive or put together as the standard wants.
  lemma {:induction false} MacroMixes(round: nat, x: Word, y: Word, z: Word, n: nat)
    requires n == WORD_BITS
    ensures MacroMix(round, x, y, z) == Mix(round, x, y, z)
  {
    WordPow(n);
    if round == 0 {
      MacroMixesF(x, Not(x), y, z, n);
    } else if round == 1 {
      MacroMixesG(x, y, z, Not(z), n);
    } else if round == 2 {
      MacroMixesH(x, y, z, n);
    } else {
      MacroMixesI(x, y, z, Not(z), n);
      MixBitsLast(round, x, y, z, n);
    }
  }

  // The table of constants as listed in the implementation.
  function Table(i: nat): Word {
    match i
    case 0 => 0xd76aa478
    case 1 => 0xe8c7b756
    case 2 => 0x242070db
    case 3 => 0xc1bdceee
    case 4 => 0xf57c0faf
    case 5 => 0x4787c62a
    case 6 => 0xa8304613
    case 7 => 0xfd469501
    case 8 => 0x698098d8
    case 9 => 0x8b44f7af
    case 10 => 0xffff5bb1
    case 11 => 0x895cd7be
    case 12 => 0x6b901122
    case 13 => 0xfd987193
    case 14 => 0xa679438e
    case 15 => 0x49b40821
    case 16 => 0xf61e2562
    case 17 => 0xc040b340
    case 18 => 0x265e5a51
    case 19 => 0xe9b6c7aa
    case 20 => 0xd62f105d
    case 21 => 0x02441453
    case 22 => 0xd8a1e681
    case 23 => 0xe7d3fbc8
    case 24 => 0x21e1cde6
    case 25 => 0xc33707d6
    case 26 => 0xf4d50d87
    case 27 => 0x455a14ed
    case 28 => 0xa9e3e905
    case 29 => 0xfcefa3f8
    case 30 => 0x676f02d9
    case 31 => 0x8d2a4c8a
    case 32 => 0xfffa3942
    case 33 => 0x8771f681
    case 34 => 0x6d9d6122
    case 35 => 0xfde5380c
    case 36 => 0xa4beea44
    case 37 => 0x4bdecfa9
    case 38 => 0xf6bb4b60
    case 39 => 0xbebfbc70
    case 40 => 0x289b7ec6
    case 41 => 0xeaa127fa
    case 42 => 0xd4ef3085
    case 43 => 0x04881d05
    case 44 => 0xd9d4d039
    case 45 => 0xe6db99e5
    case 46 => 0x1fa27cf8
    case 47 => 0xc4ac5665
    case 48 => 0xf4292244
    case 49 => 0x432aff97
    case 50 => 0xab9423a7
    case 51 => 0xfc93a039
    case 52 => 0x655b59c3
    case 53 => 0x8f0ccc92
    case 54 => 0xffeff47d
    case 55 => 0x85845dd1
    case 56 => 0x6fa87e4f
    case 57 => 0xfe2ce6e0
    case 58 => 0xa3014314
    case 59 => 0x4e0811a1
    case 60 => 0xf7537e82
    case 61 => 0xbd3af235
    case 62 => 0x2ad7d2bb
    case _ => 0xeb86d391
  }

  lemma TableGives0(i: nat)
    requires i < 32
    ensures Gives(Listed(i + 1), Table(i))
  {
  }

  lemma TableGives32(i: nat)
    requires 32 <= i < 64
    ensures Gives(Listed(i + 1), Table(i))
  {
  }

  lemma TableGives(i: nat)
    requires i < 64
    ensures Gives(Listed(i + 1), Table(i))
  {
    if i < 32 { TableGives0(i); } else { TableGives32(i); }
  }

  lemma SineGives(a: Angle, b: Angle, t: Word)
    requires a == b && Gives(b, t)
    ensures a.Constant() == t && a.Constant() % MOD == t
  {
    GivesIsConstant(b, t);
  }

  // Every entry is the sine it should be.
  lemma {:induction false} TableIsSine(i: nat)
    requires i < 64
    ensures Table(i) == T(i)
  {
    RadiansListed(i + 1);
    TableGives(i);
    SineGives(Radians(i + 1), Listed(i + 1), Table(i));
  }

  function MacroStep(round: nat, a: Word, b: Word, c: Word, d: Word, x: Word, s: nat, ac: Word): Word {
    MacroCombine(a, MacroMix(round, b, c, d), b, x, s, ac)
  }

  const UNROLLED: Engine := Engine(MacroStep, Table)

  // ----- the rounds, for any step macro -----

  method Round1(e: Engine, x: Block, r0: Registers) returns (a: Word, b: Word, c: Word, d: Word)
    ensures Registers(a, b, c, d) == Round(e, x, r0, 0)
  {
    a, b, c, d := r0.a, r0.b, r0.c, r0.d;
    a := e.step(0, a, b, c, d, x[0], 7, e.table(0));
    d := e.step(0, d, a, b, c, x[1], 12, e.table(1));
    c := e.step(0, c, d, a, b, x[2], 17, e.table(2));
    b := e.step(0, b, c, d, a, x[3], 22, e.table(3));
    a := e.step(0, a, b, c, d, x[4], 7, e.table(4));
    d := e.step(0, d, a, b, c, x[5], 12, e.table(5));
    c := e.step(0, c, d, a, b, x[6], 17, e.table(6));
    b := e.step(0, b, c, d, a, x[7], 22, e.table(7));
    a := e.step(0, a, b, c, d, x[8], 7, e.table(8));
    d := e.step(0, d, a, b, c, x[9], 12, e.table(9));
    c := e.step(0, c, d, a, b, x[10], 17, e.table(10));
    b := e.step(0, b, c, d, a, x[11], 22, e.table(11));
    a := e.step(0, a, b, c, d, x[12], 7, e.table(12));
    d := e.step(0, d, a, b, c, x[13], 12, e.table(13));
    c := e.step(0, c, d, a, b, x[14], 17, e.table(14));
    b := e.step(0, b, c, d, a, x[15], 22, e.table(15));
  }

  method Round2(e: Engine, x: Block, r0: Registers) returns (a: Word, b: Word, c: Word, d: Word)
    ensures Registers(a, b, c, d) == Round(e, x, r0, 16)
  {
    a, b, c, d := r0.a, r0.b, r0.c, r0.d;
    a := e.step(1, a, b, c, d, x[1], 5, e.table(16));
    d := e.step(1, d, a, b, c, x[6], 9, e.table(17));
    c := e.step(1, c, d, a, b, x[11], 14, e.table(18));
    b := e.step(1, b, c, d, a, x[0], 20, e.table(19));
    a := e.step(1, a, b, c, d, x[5], 5, e.table(20));
    d := e.step(1, d, a, b, c, x[10], 9, e.table(21));
    c := e.step(1, c, d, a, b, x[15], 14, e.table(22));
    b := e.step(1, b, c, d, a, x[4], 20, e.table(23));
    a := e.step(1, a, b, c, d, x[9], 5, e.table(24));
    d := e.step(1, d, a, b, c, x[14], 9, e.table(25));
    c := e.step(1, c, d, a, b, x[3], 14, e.table(26));
    b := e.step(1, b, c, d, a, x[8], 20, e.table(27));
    a := e.step(1, a, b, c, d, x[13], 5, e.table(28));
    d := e.step(1, d, a, b, c, x[2], 9, e.table(29));
    c := e.step(1, c, d, a, b, x[7], 14, e.table(30));
    b := e.step(1, b, c, d, a, x[12], 20, e.table(31));
  }

  method Round3(e: Engine, x: Block, r0: Registers) returns (a: Word, b: Word, c: Word, d: Word)
    ensures Registers(a, b, c, d) == Round(e, x, r0, 32)
  {
    a, b, c, d := r0.a, r0.b, r0.c, r0.d;
    a := e.step(2, a, b, c, d, x[5], 4, e.table(32));
    d := e.step(2, d, a, b, c, x[8], 11, e.table(33));
    c := e.step(2, c, d, a, b, x[11], 16, e.table(34));
    b := e.step(2, b, c, d, a, x[14], 23, e.table(35));
    a := e.step(2, a, b, c, d, x[1], 4, e.table(36));
    d := e.step(2, d, a, b, c, x[4], 11, e.table(37));
    c := e.step(2, c, d, a, b, x[7], 16, e.table(38));
    b := e.step(2, b, c, d, a, x[10], 23, e.table(39));
    a := e.step(2, a, b, c, d, x[13], 4, e.table(40));
    d := e.step(2, d, a, b, c, x[0], 11, e.table(41));
    c := e.step(2, c, d, a, b, x[3], 16, e.table(42));
    b := e.step(2, b, c, d, a, x[6], 23, e.table(43));
    a := e.step(2, a, b, c, d, x[9], 4, e.table(44));
    d := e.step(2, d, a, b, c, x[12], 11, e.table(45));
    c := e.step(2, c, d, a, b, x[15], 16, e.table(46));
    b := e.step(2, b, c, d, a, x[2], 23, e.table(47));
  }

  method Round4(e: Engine, x: Block, r0: Registers) returns (a: Word, b: Word, c: Word, d: Word)
    ensures Registers(a, b, c, d) == Round(e, x, r0, 48)
  {
    a, b, c, d := r0.a, r0.b, r0.c, r0.d;
    a := e.step(3, a, b, c, d, x[0], 6, e.table(48));
    d := e.step(3, d, a, b, c, x[7], 10, e.table(49));
    c := e.step(3, c, d, a, b, x[14], 15, e.table(50));
    b := e.step(3, b, c, d, a, x[5], 21, e.table(51));
    a := e.step(3, a, b, c, d, x[12], 6, e.table(52));
    d := e.step(3, d, a, b, c, x[3], 10, e.table(53));
    c := e.step(3, c, d, a, b, x[10], 15, e.table(54));
    b := e.step(3, b, c, d, a, x[1], 21, e.table(55));
    a := e.step(3, a, b, c, d, x[8], 6, e.table(56));
    d := e.step(3, d, a, b, c, x[15], 10, e.table(57));
    c := e.step(3, c, d, a, b, x[6], 15, e.table(58));
    b := e.step(3, b, c, d, a, x[13], 21, e.table(59));
    a := e.step(3, a, b, c, d, x[4], 6, e.table(60));
    d := e.step(3, d, a, b, c, x[11], 10, e.table(61));
    c := e.step(3, c, d, a, b, x[2], 15, e.table(62));
    b := e.step(3, b, c, d, a, x[9], 21, e.table(63));
  }

  // Chained over any numbering that starts at zero.
  lemma {:induction false} RoundsAreSteps(e: Engine, x: Block, r: Registers, n: nat, n1: nat, n2: nat, n3: nat, n4: nat)
    requires n == 0 && n1 == n + 16 && n2 == n1 + 16 && n3 == n2 + 16 && n4 == n3 + 16
    ensures Round(e, x, Round(e, x, Round(e, x, Round(e, x, r, n), n1), n2), n3) == Steps(e, x, r, n4)
  {
    StepsByRound(e, x, r, n);
    StepsByRound(e, x, r, n1);
    StepsByRound(e, x, r, n2);
    StepsByRound(e, x, r, n3);
  }

  method AllRounds(e: Engine, x: Block, r0: Registers) returns (r: Registers)
    ensures r == Steps(e, x, r0, STEPS)
  {
    var a, b, c, d := Round1(e, x, r0);
    a, b, c, d := Round2(e, x, Registers(a, b, c, d));
    a, b, c, d := Round3(e, x, Registers(a, b, c, d));
    a, b, c, d := Round4(e, x, Registers(a, b, c, d));
    r := Registers(a, b, c, d);
    RoundsAreSteps(e, x, r0, 0, 16, 32, 48, STEPS);
  }

  method DoTheRounds(e: Engine, work: array<Word>, state: array<Word>)
    requires work.Length == 16 && state.Length == 4
    modifies state
    ensures Value(state) == DigestBlock(e, work[..], old(Value(state)))
  {
    var r := AllRounds(e, work[..], Value(state));
    AddInto(state, r);
  }

  method AddInto(state: array<Word>, r: Registers)
    requires state.Length == 4
    modifies state
    ensures Value(state) == AddRegisters(old(Value(state)), r)
  {
    state[0] := (state[0] + r.a) % MOD;
    state[1] := (state[1] + r.b) % MOD;
    state[2] := (state[2] + r.c) % MOD;
    state[3] := (state[3] + r.d) % MOD;
  }

  function Value(state: array<Word>): Registers
    reads state
    requires state.Length == 4
  {
    Registers(state[0], state[1], state[2], state[3])
  }

  // ----- padding -----

  function Pow256(k: nat): (p: nat)
    ensures p > 0
  {
    if k == 0 then 1 else 256 * Pow256(k - 1)
  }

  // With n = 256 * p * q + r: its low byte, and the rest modulo p.
  lemma LowByteParts(n: nat, p: nat, q: nat, r: nat)
    requires p > 0 && n == 256 * (p * q) + r && r < 256 * p
    ensures n % 256 == r % 256 && n / 256 == p * q + r / 256 && (n / 256) % p == r / 256
  {
    DivMod(n, 256, p * q + r / 256, r % 256);
    DivMod(n / 256, p, q, r / 256);
  }

  lemma Quotient(n: nat, d: nat, p: nat) returns (q: nat, r: nat)
    requires p > 0 && d == 256 * p
    ensures n == 256 * (p * q) + r && r < 256 * p && n % d == r
  {
    var a := n / 256;
    Division(a, p);
    q, r := a / p, 256 * (a % p) + n % 256;
    MulAssoc(p, q);
    DivMod(n, d, q, r);
  }

  lemma Division(n: nat, d: nat)
    requires d > 0
    ensures n == d * (n / d) + n % d && n % d < d
  {
  }

  lemma MulAssoc(p: nat, q: nat)
    ensures (256 * p) * q == 256 * (p * q)
  {
  }

  // The low k bytes depend on the number modulo 256^k only.
  lemma {:induction false} LowBytes(n: nat, k: nat)
    ensures LittleEndian(n % Pow256(k), k) == LittleEndian(n, k)
    decreases k
  {
    if k > 0 {
      var p, d := Pow256(k - 1), Pow256(k);
      var q, r := Quotient(n, d, p);
      LowByteParts(n, p, q, r);
      LowBytes(n / 256, k - 1);
      SameLow(n, r, p, k);
    }
  }

  lemma SameLow(n: nat, r: nat, p: nat, k: nat)
    requires k > 0 && p > 0 && n % 256 == r % 256 && (n / 256) % p == r / 256
    requires LittleEndian((n / 256) % p, k - 1) == LittleEndian(n / 256, k - 1)
    ensures LittleEndian(r, k) == LittleEndian(n, k)
  {
  }

  function DropBytes(n: nat, k: nat): nat {
    if k == 0 then n else DropBytes(n / 256, k - 1)
  }

  lemma {:induction false} SplitBytes(n: nat, j: nat, k: nat)
    ensures LittleEndian(n, j + k) == LittleEndian(n, j) + LittleEndian(DropBytes(n, j), k)
    decreases j
  {
    if j > 0 {
      SplitBytes(n / 256, j - 1, k);
    }
  }

  lemma {:induction false} DropWord(n: nat)
    ensures DropBytes(n, WORD_BYTES) == n / MOD && Pow256(WORD_BYTES) == MOD
  {
    var k := WORD_BYTES;
    assert DropBytes(n, k) == DropBytes(n / 256, k - 1) == DropBytes(n / 256 / 256, k - 2);
    assert DropBytes(n / 256 / 256, k - 2) == DropBytes(n / 256 / 256 / 256, k - 3) == n / 256 / 256 / 256 / 256;
    assert n / 256 / 256 == n / 0x1_0000 && n / 0x1_0000 / 256 == n / 0x100_0000 && n / 0x100_0000 / 256 == n / MOD;
    assert Pow256(4) == MOD;
  }

  // The bit count written as two 32-bit halves.
  lemma {:induction false} BitCount(len: nat)
    requires len < MOD
    ensures LittleEndian(8 * len, LENGTH_BYTES)
         == LittleEndian(8 * len % MOD, WORD_BYTES) + LittleEndian(len / 0x2000_0000, WORD_BYTES)
  {
    DropWord(8 * len);
    SplitBytes(8 * len, WORD_BYTES, WORD_BYTES);
    LowBytes(8 * len, WORD_BYTES);
    DivMod(8 * len, MOD, len / 0x2000_0000, 8 * (len % 0x2000_0000));
  }

  // Four bytes of a word, least significant first.
  method PutWord(ret: array<Byte>, q: nat, w: Word)
    requires q + 4 <= ret.Length
    modifies ret
    ensures ret[..] == old(ret[..q]) + LittleEndian(w, WORD_BYTES) + old(ret[q + 4..])
  {
    var n := w;
    ret[q] := n % 256;
    n := n / 256;
    ret[q + 1] := n % 256;
    n := n / 256;
    ret[q + 2] := n % 256;
    n := n / 256;
    ret[q + 3] := n % 256;
    assert LittleEndian(w, WORD_BYTES) == LittleEndian(w, 4) == [ret[q], ret[q + 1], ret[q + 2], ret[q + 3]];
  }

  // The message, the bit 1, and zeros; the last eight bytes are left as zeros.
  method CopyAndPad(b: seq<Byte>, newLen448: nat) returns (ret: array<Byte>)
    requires |b| < newLen448
    ensures fresh(ret) && ret[..] == b + [0x80] + Zeros(newLen448 - |b| - 1 + 8)
  {
    ret := new Byte[newLen448 + 8](_ => 0);
    for i := 0 to |b|
      invariant forall j | 0 <= j < i :: ret[j] == b[j]
      invariant forall j | i <= j < ret.Length :: ret[j] == 0
    {
      ret[i] := b[i];
    }
    ret[|b|] := 0x80;
    for q := |b| + 1 to newLen448
      invariant forall j | 0 <= j < |b| :: ret[j] == b[j]
      invariant ret[|b|] == 0x80
      invariant forall j | |b| < j < ret.Length :: ret[j] == 0
    {
      ret[q] := 0x00;
    }
  }

  // The lengths are unsigned 32-bit numbers; `Fits` keeps them from wrapping.
  predicate Fits(len: nat) {
    len + 1 + ZeroCount(len) + 8 + 64 < MOD
  }

  method CreatePaddedCopyWithLength(b: seq<Byte>) returns (ret: array<Byte>)
    requires Fits(|b|)
    ensures fresh(ret) && ret[..] == Pad(b)
  {
    var newLen448 := PaddedLength(|b|);
    ret := CopyAndPad(b, newLen448);
    AppendLength(ret, |b|, newLen448);
    BitCount(|b|);
    ghost var z := ZeroCount(|b|);
    assert (b + [0x80] + Zeros(z + 8))[..newLen448] == b + [0x80] + Zeros(z);
  }

  // Length up to the bit count.
  method PaddedLength(len: nat) returns (newLen448: nat)
    ensures newLen448 == len + 1 + ZeroCount(len)
  {
    newLen448 := len + 64 - len % 64 - 8;
    if newLen448 <= len {
      newLen448 := newLen448 + 64;
    }
  }

  method AppendLength(ret: array<Byte>, len: nat, q: nat)
    requires ret.Length == q + 8 && len < MOD
    modifies ret
    ensures ret[..] == old(ret[..])[..q] + (LittleEndian(8 * len % MOD, WORD_BYTES) + LittleEndian(len / 0x2000_0000, WORD_BYTES))
  {
    PutWord(ret, q, 8 * len % MOD);
    PutWord(ret, q + 4, len / 0x2000_0000);
  }

  // ----- the block loop -----

  // Little-endian decoding of one block into the work buffer.
  method DecodeBlock(input: array<Byte>, i: nat, work: array<Word>, ghost n: nat)
    requires i == 64 * n && i + 64 <= input.Length && work.Length == 16
    modifies work
    ensures work[..] == BlockOf(input[..], n)
  {
    var k := i + 3;
    for j := 0 to 16
      invariant k == i + 4 * j + 3
      invariant forall l | 0 <= l < j :: work[l] == BlockOf(input[..], n)[l]
    {
      var w: int := input[k];
      w := w * 256 + input[k - 1];
      w := w * 256 + input[k - 2];
      w := w * 256 + input[k - 3];
      work[j] := w;
      k := k + 4;
    }
  }

  method DigestNext(e: Engine, input: array<Byte>, i: nat, work: array<Word>, state: array<Word>, ghost p: seq<Byte>, ghost n: nat)
    requires input[..] == p && i == 64 * n && i + 64 <= |p| && work.Length == 16
    requires state.Length == 4 && work != state && Value(state) == DigestBlocks(e, p, n)
    modifies work, state
    ensures Value(state) == DigestBlocks(e, p, n + 1)
  {
    DecodeBlock(input, i, work, n);
    DoTheRounds(e, work, state);
  }

  method DigestLoop(e: Engine, input: array<Byte>, state: array<Word>, ghost p: seq<Byte>, ghost total: nat)
    requires input[..] == p && |p| == 64 * total && state.Length == 4 && Value(state) == INITIAL
    modifies state
    ensures Value(state) == DigestBlocks(e, p, total)
  {
    var work := new Word[16](_ => 0);
    var i := 0;
    ghost var n := 0;
    while i + 64 <= input.Length
      invariant i == 64 * n && n <= total && input[..] == p
      invariant Value(state) == DigestBlocks(e, p, n)
    {
      DigestNext(e, input, i, work, state, p, n);
      i := i + 64;
      n := n + 1;
    }
  }

  method CalculateWith(e: Engine, b: seq<Byte>) returns (sum: array<Byte>)
    requires Fits(|b|)
    ensures sum[..] == Digest(e, b)
  {
    var state := new Word[4][0x67452301, 0xefcdab89, 0x98badcfe, 0x10325476];
    var input := CreatePaddedCopyWithLength(b);
    PadIsBlocks(b);
    DigestLoop(e, input, state, Pad(b), |Pad(b)| / 64);
    sum := WriteDigest(Value(state));
  }

  // The macros compute what the standard's step does.
  lemma {:induction false} MacrosAgree()
    ensures Agree(UNROLLED, RFC1321)
  {
    forall i: nat | i < 64
      ensures Table(i) == T(i)
    {
      TableIsSine(i);
    }
    forall round, a, b, c, d, w, s, t
      ensures MacroStep(round, a, b, c, d, w, s, t) == StepWord(round, a, b, c, d, w, s, t)
    {
      MacroMixes(round, b, c, d, WORD_BITS);
    }
  }

  method CalculateDigestFromBuffer(b: seq<Byte>) returns (sum: array<Byte>)
    requires Fits(|b|)
    ensures sum[..] == Digest(RFC1321, b)
  {
    sum := CalculateWith(UNROLLED, b);
    MacrosAgree();
    SameBlocks(UNROLLED, RFC1321, Pad(b), |Pad(b)| / 64);
  }

  method WriteDigest(r: Registers) returns (sum: array<Byte>)
    ensures fresh(sum) && sum[..] == Output(r)
  {
    sum := new Byte[16](_ => 0);
    PutWord(sum, 0, r.a);
    PutWord(sum, 4, r.b);
    PutWord(sum, 8, r.c);
    PutWord(sum, 12, r.d);
  }
}
