/** The MD5 message digest as sections 3.1 to 3.5 of RFC 1321 define it: minimal
    padding, a 64-bit bit count, and four rounds of sixteen table-driven steps.
    Words are integers below 2^32. */
module Md5Spec {
  import opened Bytes
  import opened Md5Sine

  const MOD: int := 0x1_0000_0000

  type Word = x: int | 0 <= x < 0x1_0000_0000

  // ----- words -----

  const WORD_BITS: nat := 32

  datatype BitOp = And | Or | ExclusiveOr

  function Bit(op: BitOp, x: nat, y: nat): (r: nat)
    ensures r <= 1
  {
    var (i, j) := (x % 2, y % 2);
    match op
    case And => if i == 1 && j == 1 then 1 else 0
    case Or => if i == 0 && j == 0 then 0 else 1
    case ExclusiveOr => if i == j then 0 else 1
  }

  // The low n bits combined one by one.
  function Bits(op: BitOp, x: nat, y: nat, n: nat): (r: nat)
    ensures r < Pow2(n)
    decreases n
  {
    if n == 0 then 0 else 2 * Bits(op, x / 2, y / 2, n - 1) + Bit(op, x, y)
  }

  function Bitwise(op: BitOp, x: Word, y: Word): Word {
    assert Pow2(WORD_BITS) == MOD by { Pow2ThirtyTwo(); }
    Bits(op, x, y, WORD_BITS)
  }

  lemma Pow2ThirtyTwo()
    ensures Pow2(32) == MOD
  {
    Pow2Eight();
    Pow2Add(8, 8);
    Pow2Add(16, 16);
  }

  lemma {:induction false} Pow2Add(m: nat, n: nat)
    ensures Pow2(m + n) == Pow2(m) * Pow2(n)
  {
    if m > 0 {
      Pow2Add(m - 1, n);
    }
  }

  function Not(x: Word): Word {
    MOD - 1 - x
  }

  // Rotation: the high s bits become the low ones.
  function RotateLeft(x: Word, s: nat): Word {
    if 0 < s < WORD_BITS then (x * Pow2(s) + x / Pow2(WORD_BITS - s)) % MOD else x
  }

  // The auxiliary functions F, G, H and I on single bits, one for each round: x
  // chooses between y and z, z chooses between x and y, the parity of all
  // three, and y against "x or not z".
  function MixBit(round: nat, x: nat, y: nat, z: nat): (r: nat)
    requires x <= 1 && y <= 1 && z <= 1
    ensures r <= 1
  {
    if round == 0 then (if x == 1 then y else z)
    else if round == 1 then (if z == 1 then x else y)
    else if round == 2 then (x + y + z) % 2
    else if y == (if x == 1 || z == 0 then 1 else 0) then 0 else 1
  }

  function MixBits(round: nat, x: nat, y: nat, z: nat, n: nat): (r: nat)
    ensures r < Pow2(n)
    decreases n
  {
    if n == 0 then 0 else 2 * MixBits(round, x / 2, y / 2, z / 2, n - 1) + MixBit(round, x % 2, y % 2, z % 2)
  }

  function Mix(round: nat, x: Word, y: Word, z: Word): Word {
    assert Pow2(WORD_BITS) == MOD by { Pow2ThirtyTwo(); }
    MixBits(round, x, y, z, WORD_BITS)
  }

  lemma {:induction false} MixBitsAt(round: nat, x: nat, y: nat, z: nat, n: nat, j: nat)
    requires j < n
    ensures BitAt(MixBits(round, x, y, z, n), j) == MixBit(round, BitAt(x, j), BitAt(y, j), BitAt(z, j))
    decreases n
  {
    var half, bit := MixBits(round, x / 2, y / 2, z / 2, n - 1), MixBit(round, x % 2, y % 2, z % 2);
    assert (2 * half + bit) / 2 == half && (2 * half + bit) % 2 == bit;
    if j > 0 {
      MixBitsAt(round, x / 2, y / 2, z / 2, n - 1, j - 1);
    }
  }

  lemma {:induction false} MixRoundAt(round: nat, x: Word, y: Word, z: Word, j: nat)
    requires j < WORD_BITS
    ensures BitAt(Mix(round, x, y, z), j) == MixBit(round, BitAt(x, j), BitAt(y, j), BitAt(z, j))
  {
    MixBitsAt(round, x, y, z, WORD_BITS, j);
  }

  // Every bit of the four functions, written out.
  lemma {:induction false} MixAt(round: nat, x: Word, y: Word, z: Word, j: nat)
    requires j < WORD_BITS
    ensures var (r, p, q, s) := (BitAt(Mix(round, x, y, z), j), BitAt(x, j), BitAt(y, j), BitAt(z, j));
            && (round == 0 ==> r == if p == 1 then q else s)
            && (round == 1 ==> r == if s == 1 then p else q)
            && (round == 2 ==> r == (p + q + s) % 2)
            && (round == 3 ==> (r == 1 <==> (q == 1) != (p == 1 || s == 0)))
  {
    MixRoundAt(round, x, y, z, j);
  }

  // ----- the 64 steps -----

  // The integer part of 2^32 times the absolute value of the sine of i + 1.
  function T(i: nat): Word {
    Radians(i + 1).Constant() % MOD
  }

  // Which word of the block step i uses.
  function K(i: nat): (k: nat)
    ensures k < 16
  {
    if i < 16 then i % 16 else if i < 32 then (1 + 5 * i) % 16 else if i < 48 then (5 + 3 * i) % 16 else 7 * i % 16
  }

  // By how much step i rotates.
  function S(i: nat): (s: nat)
    ensures 0 < s < 32
  {
    var j := i % 4;
    if i < 16 then (if j == 0 then 7 else if j == 1 then 12 else if j == 2 then 17 else 22)
    else if i < 32 then (if j == 0 then 5 else if j == 1 then 9 else if j == 2 then 14 else 20)
    else if i < 48 then (if j == 0 then 4 else if j == 1 then 11 else if j == 2 then 16 else 23)
    else (if j == 0 then 6 else if j == 1 then 10 else if j == 2 then 15 else 21)
  }

  datatype Registers = Registers(a: Word, b: Word, c: Word, d: Word)

  type Block = x: seq<Word> | |x| == 16 witness seq(16, i => 0)

  // b + ((a + f + x + t) <<< s), all modulo 2^32.
  function Combine(a: Word, f: Word, b: Word, x: Word, s: nat, t: Word): Word {
    (b + RotateLeft((a + f + x + t) % MOD, s)) % MOD
  }

  function StepWord(round: nat, a: Word, b: Word, c: Word, d: Word, x: Word, s: nat, t: Word): Word {
    Combine(a, Mix(round, b, c, d), b, x, s, t)
  }

  // How one working word is recomputed, and the table of constants; the order
  // of the steps does not depend on either.
  datatype Engine = Engine(step: (nat, Word, Word, Word, Word, Word, nat, Word) -> Word, table: nat -> Word)

  const RFC1321: Engine := Engine(StepWord, T)

  function Step(e: Engine, x: Block, r: Registers, i: nat): Registers
    requires i < 64
  {
    Registers(r.d, e.step(i / 16, r.a, r.b, r.c, r.d, x[K(i)], S(i), e.table(i)), r.b, r.c)
  }

  // The state after the first n steps.
  function Steps(e: Engine, x: Block, r: Registers, n: nat): Registers
    requires n <= 64
  {
    if n == 0 then r else Step(e, x, Steps(e, x, r, n - 1), n - 1)
  }

  // Sixteen steps from step n on, as one expression in groups of four.
  function Four(e: Engine, x: Block, r: Registers, n: nat): Registers
    requires n + 4 <= 64
  {
    Step(e, x, Step(e, x, Step(e, x, Step(e, x, r, n), n + 1), n + 2), n + 3)
  }

  function Round(e: Engine, x: Block, r: Registers, n: nat): Registers
    requires n + 16 <= 64
  {
    Four(e, x, Four(e, x, Four(e, x, Four(e, x, r, n), n + 4), n + 8), n + 12)
  }

  lemma {:induction false} StepsByFour(e: Engine, x: Block, r: Registers, n: nat)
    requires n + 4 <= 64
    ensures Steps(e, x, r, n + 4) == Four(e, x, Steps(e, x, r, n), n)
  {
    assert Steps(e, x, r, n + 1) == Step(e, x, Steps(e, x, r, n), n);
    assert Steps(e, x, r, n + 2) == Step(e, x, Steps(e, x, r, n + 1), n + 1);
    assert Steps(e, x, r, n + 3) == Step(e, x, Steps(e, x, r, n + 2), n + 2);
  }

  lemma {:induction false} StepsByRound(e: Engine, x: Block, r: Registers, n: nat)
    requires n + 16 <= 64
    ensures Steps(e, x, r, n + 16) == Round(e, x, Steps(e, x, r, n), n)
  {
    StepsByFour(e, x, r, n);
    StepsByFour(e, x, r, n + 4);
    StepsByFour(e, x, r, n + 8);
    StepsByFour(e, x, r, n + 12);
  }

  function AddRegisters(p: Registers, q: Registers): Registers {
    Registers((p.a + q.a) % MOD, (p.b + q.b) % MOD, (p.c + q.c) % MOD, (p.d + q.d) % MOD)
  }

  const STEPS: nat := 64

  function DigestBlock(e: Engine, x: Block, r: Registers): Registers {
    AddRegisters(r, Steps(e, x, r, STEPS))
  }

  // ----- bytes -----

  const WORD_BYTES: nat := 4
  const LENGTH_BYTES: nat := 8

  // The low k bytes of n, least significant first.
  function LittleEndian(n: nat, k: nat): (r: seq<Byte>)
    ensures |r| == k
    decreases k
  {
    if k == 0 then [] else [n % 256] + LittleEndian(n / 256, k - 1)
  }

  function WordOf(b0: Byte, b1: Byte, b2: Byte, b3: Byte): Word {
    b0 + 0x100 * b1 + 0x1_0000 * b2 + 0x100_0000 * b3
  }

  // Block number n of a padded message.
  function BlockOf(m: seq<Byte>, n: nat): Block
    requires 64 * n + 64 <= |m|
  {
    seq(16, j requires 0 <= j < 16 =>
      var o := 64 * n + 4 * j;
      WordOf(m[o], m[o + 1], m[o + 2], m[o + 3]))
  }

  // The number of zero bytes: the least that brings the length to 56 mod 64.
  function ZeroCount(len: nat): (z: nat) {
    (119 - len % 64) % 64
  }

  lemma ZeroCountIsLeast(len: nat, z: nat)
    ensures (len + 1 + ZeroCount(len)) % 64 == 56
    ensures (len + 1 + z) % 64 == 56 ==> ZeroCount(len) <= z
  {
    var q, r := len / 64, len % 64;
    assert len == 64 * q + r;
    if z < ZeroCount(len) {
      var wrap := if r + 1 + z < 64 then 0 else 1;
      assert (len + 1 + z) / 64 == q + wrap;
    }
  }

  function Zeros(n: nat): (z: seq<Byte>)
    ensures |z| == n && forall i | 0 <= i < n :: z[i] == 0
  {
    seq(n, i => 0)
  }

  function Pad(m: seq<Byte>): seq<Byte> {
    m + [0x80] + Zeros(ZeroCount(|m|)) + LittleEndian(8 * |m|, LENGTH_BYTES)
  }

  lemma PadLength(m: seq<Byte>)
    ensures |Pad(m)| == |m| + 1 + ZeroCount(|m|) + 8
  {
  }

  lemma NextBlock(n: nat)
    requires n % 64 == 56
    ensures (n + 8) % 64 == 0
  {
  }

  lemma PadIsBlocks(m: seq<Byte>)
    ensures |Pad(m)| % 64 == 0
  {
    ZeroCountIsLeast(|m|, 0);
    PadLength(m);
    NextBlock(|m| + 1 + ZeroCount(|m|));
  }

  const INITIAL: Registers := Registers(0x67452301, 0xefcdab89, 0x98badcfe, 0x10325476)

  function DigestBlocks(e: Engine, m: seq<Byte>, n: nat): Registers
    requires 64 * n <= |m|
  {
    if n == 0 then INITIAL else DigestBlock(e, BlockOf(m, n - 1), DigestBlocks(e, m, n - 1))
  }

  function Output(r: Registers): (s: seq<Byte>)
    ensures |s| == 16
  {
    LittleEndian(r.a, WORD_BYTES) + LittleEndian(r.b, WORD_BYTES) + LittleEndian(r.c, WORD_BYTES) + LittleEndian(r.d, WORD_BYTES)
  }

  // The digest of a message of any length; MD5 proper is Digest(RFC1321, m).
  function Digest(e: Engine, m: seq<Byte>): (s: seq<Byte>)
    ensures |s| == 16
  {
    var p := Pad(m);
    Output(DigestBlocks(e, p, |p| / 64))
  }

  ghost predicate Agree(e: Engine, e': Engine) {
    && (forall i | 0 <= i < 64 :: e.table(i) == e'.table(i))
    && forall round, a, b, c, d, w, s, t :: e.step(round, a, b, c, d, w, s, t) == e'.step(round, a, b, c, d, w, s, t)
  }

  // Engines that agree on every step give the same digests.
  lemma {:induction false} SameSteps(e: Engine, e': Engine, x: Block, r: Registers, n: nat)
    requires n <= 64 && Agree(e, e')
    ensures Steps(e, x, r, n) == Steps(e', x, r, n)
  {
    if n > 0 {
      SameSteps(e, e', x, r, n - 1);
    }
  }

  lemma {:induction false} SameBlocks(e: Engine, e': Engine, m: seq<Byte>, n: nat)
    requires 64 * n <= |m| && Agree(e, e')
    ensures DigestBlocks(e, m, n) == DigestBlocks(e', m, n)
  {
    if n > 0 {
      SameBlocks(e, e', m, n - 1);
      SameBlock(e, e', BlockOf(m, n - 1), DigestBlocks(e, m, n - 1));
    }
  }

  lemma {:induction false} SameBlock(e: Engine, e': Engine, x: Block, r: Registers)
    requires Agree(e, e')
    ensures DigestBlock(e, x, r) == DigestBlock(e', x, r)
  {
    SameSteps(e, e', x, r, STEPS);
  }
}
