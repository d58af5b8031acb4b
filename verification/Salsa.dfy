/**
 Salsa20/8, block mixing and ROMix with r = 1 and N = 1024, as sections 3 to 5 of RFC 7914
 define them; the two scrypt implementations are proved against these.
 */
module Salsa {
  const N: nat := 1024

  /** A 32-bit unsigned word; the constructor keeps proofs about the order of words apart from
      the arithmetic in them. */
  datatype Word = Word(bits: bv32)

  /** How far to shift or rotate. */
  type Amount = bv6

  const ZERO := Word(0)

  function XorBits(a: bv32, b: bv32): bv32 {
    a ^ b
  }

  function RotateBits(a: bv32, k: Amount): bv32
    requires 0 < k < 32
  {
    (a << k) | (a >> (32 - k))
  }

  function Xor(a: Word, b: Word): Word {
    Word(XorBits(a.bits, b.bits))
  }

  function Add(a: Word, b: Word): Word {
    Word(a.bits + b.bits)
  }

  function R(a: Word, b: Amount): Word
    requires 0 < b < 32
  {
    Word(RotateBits(a.bits, b))
  }

  /** One step of a quarter round. */
  function Mix(x: Word, a: Word, b: Word, k: Amount): Word
    requires 0 < k < 32
  {
    Xor(x, R(Add(a, b), k))
  }

  function Quarter(a: Word, b: Word, c: Word, d: Word): (Word, Word, Word, Word) {
    var b1 := Mix(b, a, d, 7);
    var c1 := Mix(c, b1, a, 9);
    var d1 := Mix(d, c1, b1, 13);
    (Mix(a, d1, c1, 18), b1, c1, d1)
  }

  type Words16 = s: seq<Word> | |s| == 16 witness seq(16, _ => ZERO)
  type Words32 = s: seq<Word> | |s| == 32 witness seq(32, _ => ZERO)

  /** A quarter round on each column, from the diagonal down. */
  function ColumnRound(y: Words16): Words16 {
    var (z0, z4, z8, z12) := Quarter(y[0], y[4], y[8], y[12]);
    var (z5, z9, z13, z1) := Quarter(y[5], y[9], y[13], y[1]);
    var (z10, z14, z2, z6) := Quarter(y[10], y[14], y[2], y[6]);
    var (z15, z3, z7, z11) := Quarter(y[15], y[3], y[7], y[11]);
    [z0, z1, z2, z3, z4, z5, z6, z7, z8, z9, z10, z11, z12, z13, z14, z15]
  }

  /** A quarter round on each row, from the diagonal on. */
  function RowRound(y: Words16): Words16 {
    var (z0, z1, z2, z3) := Quarter(y[0], y[1], y[2], y[3]);
    var (z5, z6, z7, z4) := Quarter(y[5], y[6], y[7], y[4]);
    var (z10, z11, z8, z9) := Quarter(y[10], y[11], y[8], y[9]);
    var (z15, z12, z13, z14) := Quarter(y[15], y[12], y[13], y[14]);
    [z0, z1, z2, z3, z4, z5, z6, z7, z8, z9, z10, z11, z12, z13, z14, z15]
  }

  /** Examples of sections 3, 4 and 5 of the Salsa20 specification. */
  lemma RoundExamples(y: Words16)
    requires forall i :: 0 <= i < 16 ==> y[i] == Word(if i % 4 == 0 then 1 else 0)
    ensures Quarter(Word(1), ZERO, ZERO, ZERO)
      == (Word(0x0800_8145), Word(0x0000_0080), Word(0x0001_0200), Word(0x2050_0000))
    ensures ColumnRound(y) == [
      Word(0x1009_0288), ZERO, ZERO, ZERO, Word(0x0000_0101), ZERO, ZERO, ZERO,
      Word(0x0002_0401), ZERO, ZERO, ZERO, Word(0x40a0_4001), ZERO, ZERO, ZERO]
    ensures RowRound(y) == [
      Word(0x0800_8145), Word(0x0000_0080), Word(0x0001_0200), Word(0x2050_0000),
      Word(0x2010_0001), Word(0x0004_8044), Word(0x0000_0080), Word(0x0001_0000),
      Word(0x0000_0001), Word(0x0000_2000), Word(0x8004_0000), ZERO,
      Word(0x0000_0001), Word(0x0000_0200), Word(0x0040_2000), Word(0x8800_0100)]
  {
  }

  /** A column round and a row round, word by word. */
  function DoubleRound(y: Words16): (r: seq<Word>)
    ensures |r| == 16
  {
    seq(16, i requires 0 <= i < 16 => RowRound(ColumnRound(y))[i])
  }

  lemma DoubleRoundIs(y: Words16)
    ensures DoubleRound(y) == RowRound(ColumnRound(y))
  {
    hide RowRound, ColumnRound, Quarter, Mix;
    assert forall i :: 0 <= i < 16 ==> DoubleRound(y)[i] == RowRound(ColumnRound(y))[i];
  }

  /** n double rounds. */
  function Rounds(y: Words16, n: nat): Words16 {
    if n == 0 then y else DoubleRound(Rounds(y, n - 1))
  }

  function XorWords(s: seq<Word>, t: seq<Word>): (r: seq<Word>)
    requires |s| == |t|
    ensures |r| == |s|
  {
    seq(|s|, i requires 0 <= i < |s| => Xor(s[i], t[i]))
  }

  function AddWords(s: seq<Word>, t: seq<Word>): (r: seq<Word>)
    requires |s| == |t|
    ensures |r| == |s|
  {
    seq(|s|, i requires 0 <= i < |s| => Add(s[i], t[i]))
  }

  /** Salsa20/8 of the sum of two blocks. */
  function XorSalsa8(b: Words16, bx: Words16): Words16 {
    AddWords(XorWords(b, bx), Rounds(XorWords(b, bx), 4))
  }

  function BlockMix(x: Words32): Words32 {
    var y0 := XorSalsa8(x[..16], x[16..]);
    y0 + XorSalsa8(x[16..], y0)
  }

  /** The n-th entry of the table V. */
  function Table(x: Words32, n: nat): Words32 {
    if n == 0 then x else BlockMix(Table(x, n - 1))
  }

  function Integerify(x: Words32): (j: nat)
    ensures j < N
  {
    Low10(x[16].bits);
    (x[16].bits & 1023) as nat
  }

  lemma Low10(w: bv32)
    ensures (w & 1023) as nat < N
  {
    assert w & 1023 < 1024;
  }

  /** n steps of the second loop. */
  function Lookups(x: Words32, start: Words32, n: nat): Words32 {
    if n == 0 then start
    else
      var y := Lookups(x, start, n - 1);
      BlockMix(XorWords(y, Table(x, Integerify(y))))
  }

  lemma LookupsStep(x: Words32, start: Words32, n: nat)
    ensures Lookups(x, start, 0) == start
    ensures Lookups(x, start, n + 1) ==
      BlockMix(XorWords(Lookups(x, start, n), Table(x, Integerify(Lookups(x, start, n)))))
  {
  }

  lemma TableStep(x: Words32, n: nat)
    ensures Table(x, 0) == x && Table(x, n + 1) == BlockMix(Table(x, n))
  {
  }

  function ROMix(x: Words32): Words32 {
    Lookups(x, Table(x, N), N)
  }
}
