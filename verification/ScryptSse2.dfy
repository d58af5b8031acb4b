/**
 The vector scrypt of src/scrypt-sse2.cpp: four words at a time, in an order that puts the
 diagonals of a block side by side.
 */
module ScryptSse2 {
  import opened Numbers
  import opened Salsa
  import opened Scrypt

  /** __m128i as four 32-bit lanes. */
  datatype Vec = Vec(w0: Word, w1: Word, w2: Word, w3: Word)

  function VAdd(a: Vec, b: Vec): Vec {
    Vec(Add(a.w0, b.w0), Add(a.w1, b.w1), Add(a.w2, b.w2), Add(a.w3, b.w3))
  }

  function VXor(a: Vec, b: Vec): Vec {
    Vec(Xor(a.w0, b.w0), Xor(a.w1, b.w1), Xor(a.w2, b.w2), Xor(a.w3, b.w3))
  }

  function LeftBits(a: bv32, k: Amount): bv32
    requires k < 32
  {
    a << k
  }

  function RightBits(a: bv32, k: Amount): bv32
    requires k < 32
  {
    a >> k
  }

  function Sl(a: Word, k: Amount): Word
    requires k < 32
  {
    Word(LeftBits(a.bits, k))
  }

  function Sr(a: Word, k: Amount): Word
    requires k < 32
  {
    Word(RightBits(a.bits, k))
  }

  function VSlli(a: Vec, k: Amount): Vec
    requires k < 32
  {
    Vec(Sl(a.w0, k), Sl(a.w1, k), Sl(a.w2, k), Sl(a.w3, k))
  }

  function VSrli(a: Vec, k: Amount): Vec
    requires k < 32
  {
    Vec(Sr(a.w0, k), Sr(a.w1, k), Sr(a.w2, k), Sr(a.w3, k))
  }

  function Lane(a: Vec, i: nat): Word {
    if i % 4 == 0 then a.w0 else if i % 4 == 1 then a.w1 else if i % 4 == 2 then a.w2 else a.w3
  }

  /** _mm_shuffle_epi32: two bits of the immediate for each lane. */
  function VShuffle(a: Vec, imm: nat): Vec {
    Vec(Lane(a, imm), Lane(a, imm / 4), Lane(a, imm / 16), Lane(a, imm / 64))
  }

  /** Bits shifted to the left by k and to the right by 32 - k have no place in common, so that
      xor and or put them together alike. */
  lemma XorOfShifts(x: bv32, b: bv32, k: Amount)
    requires 0 < k < 32
    ensures XorBits(XorBits(x, LeftBits(b, k)), RightBits(b, 32 - k)) == XorBits(x, RotateBits(b, k))
  {
  }

  /** The xor of the two shifts is the xor of a rotation. */
  lemma XorRotates(x: Word, t: Word, k: Amount)
    requires 0 < k < 32
    ensures Xor(Xor(x, Sl(t, k)), Sr(t, 32 - k)) == Xor(x, R(t, k))
  {
    hide XorBits, LeftBits, RightBits, RotateBits;
    XorOfShifts(x.bits, t.bits, k);
  }

  function VMix(x: Vec, a: Vec, b: Vec, k: Amount): Vec
    requires 0 < k < 32
  {
    Vec(Mix(x.w0, a.w0, b.w0, k), Mix(x.w1, a.w1, b.w1, k), Mix(x.w2, a.w2, b.w2, k), Mix(x.w3, a.w3, b.w3, k))
  }

  /** Three of the intrinsics make one step of four quarter rounds. */
  method MixLanes(x: Vec, a: Vec, b: Vec, k: Amount) returns (y: Vec)
    requires k == 7 || k == 9 || k == 13 || k == 18
    ensures y == VMix(x, a, b, k)
  {
    var T := VAdd(a, b);
    y := VXor(x, VSlli(T, k));
    y := VXor(y, VSrli(T, 32 - k));
    XorRotates(x.w0, T.w0, k);
    XorRotates(x.w1, T.w1, k);
    XorRotates(x.w2, T.w2, k);
    XorRotates(x.w3, T.w3, k);
    hide R, Sl, Sr, Xor, Add;
  }

  /** The words of four vectors in the order of the scalar code: lane i holds word i * 5 % 16. */
  function Natural(X0: Vec, X1: Vec, X2: Vec, X3: Vec): Words16 {
    [X0.w0, X3.w1, X2.w2, X1.w3,
     X1.w0, X0.w1, X3.w2, X2.w3,
     X2.w0, X1.w1, X0.w2, X3.w3,
     X3.w0, X2.w1, X1.w2, X0.w3]
  }

  method VectorColumns(X0: Vec, X1: Vec, X2: Vec, X3: Vec) returns (Y0: Vec, Y1: Vec, Y2: Vec, Y3: Vec)
    ensures Natural(Y0, Y1, Y2, Y3) == ColumnRound(Natural(X0, X1, X2, X3))
  {
    Y0, Y1, Y2, Y3 := X0, X1, X2, X3;
    Y1 := MixLanes(Y1, Y0, Y3, 7);
    Y2 := MixLanes(Y2, Y1, Y0, 9);
    Y3 := MixLanes(Y3, Y2, Y1, 13);
    Y0 := MixLanes(Y0, Y3, Y2, 18);
    hide Mix;
  }

  /** Shuffled so that the rows are where the columns were, and back. */
  method VectorRows(X0: Vec, X1: Vec, X2: Vec, X3: Vec) returns (Y0: Vec, Y1: Vec, Y2: Vec, Y3: Vec)
    ensures Natural(Y0, Y1, Y2, Y3) == RowRound(Natural(X0, X1, X2, X3))
  {
    hide Mix;
    Y0, Y1, Y2, Y3 := X0, VShuffle(X1, 0x93), VShuffle(X2, 0x4E), VShuffle(X3, 0x39);
    Y3 := MixLanes(Y3, Y0, Y1, 7);
    Y2 := MixLanes(Y2, Y3, Y0, 9);
    Y1 := MixLanes(Y1, Y2, Y3, 13);
    Y0 := MixLanes(Y0, Y1, Y2, 18);
    Y1, Y2, Y3 := VShuffle(Y1, 0x39), VShuffle(Y2, 0x4E), VShuffle(Y3, 0x93);
  }

  method VectorRounds(B0: Vec, B1: Vec, B2: Vec, B3: Vec) returns (X0: Vec, X1: Vec, X2: Vec, X3: Vec)
    ensures Natural(X0, X1, X2, X3) == Rounds(Natural(B0, B1, B2, B3), 4)
  {
    hide Mix, Quarter, ColumnRound, RowRound, DoubleRound, Natural;
    X0, X1, X2, X3 := B0, B1, B2, B3;
    ghost var b := Natural(B0, B1, B2, B3);
    var i := 0;
    while i < 8
      invariant 0 <= i <= 8 && i % 2 == 0 && Natural(X0, X1, X2, X3) == Rounds(b, i / 2)
    {
      assert Rounds(b, i / 2 + 1) == DoubleRound(Rounds(b, i / 2));
      DoubleRoundIs(Natural(X0, X1, X2, X3));
      X0, X1, X2, X3 := VectorColumns(X0, X1, X2, X3);
      X0, X1, X2, X3 := VectorRows(X0, X1, X2, X3);
      i := i + 2;
    }
  }

  // ------------------------------------------------------------ vectors in an array of words

  /** X.i128[k] of the union that is also X.u32. */
  function Load(s: seq<Word>, k: nat): Vec
    requires 4 * k + 4 <= |s|
  {
    Vec(s[4 * k], s[4 * k + 1], s[4 * k + 2], s[4 * k + 3])
  }

  method Store(X: array<Word>, k: nat, v: Vec)
    requires 4 * k + 4 <= X.Length
    modifies X
    ensures Load(X[..], k) == v
    ensures forall p :: 0 <= p < X.Length && !(4 * k <= p < 4 * k + 4) ==> X[p] == old(X[p])
  {
    X[4 * k], X[4 * k + 1], X[4 * k + 2], X[4 * k + 3] := v.w0, v.w1, v.w2, v.w3;
  }

  /** The four vectors from k on, in the order of the scalar code. */
  function NaturalBlock(s: seq<Word>, k: nat): Words16
    requires 4 * k + 16 <= |s|
  {
    Natural(Load(s, k), Load(s, k + 1), Load(s, k + 2), Load(s, k + 3))
  }

  /** Both blocks. */
  function Natural32(u: seq<Word>): Words32
    requires |u| == 32
  {
    NaturalBlock(u, 0) + NaturalBlock(u, 4)
  }

  /** Word i of a block of vectors is word Place(i) of the scalar code. */
  function Place(i: nat): (p: nat)
    ensures p < 16
  {
    i * 5 % 16
  }

  /** The permutation meets every place. */
  lemma PlaceIsOnto(p: nat) returns (i: nat)
    requires p < 16
    ensures i < 16 && Place(i) == p
  {
    i := p * 13 % 16;
    var q := p * 13 / 16;
    assert i * 5 == 16 * (4 * p - 5 * q) + p;
  }

  lemma NaturalOrder(u: seq<Word>)
    requires |u| == 32
    ensures Ordered(Natural32(u), u)
  {
    BlockOrder(u, 0);
    BlockOrder(u, 4);
    hide NaturalBlock;
  }

  lemma BlockOrder(s: seq<Word>, k: nat)
    requires 4 * k + 16 <= |s|
    ensures forall i: nat :: i < 16 ==> NaturalBlock(s, k)[Place(i)] == s[4 * k + i]
  {
    forall i: nat | i < 16 ensures NaturalBlock(s, k)[Place(i)] == s[4 * k + i] {
      OneOfSixteen(i);
    }
  }

  lemma OneOfSixteen(i: nat)
    requires i < 16
    ensures i == 0 || i == 1 || i == 2 || i == 3 || i == 4 || i == 5 || i == 6 || i == 7
         || i == 8 || i == 9 || i == 10 || i == 11 || i == 12 || i == 13 || i == 14 || i == 15
  {
  }

  lemma NaturalXor(a0: Vec, a1: Vec, a2: Vec, a3: Vec, b0: Vec, b1: Vec, b2: Vec, b3: Vec)
    ensures Natural(VXor(a0, b0), VXor(a1, b1), VXor(a2, b2), VXor(a3, b3))
         == XorWords(Natural(a0, a1, a2, a3), Natural(b0, b1, b2, b3))
    ensures Natural(VAdd(a0, b0), VAdd(a1, b1), VAdd(a2, b2), VAdd(a3, b3))
         == AddWords(Natural(a0, a1, a2, a3), Natural(b0, b1, b2, b3))
  {
    hide Xor, Add;
  }

  /** xor_salsa8_sse2(&X.i128[b], &X.i128[bx]). */
  method XorSalsa8Sse2(X: array<Word>, b: nat, bx: nat)
    requires X.Length == 32 && ((b == 0 && bx == 4) || (b == 4 && bx == 0))
    modifies X
    ensures NaturalBlock(X[..], b) == XorSalsa8(NaturalBlock(old(X[..]), b), NaturalBlock(old(X[..]), bx))
    ensures forall p :: 0 <= p < 32 && !(4 * b <= p < 4 * b + 16) ==> X[p] == old(X[p])
  {
    hide Natural, Rounds, VXor, VAdd;
    ghost var x := X[..];
    var B0 := VXor(Load(X[..], b), Load(X[..], bx));
    var B1 := VXor(Load(X[..], b + 1), Load(X[..], bx + 1));
    var B2 := VXor(Load(X[..], b + 2), Load(X[..], bx + 2));
    var B3 := VXor(Load(X[..], b + 3), Load(X[..], bx + 3));
    NaturalXor(Load(x, b), Load(x, b + 1), Load(x, b + 2), Load(x, b + 3),
               Load(x, bx), Load(x, bx + 1), Load(x, bx + 2), Load(x, bx + 3));
    var X0, X1, X2, X3 := VectorRounds(B0, B1, B2, B3);
    NaturalXor(B0, B1, B2, B3, X0, X1, X2, X3);
    StoreFour(X, b, VAdd(B0, X0), VAdd(B1, X1), VAdd(B2, X2), VAdd(B3, X3));
  }

  method StoreFour(X: array<Word>, b: nat, v0: Vec, v1: Vec, v2: Vec, v3: Vec)
    requires 4 * b + 16 <= X.Length
    modifies X
    ensures NaturalBlock(X[..], b) == Natural(v0, v1, v2, v3)
    ensures forall p :: 0 <= p < X.Length && !(4 * b <= p < 4 * b + 16) ==> X[p] == old(X[p])
  {
    hide Natural;
    Store(X, b, v0);
    Store(X, b + 1, v1);
    Store(X, b + 2, v2);
    Store(X, b + 3, v3);
  }

  method MixInPlaceSse2(X: array<Word>)
    requires X.Length == 32
    modifies X
    ensures Natural32(X[..]) == BlockMix(Natural32(old(X[..])))
  {
    hide XorSalsa8;
    ghost var x := X[..];
    XorSalsa8Sse2(X, 0, 4);
    ghost var y0 := NaturalBlock(X[..], 0);
    assert NaturalBlock(X[..], 4) == NaturalBlock(x, 4);
    XorSalsa8Sse2(X, 4, 0);
    assert NaturalBlock(X[..], 0) == y0;
    BothHalves(x);
  }

  lemma BothHalves(u: seq<Word>)
    requires |u| == 32
    ensures Natural32(u)[..16] == NaturalBlock(u, 0) && Natural32(u)[16..] == NaturalBlock(u, 4)
  {
  }

  // ------------------------------------------------------------------------- the core

  /** V[i * 8 + k] = X.i128[k] for every k. */
  method SaveRowSse2(V: array<Word>, i: nat, X: array<Word>)
    requires X.Length == 32 && 32 * i + 32 <= V.Length && V != X
    modifies V
    ensures Row(V[..], i) == X[..]
    ensures forall p :: 0 <= p < 32 * i ==> V[p] == old(V[p])
  {
    var k := 0;
    while k < 8
      invariant 0 <= k <= 8 && X[..] == old(X[..])
      invariant forall p :: 0 <= p < 4 * k ==> V[32 * i + p] == X[p]
      invariant forall p :: 0 <= p < 32 * i ==> V[p] == old(V[p])
    {
      ghost var v := V[..];
      var x := Load(X[..], k);
      Store(V, 8 * i + k, x);
      assert Load(V[..], 8 * i + k) == x;
      k := k + 1;
    }
  }

  /** X.i128[k] is xored with V[8 * j + k] for every k. */
  method XorRowSse2(X: array<Word>, V: array<Word>, j: nat)
    requires X.Length == 32 && 32 * j + 32 <= V.Length && V != X
    modifies X
    ensures X[..] == XorWords(old(X[..]), Row(V[..], j))
  {
    hide Xor;
    var k := 0;
    while k < 8
      invariant 0 <= k <= 8
      invariant forall p :: 0 <= p < 4 * k ==> X[p] == Xor(old(X[p]), V[32 * j + p])
      invariant forall p :: 4 * k <= p < 32 ==> X[p] == old(X[p])
    {
      var v := VXor(Load(X[..], k), Load(V[..], 8 * j + k));
      Store(X, k, v);
      assert Load(X[..], k) == v;
      k := k + 1;
    }
  }

  /** The first n rows of V are the table of x, each in the order of the vectors. */
  ghost predicate FilledSse2(v: seq<Word>, x: Words32, n: nat) {
    |v| == 32 * N && n <= N && forall m: nat {:trigger Row(v, m)} :: m < n ==> Natural32(Row(v, m)) == Table(x, m)
  }

  lemma FilledOneSse2(v: seq<Word>, w: seq<Word>, x: Words32, n: nat)
    requires FilledSse2(v, x, n) && n < N && |w| == |v|
    requires (forall p :: 0 <= p < 32 * n ==> w[p] == v[p]) && Natural32(Row(w, n)) == Table(x, n)
    ensures FilledSse2(w, x, n + 1)
  {
    hide Table, BlockMix, Natural32;
    forall m: nat | m < n + 1 ensures Natural32(Row(w, m)) == Table(x, m) {
      if m < n {
        assert Row(w, m) == Row(v, m);
      }
    }
  }

  ghost predicate FillingSse2(words: seq<Word>, v: seq<Word>, x: Words32, n: nat) {
    FilledSse2(v, x, n) && |words| == 32 && Natural32(words) == Table(x, n)
  }

  lemma FillingStartSse2(words: seq<Word>, v: seq<Word>)
    requires |words| == 32 && |v| == 32 * N
    ensures FillingSse2(words, v, Natural32(words), 0)
  {
    TableStep(Natural32(words), 0);
  }

  method FillOneSse2(X: array<Word>, V: array<Word>, i: nat, ghost x: Words32)
    requires X.Length == 32 && V.Length == 32 * N && V != X && i < N
    requires FillingSse2(X[..], V[..], x, i)
    modifies X, V
    ensures FillingSse2(X[..], V[..], x, i + 1)
  {
    hide BlockMix, Table, Natural32;
    ghost var v := V[..];
    SaveRowSse2(V, i, X);
    FilledOneSse2(v, V[..], x, i);
    TableStep(x, i);
    MixInPlaceSse2(X);
  }

  method FillTableSse2(X: array<Word>, V: array<Word>, n: nat)
    requires X.Length == 32 && V.Length == 32 * N && V != X && n <= N
    modifies X, V
    ensures FillingSse2(X[..], V[..], Natural32(old(X[..])), n)
  {
    ghost var x: Words32 := Natural32(X[..]);
    hide *;
    FillingStartSse2(X[..], V[..]);
    var i := 0;
    while i < n
      invariant 0 <= i <= n && FillingSse2(X[..], V[..], x, i)
    {
      FillOneSse2(X, V, i, x);
      i := i + 1;
    }
  }

  lemma NaturalXor32(u: seq<Word>, v: seq<Word>)
    requires |u| == 32 && |v| == 32
    ensures Natural32(XorWords(u, v)) == XorWords(Natural32(u), Natural32(v))
  {
    hide Xor;
  }

  lemma NaturalSixteen(u: seq<Word>)
    requires |u| == 32
    ensures Natural32(u)[16] == u[16]
  {
  }

  method LookUpOneSse2(X: array<Word>, V: array<Word>, i: nat, ghost x: Words32, ghost start: Words32)
    requires X.Length == 32 && V.Length == 32 * N && V != X
    requires FilledSse2(V[..], x, N) && Natural32(X[..]) == Lookups(x, start, i)
    modifies X
    ensures Natural32(X[..]) == Lookups(x, start, i + 1)
  {
    var j := Integerify(X[..]);
    NaturalSixteen(X[..]);
    assert j == Integerify(Natural32(X[..]));
    hide BlockMix, Table, XorWords, Lookups, Integerify, Natural32;
    assert Natural32(Row(V[..], j)) == Table(x, j);
    LookupsStep(x, start, i);
    NaturalXor32(X[..], Row(V[..], j));
    XorRowSse2(X, V, j);
    MixInPlaceSse2(X);
  }

  method LookUpAllSse2(X: array<Word>, V: array<Word>, n: nat, ghost x: Words32)
    requires X.Length == 32 && V.Length == 32 * N && V != X && FilledSse2(V[..], x, N)
    modifies X
    ensures Natural32(X[..]) == Lookups(x, Natural32(old(X[..])), n)
  {
    ghost var start: Words32 := Natural32(X[..]);
    LookupsStep(x, start, 0);
    hide *;
    var i := 0;
    while i < n
      invariant 0 <= i <= n && FilledSse2(V[..], x, N) && Natural32(X[..]) == Lookups(x, start, i)
    {
      LookUpOneSse2(X, V, i, x, start);
      i := i + 1;
    }
  }

  /** Both loops: ROMix, in the order of the vectors. */
  method ScryptCoreSse2(X: array<Word>, V: array<Word>)
    requires X.Length == 32 && V.Length == 32 * N && V != X
    modifies X, V
    ensures Natural32(X[..]) == ROMix(Natural32(old(X[..])))
  {
    ghost var x: Words32 := Natural32(X[..]);
    FillTableSse2(X, V, N);
    LookUpAllSse2(X, V, N, x);
  }

  // ------------------------------------------------------------------- bytes in and out

  /** The words of the buffer go to the places of the permutation. */
  method ReadPermuted(B: seq<byte>, X: array<Word>)
    requires |B| == 128 && X.Length == 32
    modifies X
    ensures Natural32(X[..]) == Decode(B)
  {
    hide Le32Dec;
    var k := 0;
    while k < 2
      invariant 0 <= k <= 2
      invariant forall i: nat {:trigger Place(i)} :: i < 16 && k > 0 ==> X[i] == Decode(B)[Place(i)]
      invariant forall i: nat {:trigger Place(i)} :: i < 16 && k > 1 ==> X[16 + i] == Decode(B)[16 + Place(i)]
    {
      var i := 0;
      while i < 16
        invariant 0 <= i <= 16
        invariant forall j: nat {:trigger Place(j)} :: j < i ==> X[k * 16 + j] == Decode(B)[k * 16 + Place(j)]
        invariant forall j: nat {:trigger Place(j)} :: j < 16 && k > 0 ==> X[j] == Decode(B)[Place(j)]
      {
        var p := k * 16 + Place(i);
        X[k * 16 + i] := Le32Dec(B[4 * p..4 * p + 4]);
        i := i + 1;
      }
      k := k + 1;
    }
    NaturalDecides(X[..], Decode(B));
  }

  /** Words that are where the permutation wants them are the words in natural order. */
  lemma NaturalDecides(u: seq<Word>, w: seq<Word>)
    requires |u| == |w| == 32
    requires Ordered(w, u)
    ensures Natural32(u) == w
  {
    NaturalOrder(u);
    hide *;
    forall p | 0 <= p < 32 ensures Natural32(u)[p] == w[p] {
      var i := FoundAt(Natural32(u), u, p);
    }
  }

  /** n is u in natural order. */
  ghost predicate Ordered(n: seq<Word>, u: seq<Word>) {
    && |n| == |u| == 32
    && forall i: nat {:trigger Place(i)} :: i < 16 ==> n[Place(i)] == u[i] && n[16 + Place(i)] == u[16 + i]
  }

  /** Where word p of n is in u. */
  lemma FoundAt(n: seq<Word>, u: seq<Word>, p: nat) returns (i: nat)
    requires Ordered(n, u) && p < 32
    ensures i < 16 && p == (if p < 16 then Place(i) else 16 + Place(i))
    ensures n[p] == if p < 16 then u[i] else u[16 + i]
  {
    i := PlaceIsOnto(p % 16);
    assert n[Place(i)] == u[i] && n[16 + Place(i)] == u[16 + i];
  }

  function WordAt(b: seq<byte>, p: nat): seq<byte>
    requires 4 * p + 4 <= |b|
  {
    b[4 * p..4 * p + 4]
  }

  /** le32enc(&B[4 * p], w). */
  method WriteWord(B: array<byte>, p: nat, w: Word)
    requires 4 * p + 4 <= B.Length
    modifies B
    ensures WordAt(B[..], p) == Le32Enc(w)
    ensures forall q :: 0 <= q && 4 * q + 4 <= B.Length && q != p ==> WordAt(B[..], q) == WordAt(old(B[..]), q)
  {
    var e := Le32Enc(w);
    ghost var b := B[..];
    hide Le32Enc;
    B[4 * p], B[4 * p + 1], B[4 * p + 2], B[4 * p + 3] := e[0], e[1], e[2], e[3];
    forall q | 0 <= q && 4 * q + 4 <= B.Length && q != p ensures WordAt(B[..], q) == WordAt(b, q) {
      assert forall k :: 4 * q <= k < 4 * q + 4 ==> B[k] == b[k];
    }
  }

  /** Bytes whose words are right are right. */
  lemma WordsDecide(b: seq<byte>, words: seq<Word>)
    requires |b| == 4 * |words| && forall p :: 0 <= p < |words| ==> WordAt(b, p) == Le32Enc(words[p])
    ensures b == Encode(words)
  {
    hide Le32Enc;
    forall q | 0 <= q < |b| ensures b[q] == Encode(words)[q] {
      assert b[q] == WordAt(b, q / 4)[q % 4];
    }
  }

  /** Word n of the vectors goes to word Spot(n) of the buffer, and no other goes there. */
  function Spot(n: nat): (p: nat)
    requires n < 32
    ensures p < 32 && SpotBack(p) == n
  {
    if n < 16 then PlaceBack(n); Place(n)
    else PlaceBack(n - 16); 16 + Place(n - 16)
  }

  function SpotBack(p: nat): nat {
    if p < 16 then p * 13 % 16 else 16 + (p - 16) * 13 % 16
  }

  lemma PlaceBack(i: nat)
    requires i < 16
    ensures Place(i) * 13 % 16 == i
  {
    var q := i * 5 / 16;
    assert Place(i) * 13 == 16 * (4 * i - 13 * q) + i;
  }

  /** The first n words are in the buffer. */
  ghost predicate Written(b: seq<byte>, u: seq<Word>, n: nat) {
    |b| == 128 && |u| == 32 && n <= 32 && forall m: nat :: m < n ==> WordAt(b, Spot(m)) == Le32Enc(u[m])
  }

  /** le32enc(&B[(k * 16 + (i * 5 % 16)) * 4], X.u32[k * 16 + i]). */
  method WriteOne(X: array<Word>, B: array<byte>, k: nat, i: nat)
    requires B.Length == 128 && X.Length == 32 && k < 2 && i < 16 && Written(B[..], X[..], k * 16 + i)
    modifies B
    ensures Written(B[..], X[..], k * 16 + i + 1)
  {
    hide WordAt, Le32Enc;
    var n := k * 16 + i;
    assert Spot(n) == k * 16 + Place(i);
    hide Spot, SpotBack;
    WriteWord(B, k * 16 + Place(i), X[n]);
  }

  /** And back: the bytes of the words in natural order. */
  method WritePermuted(X: array<Word>, B: array<byte>)
    requires B.Length == 128 && X.Length == 32
    modifies B
    ensures B[..] == Encode(Natural32(X[..]))
  {
    var k := 0;
    while k < 2
      invariant 0 <= k <= 2 && Written(B[..], X[..], k * 16)
    {
      var i := 0;
      while i < 16
        invariant 0 <= i <= 16 && Written(B[..], X[..], k * 16 + i)
      {
        WriteOne(X, B, k, i);
        i := i + 1;
      }
      k := k + 1;
    }
    AllPlaced(B[..], X[..]);
  }

  lemma AllPlaced(b: seq<byte>, u: seq<Word>)
    requires Written(b, u, 32)
    ensures b == Encode(Natural32(u))
  {
    NaturalOrder(u);
    hide Natural32, WordAt, Le32Enc, Place, Ordered;
    forall p | 0 <= p < 32 ensures WordAt(b, p) == Le32Enc(Natural32(u)[p]) {
      var i := FoundAt(Natural32(u), u, p);
      assert p == Spot(if p < 16 then i else 16 + i);
    }
    WordsDecide(b, Natural32(u));
  }

  /** scrypt_1024_1_1_256_sp_sse2: for every input the bytes the scalar code gives. */
  method ScryptSp(pbkdf2: Kdf, input: seq<byte>, V: array<Word>) returns (output: seq<byte>)
    requires V.Length == 32 * N
    modifies V
    ensures output == ScryptOf(pbkdf2, input)
  {
    hide ROMix, Natural32, Encode, Decode;
    var derived := pbkdf2(input, input, 128);
    var B := new byte[128](i requires 0 <= i < 128 => derived[i]);
    assert B[..] == derived;
    var X := new Word[32](_ => ZERO);
    ReadPermuted(B[..], X);
    ScryptCoreSse2(X, V);
    WritePermuted(X, B);
    output := pbkdf2(input, B[..], 32);
  }
}
