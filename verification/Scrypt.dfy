/** The scalar scrypt of src/scrypt.cpp, word by word in place. */
module Scrypt {
  import opened Numbers
  import opened Salsa

  /** The sixteen words from position b on. */
  function Block(s: seq<Word>, b: nat): (w: Words16)
    requires b + 16 <= |s|
  {
    s[b..b + 16]
  }

  /** xor_salsa8(&X[b], &X[bx]). */
  method XorSalsa8InPlace(X: array<Word>, b: nat, bx: nat)
    requires b + 16 <= X.Length && bx + 16 <= X.Length && (b + 16 <= bx || bx + 16 <= b)
    modifies X
    ensures Block(X[..], b) == XorSalsa8(Block(old(X[..]), b), Block(old(X[..]), bx))
    ensures forall p :: 0 <= p < X.Length && !(b <= p < b + 16) ==> X[p] == old(X[p])
  {
    hide Xor, Add, Rounds;
    ghost var z := XorWords(Block(X[..], b), Block(X[..], bx));
    forall k | 0 <= k < 16 {
      X[b + k] := Xor(X[b + k], X[bx + k]);
    }
    assert Block(X[..], b) == z;
    var y := ScalarRounds(Block(X[..], b));
    forall k | 0 <= k < 16 {
      X[b + k] := Add(X[b + k], y[k]);
    }
    assert Block(X[..], b) == AddWords(z, y);
  }

  /** The rounds, on sixteen local words. */
  method ScalarRounds(B: Words16) returns (y: Words16)
    ensures y == Rounds(B, 4)
  {
    hide Mix, Quarter, ColumnRound, RowRound, DoubleRound;
    y := B;
    var i := 0;
    while i < 8
      invariant 0 <= i <= 8 && i % 2 == 0 && y == Rounds(B, i / 2)
    {
      assert Rounds(B, i / 2 + 1) == DoubleRound(Rounds(B, i / 2));
      DoubleRoundIs(y);
      y := OperateOnColumns(y);
      y := OperateOnRows(y);
      i := i + 2;
    }
  }

  /** The first sixteen statements of a double round. */
  method OperateOnColumns(B: Words16) returns (y: Words16)
    ensures y == ColumnRound(B)
  {
    hide Mix;
    var x00, x01, x02, x03, x04, x05, x06, x07 := B[0], B[1], B[2], B[3], B[4], B[5], B[6], B[7];
    var x08, x09, x10, x11, x12, x13, x14, x15 := B[8], B[9], B[10], B[11], B[12], B[13], B[14], B[15];
    x04 := Mix(x04, x00, x12, 7); x09 := Mix(x09, x05, x01, 7);
    x14 := Mix(x14, x10, x06, 7); x03 := Mix(x03, x15, x11, 7);

    x08 := Mix(x08, x04, x00, 9); x13 := Mix(x13, x09, x05, 9);
    x02 := Mix(x02, x14, x10, 9); x07 := Mix(x07, x03, x15, 9);

    x12 := Mix(x12, x08, x04, 13); x01 := Mix(x01, x13, x09, 13);
    x06 := Mix(x06, x02, x14, 13); x11 := Mix(x11, x07, x03, 13);

    x00 := Mix(x00, x12, x08, 18); x05 := Mix(x05, x01, x13, 18);
    x10 := Mix(x10, x06, x02, 18); x15 := Mix(x15, x11, x07, 18);
    y := [x00, x01, x02, x03, x04, x05, x06, x07, x08, x09, x10, x11, x12, x13, x14, x15];
  }

  /** The other sixteen. */
  method OperateOnRows(B: Words16) returns (y: Words16)
    ensures y == RowRound(B)
  {
    hide Mix;
    var x00, x01, x02, x03, x04, x05, x06, x07 := B[0], B[1], B[2], B[3], B[4], B[5], B[6], B[7];
    var x08, x09, x10, x11, x12, x13, x14, x15 := B[8], B[9], B[10], B[11], B[12], B[13], B[14], B[15];
    x01 := Mix(x01, x00, x03, 7); x06 := Mix(x06, x05, x04, 7);
    x11 := Mix(x11, x10, x09, 7); x12 := Mix(x12, x15, x14, 7);

    x02 := Mix(x02, x01, x00, 9); x07 := Mix(x07, x06, x05, 9);
    x08 := Mix(x08, x11, x10, 9); x13 := Mix(x13, x12, x15, 9);

    x03 := Mix(x03, x02, x01, 13); x04 := Mix(x04, x07, x06, 13);
    x09 := Mix(x09, x08, x11, 13); x14 := Mix(x14, x13, x12, 13);

    x00 := Mix(x00, x03, x02, 18); x05 := Mix(x05, x04, x07, 18);
    x10 := Mix(x10, x09, x08, 18); x15 := Mix(x15, x14, x13, 18);
    y := [x00, x01, x02, x03, x04, x05, x06, x07, x08, x09, x10, x11, x12, x13, x14, x15];
  }

  /** Row i of the table that V holds. */
  function Row(v: seq<Word>, i: nat): (r: Words32)
    requires 32 * i + 32 <= |v|
  {
    v[32 * i..32 * i + 32]
  }

  /** Both halves of a block, the second with the new first. */
  method MixInPlace(X: array<Word>)
    requires X.Length == 32
    modifies X
    ensures X[..] == BlockMix(old(X[..]))
  {
    hide XorSalsa8;
    ghost var x := X[..];
    XorSalsa8InPlace(X, 0, 16);
    ghost var y0 := Block(X[..], 0);
    assert Block(X[..], 16) == Block(x, 16);
    XorSalsa8InPlace(X, 16, 0);
    assert Block(X[..], 0) == y0;
    assert X[..] == Block(X[..], 0) + Block(X[..], 16);
    assert x[..16] == Block(x, 0) && x[16..] == Block(x, 16);
  }

  /** memcpy(&V[i * 32], X, 128). */
  method SaveRow(V: array<Word>, i: nat, X: array<Word>)
    requires X.Length == 32 && 32 * i + 32 <= V.Length && V != X
    modifies V
    ensures Row(V[..], i) == X[..]
    ensures forall p :: 0 <= p < 32 * i ==> V[p] == old(V[p])
  {
    forall k | 0 <= k < 32 {
      V[32 * i + k] := X[k];
    }
  }

  /** X[k] ^= V[32 * j + k] for every k. */
  method XorRow(X: array<Word>, V: array<Word>, j: nat)
    requires X.Length == 32 && 32 * j + 32 <= V.Length && V != X
    modifies X
    ensures X[..] == XorWords(old(X[..]), Row(V[..], j))
  {
    hide Xor;
    var k := 0;
    while k < 32
      invariant 0 <= k <= 32
      invariant forall p :: 0 <= p < k ==> X[p] == Xor(old(X[p]), V[32 * j + p])
      invariant forall p :: k <= p < 32 ==> X[p] == old(X[p])
    {
      X[k] := Xor(X[k], V[32 * j + k]);
      k := k + 1;
    }
  }

  /** The first n rows of V are the table of x. */
  ghost predicate Filled(v: seq<Word>, x: Words32, n: nat) {
    |v| == 32 * N && n <= N && forall m: nat {:trigger Row(v, m)} :: m < n ==> Row(v, m) == Table(x, m)
  }

  lemma FilledOne(v: seq<Word>, w: seq<Word>, x: Words32, n: nat)
    requires Filled(v, x, n) && n < N && |w| == |v|
    requires (forall p :: 0 <= p < 32 * n ==> w[p] == v[p]) && Row(w, n) == Table(x, n)
    ensures Filled(w, x, n + 1)
  {
    hide Table, BlockMix;
    forall m: nat | m < n + 1 ensures Row(w, m) == Table(x, m) {
      if m < n {
        assert Row(w, m) == Row(v, m);
      }
    }
  }

  /** The state after n rounds of the first loop. */
  ghost predicate Filling(words: seq<Word>, v: seq<Word>, x: Words32, n: nat) {
    Filled(v, x, n) && words == Table(x, n)
  }

  lemma FillingStart(x: Words32, v: seq<Word>)
    requires |v| == 32 * N
    ensures Filling(x, v, x, 0)
  {
    TableStep(x, 0);
  }

  /** One round of the first loop of scrypt_core. */
  method FillOne(X: array<Word>, V: array<Word>, i: nat, ghost x: Words32)
    requires X.Length == 32 && V.Length == 32 * N && V != X && i < N
    requires Filling(X[..], V[..], x, i)
    modifies X, V
    ensures Filling(X[..], V[..], x, i + 1)
  {
    hide BlockMix, Table;
    ghost var v := V[..];
    SaveRow(V, i, X);
    FilledOne(v, V[..], x, i);
    TableStep(x, i);
    MixInPlace(X);
  }

  /** The first loop of scrypt_core, for n rows. */
  method FillTable(X: array<Word>, V: array<Word>, n: nat)
    requires X.Length == 32 && V.Length == 32 * N && V != X && n <= N
    modifies X, V
    ensures Filling(X[..], V[..], old(X[..]), n)
  {
    ghost var x: Words32 := X[..];
    hide *;
    FillingStart(x, V[..]);
    var i := 0;
    while i < n
      invariant 0 <= i <= n && Filling(X[..], V[..], x, i)
    {
      FillOne(X, V, i, x);
      i := i + 1;
    }
  }

  /** One round of the second loop of scrypt_core. */
  method LookUpOne(X: array<Word>, V: array<Word>, i: nat, ghost x: Words32, ghost start: Words32)
    requires X.Length == 32 && V.Length == 32 * N && V != X
    requires Filled(V[..], x, N) && X[..] == Lookups(x, start, i)
    modifies X
    ensures X[..] == Lookups(x, start, i + 1)
  {
    hide BlockMix, Table, XorWords, Lookups, Integerify;
    var j := Integerify(X[..]);
    assert Row(V[..], j) == Table(x, j);
    LookupsStep(x, start, i);
    XorRow(X, V, j);
    MixInPlace(X);
  }

  /** scrypt_core. */
  method ScryptCore(X: array<Word>, V: array<Word>)
    requires X.Length == 32 && V.Length == 32 * N && V != X
    modifies X, V
    ensures X[..] == ROMix(old(X[..]))
  {
    ghost var x: Words32 := X[..];
    FillTable(X, V, N);
    LookUpAll(X, V, N, x);
  }

  /** The second loop of scrypt_core, for n rounds. */
  method LookUpAll(X: array<Word>, V: array<Word>, n: nat, ghost x: Words32)
    requires X.Length == 32 && V.Length == 32 * N && V != X && Filled(V[..], x, N)
    modifies X
    ensures X[..] == Lookups(x, old(X[..]), n)
  {
    ghost var start: Words32 := X[..];
    LookupsStep(x, start, 0);
    hide *;
    var i := 0;
    while i < n
      invariant 0 <= i <= n && Filled(V[..], x, N) && X[..] == Lookups(x, start, i)
    {
      LookUpOne(X, V, i, x, start);
      i := i + 1;
    }
  }

  /** The uint32 words that bytes in memory are, least significant byte first. */
  function Decode(bytes: seq<byte>): (w: seq<Word>)
    requires |bytes| % 4 == 0
    ensures |w| == |bytes| / 4
  {
    seq(|bytes| / 4, i requires 0 <= i < |bytes| / 4 => Le32Dec(bytes[4 * i..4 * i + 4]))
  }

  function Le32Dec(b: seq<byte>): Word
    requires |b| == 4
  {
    WordOf(Number(b))
  }

  function Number(b: seq<byte>): (n: nat)
    requires |b| == 4
    ensures n < 0x1_0000_0000
  {
    b[0] as int + 0x100 * (b[1] as int) + 0x1_0000 * (b[2] as int) + 0x100_0000 * (b[3] as int)
  }

  function WordOf(n: nat): Word
    requires n < 0x1_0000_0000
  {
    Word(n as bv32)
  }

  function Le32Enc(w: Word): (b: seq<byte>)
    ensures |b| == 4
  {
    var n := w.bits as nat;
    [n % 0x100, n / 0x100 % 0x100, n / 0x1_0000 % 0x100, n / 0x100_0000 % 0x100]
  }

  lemma WordOfBits(w: Word)
    ensures WordOf(w.bits as nat) == w
  {
  }

  lemma DigitsOf(n: nat)
    requires n < 0x1_0000_0000
    ensures n == n % 0x100 + 0x100 * (n / 0x100 % 0x100) + 0x1_0000 * (n / 0x1_0000 % 0x100)
      + 0x100_0000 * (n / 0x100_0000 % 0x100)
  {
  }

  lemma NumberOfEncoded(w: Word)
    ensures Number(Le32Enc(w)) == w.bits as nat
  {
    DigitsOf(w.bits as nat);
  }

  /** Decoding an encoded word gives it back. */
  lemma WordRoundTrips(w: Word)
    ensures Le32Dec(Le32Enc(w)) == w
  {
    hide Number, WordOf, Le32Enc;
    NumberOfEncoded(w);
    WordOfBits(w);
  }

  /** The least significant byte comes first. */
  lemma LowByteFirst()
    ensures Le32Enc(Word(0x0403_0201)) == [1, 2, 3, 4]
  {
  }

  function Encode(words: seq<Word>): (b: seq<byte>)
    ensures |b| == 4 * |words|
  {
    seq(4 * |words|, q requires 0 <= q < 4 * |words| => Le32Enc(words[q / 4])[q % 4])
  }

  /** PBKDF2 with HMAC-SHA-256 and one iteration: password, salt and length of the result. */
  type Kdf = f: (seq<byte>, seq<byte>, nat) -> seq<byte> |
    forall p, s, n :: |f(p, s, n)| == n witness (p: seq<byte>, s: seq<byte>, n: nat) => seq(n, _ => 0)

  /** What scrypt is, in terms of the two key derivations and ROMix. */
  function ScryptOf(pbkdf2: Kdf, input: seq<byte>): (out: seq<byte>)
    ensures |out| == 32
  {
    pbkdf2(input, Encode(ROMix(Decode(pbkdf2(input, input, 128)))), 32)
  }

  /** scrypt_nosalt, on a machine that keeps words least significant byte first. */
  method ScryptNoSalt(pbkdf2: Kdf, input: seq<byte>, V: array<Word>) returns (result: seq<byte>)
    requires V.Length == 32 * N
    modifies V
    ensures result == ScryptOf(pbkdf2, input)
  {
    hide ROMix;
    var words := Decode(pbkdf2(input, input, 128));
    var X := new Word[32](i requires 0 <= i < 32 => words[i]);
    assert X[..] == words;
    ScryptCore(X, V);
    result := pbkdf2(input, Encode(X[..]), 32);
  }
}
