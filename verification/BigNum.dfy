/**
 CBigNum of src/bignum.h as far as targets and base 58 need it.  OpenSSL's big numbers are
 integers; its MPI byte format (big-endian, the top bit of the first byte being the sign) is
 written out, because the compact form and the byte vectors are cut out of it.
 */
module BigNum {
  import opened Numbers

  function Pow256(n: nat): (p: nat)
    ensures p >= 1
  {
    if n == 0 then 1 else 256 * Pow256(n - 1)
  }

  /** The number that big-endian bytes stand for. */
  function FromBytes(b: seq<byte>): nat {
    if b == [] then 0 else FromBytes(b[..|b| - 1]) * 256 + b[|b| - 1]
  }

  /** The big-endian bytes of a number, none of them superfluous. */
  function Magnitude(v: nat): seq<byte> {
    if v == 0 then [] else Magnitude(v / 256) + [v % 256]
  }

  lemma {:induction false} MagnitudeValue(v: nat)
    ensures FromBytes(Magnitude(v)) == v && (v > 0 ==> Magnitude(v) != [] && Magnitude(v)[0] != 0)
  {
    if v > 0 {
      MagnitudeValue(v / 256);
      assert Magnitude(v)[..|Magnitude(v)| - 1] == Magnitude(v / 256);
    }
  }

  lemma {:induction false} MagnitudeUnique(b: seq<byte>)
    requires b != [] ==> b[0] != 0
    ensures Magnitude(FromBytes(b)) == b
  {
    if b != [] {
      var n := |b| - 1;
      MagnitudeUnique(b[..n]);
      assert FromBytes(b) / 256 == FromBytes(b[..n]) && FromBytes(b) % 256 == b[n];
      if n > 0 {
        ValueBound(b[..n]);
      }
      assert b == b[..n] + [b[n]];
    }
  }

  lemma MulLess(a: nat, b: nat, c: nat)
    requires a < b
    ensures a * c + c <= b * c
  {
    var d := b - a - 1;
    assert d * c >= 0;
    assert b * c == (a + 1 + d) * c == a * c + c + d * c;
  }

  /** A byte string without a leading zero is worth at least its first place. */
  lemma {:induction false} ValueBound(b: seq<byte>)
    ensures FromBytes(b) < Pow256(|b|)
    ensures b != [] ==> b[0] * Pow256(|b| - 1) <= FromBytes(b) < (b[0] as int + 1) * Pow256(|b| - 1)
  {
    if b != [] {
      var n := |b| - 1;
      ValueBound(b[..n]);
      if n > 0 {
        Times256(b[0], Pow256(n - 1));
        Times256(b[0] as int + 1, Pow256(n - 1));
      }
    }
  }

  lemma Times256(x: nat, p: nat)
    ensures x * (256 * p) == 256 * (x * p)
  {
  }

  lemma {:induction false} ValueAppend(a: seq<byte>, b: seq<byte>)
    ensures FromBytes(a + b) == FromBytes(a) * Pow256(|b|) + FromBytes(b)
  {
    if b == [] {
      assert a + b == a;
    } else {
      var n := |b| - 1;
      ValueAppend(a, b[..n]);
      assert (a + b)[..|a + b| - 1] == a + b[..n];
      var p := Pow256(n);
      assert FromBytes(a) * p * 256 == FromBytes(a) * (256 * p);
    }
  }

  // --------------------------------------------------------------------- the MPI format

  function Abs(v: int): nat {
    if v < 0 then -v else v
  }

  /** BN_bn2mpi without the length in front. */
  function ToMpi(v: int): (b: seq<byte>) {
    var m := Magnitude(Abs(v));
    var padded := if m != [] && m[0] >= 0x80 then [0] + m else m;
    if v < 0 && padded != [] && padded[0] < 0x80 then padded[0 := padded[0] + 0x80] else padded
  }

  /** BN_mpi2bn. */
  function OfMpi(b: seq<byte>): int {
    if b == [] then 0
    else if b[0] >= 0x80 then -(FromBytes(b[0 := b[0] - 0x80]) as int)
    else FromBytes(b)
  }

  lemma ZeroPad(m: seq<byte>)
    ensures FromBytes([0] + m) == FromBytes(m)
  {
    ValueAppend([0], m);
    assert FromBytes([0]) == 0 by {
      assert [0][..0] == [];
    }
  }

  lemma MpiRoundTrip(v: int)
    ensures OfMpi(ToMpi(v)) == v
  {
    MagnitudeValue(Abs(v));
    var m := Magnitude(Abs(v));
    ZeroPad(m);
    assert FromBytes([]) == 0;
    hide FromBytes, Magnitude;
    var padded := if m != [] && m[0] >= 0x80 then [0] + m else m;
    if v < 0 {
      assert ToMpi(v)[0 := padded[0]] == padded;
    }
  }
}
