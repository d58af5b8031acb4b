/** The compact form of targets (SetCompact and GetCompact in src/bignum.h): a size in bytes and
    the three leading ones, a floating-point number with base 256. */
module Compact {
  import opened Numbers
  import opened BigNum

  // ------------------------------------------------------------ sizes and leading bytes

  lemma {:induction false} PowMono(a: nat, b: nat)
    requires a <= b
    ensures Pow256(a) <= Pow256(b)
    decreases b
  {
    if a < b {
      PowMono(a, b - 1);
    }
  }

  /** The numbers with an MPI form of s bytes. */
  predicate HasSize(v: nat, s: nat) {
    if s == 0 then v == 0
    else if s == 1 then 1 <= v < 128
    else 128 * Pow256(s - 2) <= v < 128 * Pow256(s - 1)
  }

  lemma MpiHasSize(v: nat)
    ensures HasSize(v, |ToMpi(v)|) && OfMpi(ToMpi(v)) == v && (v > 0 ==> ToMpi(v)[0] < 0x80)
    ensures FromBytes(ToMpi(v)) == v
  {
    MpiRoundTrip(v);
    MagnitudeValue(v);
    ZeroPad(Magnitude(v));
    if v > 0 {
      MagnitudeHasSize(v, Magnitude(v));
    }
    hide Magnitude, FromBytes, Pow256, HasSize;
  }

  lemma MagnitudeHasSize(v: nat, m: seq<byte>)
    requires v > 0 && FromBytes(m) == v && m != [] && m[0] != 0
    ensures HasSize(v, if m[0] >= 0x80 then |m| + 1 else |m|)
  {
    ValueBound(m);
    var p, b := Pow256(|m| - 1), m[0] as int;
    hide FromBytes;
    if b >= 0x80 {
      MulAtLeast(128, b, p);
      assert Pow256(|m|) == 256 * p;
    } else {
      MulAtLeast(b + 1, 128, p);
      MulAtLeast(1, b, p);
      assert |m| >= 2 ==> p == 256 * Pow256(|m| - 2);
    }
  }

  /** The size is monotone, and unique. */
  lemma SizeMonotone(v: nat, w: nat, s: nat, t: nat)
    requires v <= w && HasSize(v, s) && HasSize(w, t)
    ensures s <= t
  {
    if t >= 1 {
      if s >= t + 1 && s >= 2 {
        PowMono(t - 1, s - 2);
      }
    }
  }

  lemma MulAtLeast(a: nat, b: nat, c: nat)
    requires a <= b
    ensures a * c <= b * c
  {
    if a < b {
      MulLess(a, b, c);
    }
  }

  function Quot(v: nat, p: nat): (q: nat)
    requires p > 0
    ensures q * p <= v < q * p + p
  {
    v / p
  }

  /** The leading three bytes, as a number. */
  function Leading(v: nat, s: nat): nat {
    if s >= 3 then Quot(v, Pow256(s - 3)) else v * Pow256(3 - s)
  }

  lemma QuotIs(x: nat, p: nat, r: nat)
    requires p > 0 && r < p
    ensures Quot(x * p + r, p) == x
  {
    hide Quot;
    var q := Quot(x * p + r, p);
    if q > x {
      MulLess(x, q, p);
    } else if q < x {
      MulLess(q, x, p);
    }
  }

  lemma QuotMono(v: nat, w: nat, p: nat)
    requires v <= w && p > 0
    ensures Quot(v, p) <= Quot(w, p)
  {
    hide Quot;
    if Quot(w, p) < Quot(v, p) {
      MulLess(Quot(w, p), Quot(v, p), p);
    }
  }

  /** The leading three bytes are below 2^23, and at least 2^15 when there are three. */
  lemma LeadingBound(v: nat, s: nat)
    requires HasSize(v, s)
    ensures Leading(v, s) < 0x80_0000 && (s >= 3 ==> Leading(v, s) >= 0x8000)
  {
    if s >= 3 {
      var p := Pow256(s - 3);
      assert Pow256(s - 2) == 256 * p && Pow256(s - 1) == 256 * Pow256(s - 2);
      var q := Quot(v, p);
      hide Quot;
      if q < 0x8000 {
        MulLess(q, 0x8000, p);
      }
      if q >= 0x80_0000 {
        MulAtLeast(0x80_0000, q, p);
      }
    } else {
      assert Pow256(1) == 256 && Pow256(2) == 256 * Pow256(1) && Pow256(3) == 256 * Pow256(2);
    }
  }

  // --------------------------------------------------------------------- the two forms

  /** The compact form: the size, the sign and the leading three bytes. */
  function Compacted(v: int): nat {
    var s := |ToMpi(v)|;
    s % 0x100 * 0x100_0000 + (if v < 0 then 0x80_0000 else 0) + Leading(Abs(v), s)
  }

  /** The number a compact form stands for. */
  function Expanded(n: nat): int {
    var s, word := n / 0x100_0000, n % 0x80_0000;
    var m := if s >= 3 then word * Pow256(s - 3) else Quot(word, Pow256(3 - s));
    if n / 0x80_0000 % 2 == 1 then -m else m
  }

  /** v without what follows its leading three bytes. */
  function Rounded(v: nat, s: nat): nat {
    if s >= 3 then Quot(v, Pow256(s - 3)) * Pow256(s - 3) else v
  }

  lemma ExpandCompacted(v: nat, s: nat)
    requires HasSize(v, s) && s == |ToMpi(v)| < 0x100
    ensures Expanded(Compacted(v)) == Rounded(v, s)
  {
    hide Quot, Pow256, HasSize, ToMpi;
    LeadingBound(v, s);
    CompactFields(s, Leading(v, s));
    if s < 3 {
      QuotIs(v, Pow256(3 - s), 0);
    }
  }

  lemma CompactFields(s: nat, l: nat)
    requires l < 0x80_0000
    ensures var n := s * 0x100_0000 + l;
      n / 0x100_0000 == s && n % 0x80_0000 == l && n / 0x80_0000 % 2 == 0
  {
  }

  /** Expanding the compact form loses less than one part in 2^15, and nothing below 2^23. */
  lemma CompactRounds(v: nat)
    requires |ToMpi(v)| < 0x100
    ensures var r := Expanded(Compacted(v));
      && 0 <= r <= v && (v - r) * 0x8000 <= v && (v > 0 ==> r > 0 && (v - r) * 0x8000 < v)
      && (v < 0x80_0000 ==> r == v)
  {
    var s := |ToMpi(v)|;
    MpiHasSize(v);
    ExpandCompacted(v, s);
    if s >= 3 {
      var p := Pow256(s - 3);
      LeadingBound(v, s);
      hide Quot;
      MulAtLeast(0x8000, Quot(v, p), p);
      if s > 3 {
        PowMono(1, s - 3);
        assert Pow256(1) == 256;
        assert v >= 0x8000 * 256;
      }
    }
  }

  /** Larger numbers have larger compact forms. */
  lemma CompactMonotone(v: nat, w: nat)
    requires v <= w && |ToMpi(w)| < 0x100
    ensures Compacted(v) <= Compacted(w)
  {
    hide Leading, Pow256, HasSize, ToMpi;
    var s, t := |ToMpi(v)|, |ToMpi(w)|;
    MpiHasSize(v);
    MpiHasSize(w);
    SizeMonotone(v, w, s, t);
    LeadingBound(v, s);
    LeadingBound(w, t);
    LeadingMono(v, w, s);
  }

  lemma LeadingMono(v: nat, w: nat, s: nat)
    requires v <= w
    ensures Leading(v, s) <= Leading(w, s)
  {
    hide Quot, Pow256;
    if s >= 3 {
      QuotMono(v, w, Pow256(s - 3));
    } else {
      MulAtLeast(v, w, Pow256(3 - s));
    }
  }

  /** A number that was expanded from a compact form goes back to that form. */
  lemma CompactIdempotent(v: nat)
    requires |ToMpi(v)| < 0x100
    ensures Compacted(Expanded(Compacted(v))) == Compacted(v)
  {
    hide Leading, Rounded, Pow256, HasSize, ToMpi, Expanded;
    var s := |ToMpi(v)|;
    MpiHasSize(v);
    ExpandCompacted(v, s);
    var r := Rounded(v, s);
    RoundedHasSize(v, s);
    MpiHasSize(r);
    SizeMonotone(r, r, s, |ToMpi(r)|);
    SizeMonotone(r, r, |ToMpi(r)|, s);
    LeadingRounded(v, s);
  }

  lemma LeadingRounded(v: nat, s: nat)
    ensures Leading(Rounded(v, s), s) == Leading(v, s)
  {
    hide Quot, Pow256;
    if s >= 3 {
      QuotIs(Quot(v, Pow256(s - 3)), Pow256(s - 3), 0);
    }
  }

  lemma RoundedHasSize(v: nat, s: nat)
    requires HasSize(v, s)
    ensures HasSize(Rounded(v, s), s)
  {
    if s >= 3 {
      var p := Pow256(s - 3);
      LeadingBound(v, s);
      hide Quot;
      MulAtLeast(0x8000, Quot(v, p), p);
      assert Pow256(s - 2) == 256 * p;
    }
  }

  // -------------------------------------------------------------------------- the code

  function At(b: seq<byte>, i: nat): (c: int)
    ensures 0 <= c < 256
  {
    if i < |b| then b[i] else 0
  }

  function Zeros(n: nat): (z: seq<byte>)
    ensures |z| == n
  {
    seq(n, _ => 0)
  }

  lemma {:induction false} ZerosValue(n: nat)
    ensures FromBytes(Zeros(n)) == 0
  {
    if n > 0 {
      assert Zeros(n)[..n - 1] == Zeros(n - 1);
      ZerosValue(n - 1);
    }
  }

  lemma SmallValues(b: seq<byte>)
    ensures |b| == 1 ==> FromBytes(b) == b[0] as int
    ensures |b| == 2 ==> FromBytes(b) == b[0] as int * 0x100 + b[1] as int
    ensures |b| == 3 ==> FromBytes(b) == b[0] as int * 0x1_0000 + b[1] as int * 0x100 + b[2] as int
  {
    if |b| == 1 {
      assert b[..0] == [];
    } else if |b| == 2 {
      assert b[..1][..0] == [];
    } else if |b| == 3 {
      assert b[..2][..1] == b[..1] && b[..1][..0] == [];
    }
  }

  /** The first three bytes are the leading ones. */
  lemma FirstThree(b: seq<byte>)
    ensures At(b, 0) * 0x1_0000 + At(b, 1) * 0x100 + At(b, 2) == Leading(FromBytes(b), |b|)
  {
    if |b| >= 3 {
      assert b == b[..3] + b[3..];
      ValueAppend(b[..3], b[3..]);
      ValueBound(b[3..]);
      SmallValues(b[..3]);
      QuotIs(FromBytes(b[..3]), Pow256(|b| - 3), FromBytes(b[3..]));
    } else {
      SmallValues(b);
      assert Pow256(1) == 0x100 && Pow256(2) == 0x1_0000 && Pow256(3) == 0x100_0000;
    }
  }

  /** The bytes with the sign taken out of the first. */
  function Unsigned(b: seq<byte>): (u: seq<byte>)
    ensures |u| == |b|
  {
    if b != [] && b[0] >= 0x80 then b[0 := b[0] - 0x80] else b
  }

  lemma UnsignedMpi(v: int)
    ensures FromBytes(Unsigned(ToMpi(v))) == Abs(v) && (ToMpi(v) != [] && ToMpi(v)[0] >= 0x80 <==> v < 0)
  {
    MpiRoundTrip(v);
    MpiHasSize(Abs(v));
    if v < 0 {
      var m := Magnitude(Abs(v));
      MagnitudeValue(Abs(v));
      var padded := if m[0] >= 0x80 then [0] + m else m;
      assert Unsigned(ToMpi(v)) == padded;
    }
  }

  class CBigNum {
    var bn: int

    constructor (n: int)
      ensures bn == n
    {
      bn := n;
    }

    method SetCompact(nCompact: nat)
      requires nCompact < 0x1_0000_0000
      modifies this
      ensures bn == Expanded(nCompact)
    {
      var nSize := nCompact / 0x100_0000;
      var vch: seq<byte> := Zeros(nSize);
      if nSize >= 1 {
        vch := vch[0 := nCompact / 0x1_0000 % 0x100];
      }
      if nSize >= 2 {
        vch := vch[1 := nCompact / 0x100 % 0x100];
      }
      if nSize >= 3 {
        vch := vch[2 := nCompact % 0x100];
      }
      BytesOfCompact(nCompact, vch);
      bn := OfMpi(vch);
    }

    method GetCompact() returns (nCompact: nat)
      ensures nCompact == Compacted(bn)
    {
      var vch := ToMpi(bn);
      var nSize := |vch|;
      UnsignedMpi(bn);
      FirstThree(Unsigned(vch));
      hide ToMpi, FromBytes;
      nCompact := nSize % 0x100 * 0x100_0000;
      if nSize >= 1 {
        nCompact := nCompact + vch[0] as int * 0x1_0000;
      }
      if nSize >= 2 {
        nCompact := nCompact + vch[1] as int * 0x100;
      }
      if nSize >= 3 {
        nCompact := nCompact + vch[2] as int;
      }
    }
  }

  /** The three low bytes of a compact form, cut to its size and filled up with zeros. */
  lemma BytesOfCompact(n: nat, vch: seq<byte>)
    requires n < 0x1_0000_0000 && |vch| == n / 0x100_0000
    requires forall i :: 0 <= i < |vch| ==> vch[i] == CompactByte(n, i)
    ensures OfMpi(vch) == Expanded(n)
  {
    CompactParts(n);
    MagnitudeOfBytes(n, Unsigned(vch));
    hide Quot, Pow256, FromBytes;
  }

  lemma CompactParts(n: nat)
    ensures n % 0x80_0000 == n / 0x1_0000 % 0x80 * 0x1_0000 + n / 0x100 % 0x100 * 0x100 + n % 0x100
    ensures n / 0x1_0000 % 0x100 == n / 0x1_0000 % 0x80 + n / 0x80_0000 % 2 * 0x80
  {
    var n1, c2 := n / 0x100, n % 0x100;
    var n2, c1 := n1 / 0x100, n1 % 0x100;
    var h, b0 := n2 / 0x80, n2 % 0x80;
    var h2, sign := h / 2, h % 2;
    assert n == 0x1_0000 * n2 + (0x100 * c1 + c2);
    assert n / 0x1_0000 == n2;
    assert n == 0x80_0000 * h + (0x1_0000 * b0 + 0x100 * c1 + c2);
    assert n / 0x80_0000 == h && n % 0x80_0000 == 0x1_0000 * b0 + 0x100 * c1 + c2;
    assert n2 == 0x100 * h2 + (0x80 * sign + b0);
    assert n2 % 0x100 == 0x80 * sign + b0;
  }

  /** The magnitude, by the size. */
  lemma MagnitudeOfBytes(n: nat, u: seq<byte>)
    requires |u| == n / 0x100_0000
    requires forall i :: 0 <= i < |u| ==> u[i] == if i == 0 then n / 0x1_0000 % 0x80 else CompactByte(n, i)
    ensures FromBytes(u) == if |u| >= 3 then n % 0x80_0000 * Pow256(|u| - 3) else Quot(n % 0x80_0000, Pow256(3 - |u|))
  {
    var s := |u|;
    var b0: byte, b1: byte, b2: byte := n / 0x1_0000 % 0x80, n / 0x100 % 0x100, n % 0x100;
    CompactParts(n);
    SmallValues(u);
    assert Pow256(1) == 0x100 && Pow256(2) == 0x1_0000 && Pow256(3) == 0x100_0000;
    hide Quot;
    if s >= 3 {
      hide Pow256;
      assert u == [b0, b1, b2] + Zeros(s - 3);
      ValueAppend([b0, b1, b2], Zeros(s - 3));
      SmallValues([b0, b1, b2]);
      ZerosValue(s - 3);
    } else if s == 2 {
      QuotIs(b0 as int * 0x100 + b1 as int, 0x100, b2);
    } else if s == 1 {
      QuotIs(b0, 0x1_0000, b1 as int * 0x100 + b2 as int);
    } else {
      QuotIs(0, 0x100_0000, n % 0x80_0000);
    }
  }

  function CompactByte(n: nat, i: nat): byte {
    if i == 0 then n / 0x1_0000 % 0x100 else if i == 1 then n / 0x100 % 0x100 else if i == 2 then n % 0x100 else 0
  }
}
