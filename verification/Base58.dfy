/** Base 58 (src/base58.h): byte strings as numbers in base 58, leading zeros kept apart, and the
    same with a checksum. */
module Base58 {
  import opened Wrappers
  import opened Numbers
  import opened BigNum

  type digit = d: int | 0 <= d < 58

  /** The character of a digit, from the six runs of the alphabet: 1 to 9, A to H, J to N,
      P to Z, a to k and m to z. */
  function Char(d: digit): char {
    if d < 9 then '1' + d as char
    else if d < 17 then 'A' + (d - 9) as char
    else if d < 22 then 'J' + (d - 17) as char
    else if d < 33 then 'P' + (d - 22) as char
    else if d < 44 then 'a' + (d - 33) as char
    else 'm' + (d - 44) as char
  }

  /** Where strchr finds a character. */
  function Index(c: char): (r: Option<digit>)
    ensures r.Some? ==> Char(r.value) == c
  {
    if '1' <= c <= '9' then Some((c - '1') as int)
    else if 'A' <= c <= 'H' then Some((c - 'A') as int + 9)
    else if 'J' <= c <= 'N' then Some((c - 'J') as int + 17)
    else if 'P' <= c <= 'Z' then Some((c - 'P') as int + 22)
    else if 'a' <= c <= 'k' then Some((c - 'a') as int + 33)
    else if 'm' <= c <= 'z' then Some((c - 'm') as int + 44)
    else None
  }

  lemma CharIndex(d: digit)
    ensures Index(Char(d)) == Some(d) && !IsSpace(Char(d)) && (Char(d) == '1' <==> d == 0)
  {
  }

  predicate IsSpace(c: char) {
    c == ' ' || '\t' <= c <= '\r'
  }

  lemma SpaceIsNoDigit(c: char)
    ensures IsSpace(c) ==> Index(c).None?
  {
  }

  lemma ReversePush<T>(s: seq<T>, x: T)
    ensures Reverse(s + [x]) == [x] + Reverse(s)
  {
  }

  lemma ReverseDropLast<T>(s: seq<T>)
    requires s != []
    ensures Reverse(s[..|s| - 1]) == Reverse(s)[1..]
  {
  }

  lemma ReverseTwice<T>(s: seq<T>)
    ensures Reverse(Reverse(s)) == s
  {
  }

  // ---------------------------------------------------------------- numbers in base 58

  function Value58(s: string): nat {
    if s == "" then 0
    else Value58(s[..|s| - 1]) * 58 + if Index(s[|s| - 1]).Some? then Index(s[|s| - 1]).value else 0
  }

  function Digits58(n: nat): string {
    if n == 0 then "" else Digits58(n / 58) + [Char(n % 58)]
  }

  predicate OverAlphabet(s: string) {
    forall i :: 0 <= i < |s| ==> Index(s[i]).Some?
  }

  lemma {:induction false} DigitsValue(n: nat)
    ensures Value58(Digits58(n)) == n && OverAlphabet(Digits58(n))
    ensures n > 0 ==> Digits58(n) != "" && Digits58(n)[0] != '1'
  {
    if n > 0 {
      DigitsValue(n / 58);
      CharIndex(n % 58);
      assert Digits58(n)[..|Digits58(n)| - 1] == Digits58(n / 58);
    }
  }

  lemma {:induction false} DigitsUnique(s: string)
    requires OverAlphabet(s) && (s != "" ==> s[0] != '1')
    ensures Digits58(Value58(s)) == s && (s != "" ==> Value58(s) > 0)
  {
    if s != "" {
      var n := |s| - 1;
      var d := Index(s[n]).value;
      DigitsUnique(s[..n]);
      CharIndex(d);
      assert Value58(s) / 58 == Value58(s[..n]) && Value58(s) % 58 == d;
      assert s == s[..n] + [s[n]];
    }
  }

  // ------------------------------------------------------------------- leading zeros

  /** How often a string begins with x. */
  function Leading<T(==)>(s: seq<T>, x: T): (n: nat)
    ensures n <= |s| && (forall i :: 0 <= i < n ==> s[i] == x) && (n < |s| ==> s[n] != x)
  {
    if s != [] && s[0] == x then 1 + Leading(s[1..], x) else 0
  }

  function Repeat<T>(x: T, n: nat): (s: seq<T>)
    ensures |s| == n
  {
    seq(n, _ => x)
  }

  lemma LeadingSplit<T>(s: seq<T>, x: T)
    ensures s == Repeat(x, Leading(s, x)) + s[Leading(s, x)..]
  {
  }

  lemma LeadingIs<T>(x: T, n: nat, rest: seq<T>)
    requires rest == [] || rest[0] != x
    ensures Leading(Repeat(x, n) + rest, x) == n
  {
    var s := Repeat(x, n) + rest;
    assert forall i :: 0 <= i < n ==> s[i] == x;
    assert n < |s| ==> s[n] == rest[0];
  }

  // --------------------------------------------------------------- what the two compute

  function Encode(v: seq<byte>): string {
    Repeat('1', Leading(v, 0)) + Digits58(FromBytes(v))
  }

  function DecodeBody(s: string): seq<byte> {
    Repeat(0, Leading(s, '1')) + Magnitude(Value58(s))
  }

  lemma {:induction false} LeadingZerosWorthNothing(n: nat, b: seq<byte>)
    ensures FromBytes(Repeat(0, n) + b) == FromBytes(b)
  {
    if n == 0 {
      assert Repeat(0, 0) + b == b;
    } else {
      LeadingZerosWorthNothing(n - 1, b);
      ZeroPad(Repeat(0, n - 1) + b);
      assert Repeat(0, n) + b == [0] + (Repeat(0, n - 1) + b);
    }
  }

  lemma {:induction false} LeadingOnesWorthNothing(n: nat, s: string)
    ensures Value58(Repeat('1', n) + s) == Value58(s)
    decreases |s|, n
  {
    if s != "" {
      LeadingOnesWorthNothing(n, s[..|s| - 1]);
      assert (Repeat('1', n) + s)[..n + |s| - 1] == Repeat('1', n) + s[..|s| - 1];
    } else if n > 0 {
      LeadingOnesWorthNothing(n - 1, s);
      assert (Repeat('1', n) + s)[..n - 1] == Repeat('1', n - 1) + s;
    }
  }

  /** Decoding what was encoded gives back every byte string, its leading zeros included. */
  lemma DecodeEncode(v: seq<byte>)
    ensures OverAlphabet(Encode(v)) && DecodeBody(Encode(v)) == v
  {
    var z := Leading(v, 0);
    var n := FromBytes(v);
    DigitsValue(n);
    LeadingIs('1', z, Digits58(n));
    LeadingOnesWorthNothing(z, Digits58(n));
    LeadingSplit(v, 0);
    LeadingZerosWorthNothing(z, v[z..]);
    MagnitudeUnique(v[z..]);
  }

  /** And encoding what was decoded gives back every string over the alphabet. */
  lemma EncodeDecode(s: string)
    requires OverAlphabet(s)
    ensures Encode(DecodeBody(s)) == s
  {
    var z := Leading(s, '1');
    var n := Value58(s);
    LeadingSplit(s, '1');
    LeadingOnesWorthNothing(z, s[z..]);
    DigitsUnique(s[z..]);
    MagnitudeValue(n);
    LeadingIs(0, z, Magnitude(n));
    LeadingZerosWorthNothing(z, Magnitude(n));
  }

  function DropSpaces(s: string): string {
    if s != "" && IsSpace(s[0]) then DropSpaces(s[1..]) else s
  }

  /** How many characters of the alphabet a string begins with. */
  function Run(s: string): (n: nat)
    ensures n <= |s| && OverAlphabet(s[..n]) && (n < |s| ==> Index(s[n]).None?)
  {
    if s != "" && Index(s[0]).Some? then
      assert forall i :: 0 < i < 1 + Run(s[1..]) ==> s[i] == s[1..][i - 1];
      1 + Run(s[1..])
    else 0
  }

  /** Spaces, characters of the alphabet and spaces: a number.  Anything else fails. */
  function Decode(psz: string): Option<seq<byte>> {
    var t := DropSpaces(psz);
    if DropSpaces(t[Run(t)..]) == "" then Some(DecodeBody(t[..Run(t)])) else None
  }

  lemma RunOverAlphabet(s: string)
    requires OverAlphabet(s)
    ensures Run(s) == |s| && DropSpaces(s) == s
  {
    if s != "" {
      SpaceIsNoDigit(s[0]);
    }
  }

  /** The two round trips. */
  lemma RoundTrips(v: seq<byte>, s: string)
    ensures Decode(Encode(v)) == Some(v)
    ensures OverAlphabet(s) ==> Decode(s).Some? && Encode(Decode(s).value) == s
  {
    DecodeEncode(v);
    RunOverAlphabet(Encode(v));
    assert Encode(v)[..|Encode(v)|] == Encode(v);
    if OverAlphabet(s) {
      EncodeDecode(s);
      RunOverAlphabet(s);
      assert s[..|s|] == s;
    }
  }

  // ----------------------------------------------------------------------- the checksum

  type HashFn = seq<byte> -> seq<byte>

  function WithChecksum(hash: HashFn, v: seq<byte>): seq<byte>
    requires |hash(v)| >= 4
  {
    v + hash(v)[..4]
  }

  /** Exactly the encodings of payloads with their checksum decode, and to the payload. */
  function DecodeCheck(hash: HashFn, psz: string): Option<seq<byte>>
    requires forall v :: |hash(v)| >= 4
  {
    if Decode(psz).None? || |Decode(psz).value| < 4 then None
    else
      var w := Decode(psz).value;
      var payload := w[..|w| - 4];
      if hash(payload)[..4] == w[|w| - 4..] then Some(payload) else None
  }

  lemma CheckRoundTrips(hash: HashFn, v: seq<byte>, s: string)
    requires forall w :: |hash(w)| >= 4
    ensures DecodeCheck(hash, Encode(WithChecksum(hash, v))) == Some(v)
    ensures OverAlphabet(s) ==> (DecodeCheck(hash, s) == Some(v) <==> s == Encode(WithChecksum(hash, v)))
  {
    var w := WithChecksum(hash, v);
    RoundTrips(w, s);
    assert w[..|w| - 4] == v && w[|w| - 4..] == hash(v)[..4];
    if OverAlphabet(s) && DecodeCheck(hash, s) == Some(v) {
      assert Decode(s).value == v + hash(v)[..4];
    }
  }

  // -------------------------------------------------------------------------- the code

  function SetVch(vch: seq<byte>): int {
    OfMpi(Reverse(vch))
  }

  function GetVch(bn: int): seq<byte> {
    Reverse(ToMpi(bn))
  }

  lemma SetVchOfBytes(v: seq<byte>)
    ensures SetVch(Reverse(v) + [0]) == FromBytes(v)
  {
    assert Reverse(Reverse(v) + [0]) == [0] + v;
    ZeroPad(v);
  }

  lemma NothingOut(bn: nat)
    ensures Digits58(bn) == Digits58(bn) + Reverse("")
  {
  }

  /** The lowest digit moves to the end of the string, which is read backwards. */
  lemma DigitOut(bn: nat, str: string)
    requires bn > 0
    ensures Digits58(bn) + Reverse(str) == Digits58(bn / 58) + Reverse(str + [Char(bn % 58)])
  {
    hide Char;
    ReversePush(str, Char(bn % 58));
  }

  lemma AllOut(str: string)
    ensures Digits58(0) + Reverse(str) == Reverse(str) == Repeat('1', 0) + Reverse(str)
  {
  }

  lemma ZeroOut(str: string, p: nat, digits: string)
    requires Reverse(str) == Repeat('1', p) + digits
    ensures Reverse(str + [Char(0)]) == Repeat('1', p + 1) + digits
  {
    ReversePush(str, Char(0));
    assert Repeat('1', p + 1) == ['1'] + Repeat('1', p);
  }

  method EncodeBase58(v: seq<byte>) returns (str: string)
    ensures str == Encode(v)
  {
    hide Digits58, Char, Repeat, FromBytes, SetVch;
    var vchTmp := Reverse(v) + [0];
    var bn := SetVch(vchTmp);
    SetVchOfBytes(v);
    str := "";
    NothingOut(bn);
    while bn > 0
      invariant bn >= 0 && Digits58(FromBytes(v)) == Digits58(bn) + Reverse(str)
    {
      DigitOut(bn, str);
      var c := bn % 58;
      bn := bn / 58;
      str := str + [Char(c)];
    }
    AllOut(str);
    var p := 0;
    while p < |v| && v[p] == 0
      invariant 0 <= p <= Leading(v, 0)
      invariant Reverse(str) == Repeat('1', p) + Digits58(FromBytes(v))
    {
      ZeroOut(str, p, Digits58(FromBytes(v)));
      str := str + [Char(0)];
      p := p + 1;
    }
    str := Reverse(str);
  }

  /** The place behind the spaces that start at `from`. */
  method SkipSpaces(s: string, from: nat) returns (p: nat)
    requires from <= |s|
    ensures from <= p <= |s| && s[p..] == DropSpaces(s[from..])
  {
    p := from;
    while p < |s| && IsSpace(s[p])
      invariant from <= p <= |s| && DropSpaces(s[p..]) == DropSpaces(s[from..])
    {
      assert s[p..][1..] == s[p + 1..];
      p := p + 1;
    }
  }

  /** getvch, without the sign byte. */
  method BytesOf(bn: nat) returns (vchTmp: seq<byte>)
    ensures Reverse(vchTmp) == Magnitude(bn)
  {
    hide ToMpi, Magnitude, Reverse;
    vchTmp := GetVch(bn);
    SignByte(bn);
    ReverseTwice(ToMpi(bn));
    var n := |vchTmp|;
    if n >= 2 && vchTmp[n - 1] == 0 && vchTmp[n - 2] >= 0x80 {
      ReverseDropLast(vchTmp);
      vchTmp := vchTmp[..n - 1];
    }
  }

  /** A zero byte in front, and a large one after it, mean that the first is for the sign. */
  lemma SignByte(bn: nat)
    ensures var b := ToMpi(bn);
      Magnitude(bn) == if |b| >= 2 && b[0] == 0 && b[1] >= 0x80 then b[1..] else b
  {
    MagnitudeValue(bn);
    var m := Magnitude(bn);
    assert ([0] + m)[1..] == m;
  }

  /** The loop over the characters. */
  method ReadDigits(t: string) returns (bn: nat, p: nat)
    ensures p == Run(t) && bn == Value58(t[..p])
  {
    bn, p := 0, 0;
    while p < |t| && Index(t[p]).Some?
      invariant 0 <= p <= |t| && p <= Run(t) && bn == Value58(t[..p])
    {
      RunGoesOn(t, p);
      assert t[..p + 1][..p] == t[..p];
      bn := bn * 58 + Index(t[p]).value;
      p := p + 1;
    }
    RunStops(t, p);
  }

  lemma RunGoesOn(t: string, p: nat)
    requires p <= Run(t) && p < |t| && Index(t[p]).Some?
    ensures p < Run(t)
  {
  }

  lemma RunStops(t: string, p: nat)
    requires p <= Run(t) && (p < |t| ==> Index(t[p]).None?)
    ensures p == Run(t)
  {
    assert forall i :: 0 <= i < Run(t) ==> t[..Run(t)][i] == t[i];
  }

  lemma LeadingOfRun(t: string)
    ensures Leading(t[..Run(t)], '1') == Leading(t, '1')
  {
    var n := Run(t);
    var u := t[..n];
    LeadingSplit(u, '1');
    var z := Leading(u, '1');
    assert t == Repeat('1', z) + t[z..];
    LeadingIs('1', z, t[z..]);
  }

  method DecodeBase58(psz: string) returns (ok: bool, vchRet: seq<byte>)
    ensures ok <==> Decode(psz).Some?
    ensures ok ==> vchRet == Decode(psz).value
    ensures !ok ==> vchRet == []
  {
    hide Run, DropSpaces, Value58, Magnitude, Repeat, Index;
    vchRet := [];
    var start := SkipSpaces(psz, 0);
    assert psz[0..] == psz;
    var t := psz[start..];
    var bn, p := ReadDigits(t);
    var end := SkipSpaces(t, p);
    if end < |t| {
      return false, [];
    }
    var vchTmp := BytesOf(bn);
    var nLeadingZeros := 0;
    while nLeadingZeros < |t| && t[nLeadingZeros] == '1'
      invariant 0 <= nLeadingZeros <= Leading(t, '1')
    {
      nLeadingZeros := nLeadingZeros + 1;
    }
    LeadingOfRun(t);
    vchRet := Repeat(0, nLeadingZeros) + Reverse(vchTmp);
    ok := true;
  }

  method EncodeBase58Check(hash: HashFn, vchIn: seq<byte>) returns (str: string)
    requires |hash(vchIn)| >= 4
    ensures str == Encode(WithChecksum(hash, vchIn))
  {
    var vch := vchIn;
    var h := hash(vch);
    vch := vch + h[..4];
    str := EncodeBase58(vch);
  }

  method DecodeBase58Check(hash: HashFn, psz: string) returns (ok: bool, vchRet: seq<byte>)
    requires forall v :: |hash(v)| >= 4
    ensures ok <==> DecodeCheck(hash, psz).Some?
    ensures ok ==> vchRet == DecodeCheck(hash, psz).value
    ensures !ok ==> vchRet == []
  {
    ok, vchRet := DecodeBase58(psz);
    if !ok {
      return false, [];
    }
    var n := |vchRet|;
    if n < 4 {
      return false, [];
    }
    var h := hash(vchRet[..n - 4]);
    if h[..4] != vchRet[n - 4..] {
      return false, [];
    }
    vchRet := vchRet[..n - 4];
  }
}
