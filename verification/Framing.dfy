/**
 The shape of messages on the wire (src/protocol.h, src/net.h), and the stream of bytes they
 make: what a receiver that takes one byte at a time would have.
 */
module Framing {
  import opened Numbers

  const MAX_SIZE: nat := 0x02000000
  const MESSAGE_SIZE_OFFSET: nat := 16
  const CHECKSUM_OFFSET: nat := 20
  const HEADER_SIZE: nat := 24

  /** A little-endian 32-bit number. */
  function Le32(b: seq<byte>): (n: nat)
    requires |b| == 4
    ensures n < 0x1_0000_0000
  {
    b[0] as int + 0x100 * (b[1] as int) + 0x1_0000 * (b[2] as int) + 0x100_0000 * (b[3] as int)
  }

  function ToLe32(n: nat): (b: seq<byte>)
    ensures |b| == 4 && Le32(b) == n % 0x1_0000_0000
  {
    var n1 := n / 0x100;
    var n2 := n1 / 0x100;
    var n3 := n2 / 0x100;
    Digits(n, n1, n2, n3, n3 / 0x100);
    [n % 0x100, n1 % 0x100, n2 % 0x100, n3 % 0x100]
  }

  lemma Digits(n: nat, n1: nat, n2: nat, n3: nat, n4: nat)
    requires n1 == n / 0x100 && n2 == n1 / 0x100 && n3 == n2 / 0x100 && n4 == n3 / 0x100
    ensures n % 0x100 + 0x100 * (n1 % 0x100) + 0x1_0000 * (n2 % 0x100) + 0x100_0000 * (n3 % 0x100) == n % 0x1_0000_0000
  {
    var b0, b1, b2, b3 := n % 0x100, n1 % 0x100, n2 % 0x100, n3 % 0x100;
    assert n == 0x100 * n1 + b0;
    assert n1 == 0x100 * n2 + b1;
    assert n2 == 0x100 * n3 + b2;
    assert n3 == 0x100 * n4 + b3;
    LowWord(n4, b0 + 0x100 * b1 + 0x1_0000 * b2 + 0x100_0000 * b3);
  }

  lemma LowWord(q: nat, r: nat)
    requires r < 0x1_0000_0000
    ensures (0x1_0000_0000 * q + r) % 0x1_0000_0000 == r
  {
  }

  datatype MessageHeader = MessageHeader(pchMessageStart: seq<byte>, pchCommand: seq<byte>, nMessageSize: nat,
    nChecksum: nat)

  function DecodeHeader(h: seq<byte>): MessageHeader
    requires |h| == HEADER_SIZE
  {
    MessageHeader(h[..4], h[4..16], Le32(h[16..20]), Le32(h[20..]))
  }

  /** The payload size a header announces. */
  function Announced(p: seq<byte>): nat
    requires |p| >= HEADER_SIZE
  {
    DecodeHeader(p[..HEADER_SIZE]).nMessageSize
  }

  predicate Whole(p: seq<byte>) {
    |p| >= HEADER_SIZE && |p| == HEADER_SIZE + Announced(p)
  }

  predicate TooBig(p: seq<byte>) {
    |p| == HEADER_SIZE && Announced(p) > MAX_SIZE
  }

  /** A message a receiver takes. */
  predicate Framed(m: seq<byte>) {
    Whole(m) && Announced(m) <= MAX_SIZE
  }

  /** The whole messages so far and the bytes of the one under way. */
  datatype Stream = Stream(done: seq<seq<byte>>, part: seq<byte>) | Failed

  const Start := Stream([], [])

  function Judge(done: seq<seq<byte>>, p: seq<byte>): Stream {
    if TooBig(p) then Failed
    else if Whole(p) then Stream(done + [p], [])
    else Stream(done, p)
  }

  function Step(st: Stream, b: byte): Stream {
    if st.Failed? then Failed else Judge(st.done, st.part + [b])
  }

  /** What the bytes make of a stream. */
  function Feed(st: Stream, bytes: seq<byte>): Stream {
    if bytes == [] then st else Step(Feed(st, bytes[..|bytes| - 1]), bytes[|bytes| - 1])
  }

  /** It does not matter in which pieces the bytes arrive. */
  lemma {:induction false} FeedInPieces(st: Stream, a: seq<byte>, b: seq<byte>)
    ensures Feed(st, a + b) == Feed(Feed(st, a), b)
  {
    if b == [] {
      assert a + b == a;
    } else {
      var n := |b| - 1;
      FeedInPieces(st, a, b[..n]);
      assert (a + b)[..|a + b| - 1] == a + b[..n];
    }
  }

  /** Going on from position `at`, by n bytes or to the end. */
  lemma FeedOn(st: Stream, bytes: seq<byte>, at: nat, n: nat)
    requires at + n <= |bytes|
    ensures Feed(st, bytes[..at + n]) == Feed(Feed(st, bytes[..at]), bytes[at..][..n])
    ensures Feed(st, bytes) == Feed(Feed(st, bytes[..at]), bytes[at..])
  {
    FeedInPieces(st, bytes[..at], bytes[at..][..n]);
    assert bytes[..at + n] == bytes[..at] + bytes[at..][..n];
    FeedInPieces(st, bytes[..at], bytes[at..]);
    assert bytes == bytes[..at] + bytes[at..];
  }

  /** A piece that ends at or before the end of the header, or of the message, under way. */
  lemma {:induction false} FeedWithin(done: seq<seq<byte>>, part: seq<byte>, bytes: seq<byte>)
    requires bytes != []
    requires forall j :: 0 < j < |bytes| ==> !Whole(part + bytes[..j]) && !TooBig(part + bytes[..j])
    ensures Feed(Stream(done, part), bytes) == Judge(done, part + bytes)
  {
    var n := |bytes| - 1;
    assert part + bytes == (part + bytes[..n]) + [bytes[n]];
    if n > 0 {
      forall j | 0 < j < n ensures !Whole(part + bytes[..n][..j]) && !TooBig(part + bytes[..n][..j]) {
        assert bytes[..n][..j] == bytes[..j];
      }
      FeedWithin(done, part, bytes[..n]);
    } else {
      assert part + bytes[..n] == part;
    }
  }

  /** A piece of the header under way. */
  lemma FeedHeader(done: seq<seq<byte>>, part: seq<byte>, bytes: seq<byte>)
    requires bytes != [] && |part| + |bytes| <= HEADER_SIZE
    ensures Feed(Stream(done, part), bytes) == Judge(done, part + bytes)
  {
    FeedWithin(done, part, bytes);
  }

  /** A piece of the payload under way. */
  lemma FeedData(done: seq<seq<byte>>, part: seq<byte>, bytes: seq<byte>)
    requires bytes != [] && |part| >= HEADER_SIZE && |part| + |bytes| <= HEADER_SIZE + Announced(part)
    ensures Feed(Stream(done, part), bytes) == Judge(done, part + bytes)
  {
    forall j | 0 < j < |bytes| ensures !Whole(part + bytes[..j]) && !TooBig(part + bytes[..j]) {
      assert (part + bytes[..j])[..HEADER_SIZE] == part[..HEADER_SIZE];
    }
    FeedWithin(done, part, bytes);
  }

  lemma {:induction false} FeedFailed(bytes: seq<byte>)
    ensures Feed(Failed, bytes) == Failed
  {
    if bytes != [] {
      FeedFailed(bytes[..|bytes| - 1]);
    }
  }

  function Concat(msgs: seq<seq<byte>>): (r: seq<byte>) {
    if msgs == [] then [] else msgs[0] + Concat(msgs[1..])
  }

  function TotalSize(msgs: seq<seq<byte>>): (n: nat) {
    if msgs == [] then 0 else |msgs[0]| + TotalSize(msgs[1..])
  }

  lemma {:induction false} ConcatAppend(msgs: seq<seq<byte>>, m: seq<byte>)
    ensures Concat(msgs + [m]) == Concat(msgs) + m
    ensures TotalSize(msgs + [m]) == TotalSize(msgs) + |m|
  {
    if msgs == [] {
      assert msgs + [m] == [m];
    } else {
      ConcatAppend(msgs[1..], m);
      assert (msgs + [m])[1..] == msgs[1..] + [m];
    }
  }

  lemma {:induction false} ConcatSplit(msgs: seq<seq<byte>>, n: nat)
    requires n < |msgs|
    ensures Concat(msgs) == Concat(msgs[..n]) + msgs[n] + Concat(msgs[n + 1..])
  {
    if n > 0 {
      ConcatSplit(msgs[1..], n - 1);
      assert msgs[1..][..n - 1] == msgs[..n][1..] && msgs[1..][n..] == msgs[n + 1..];
    } else {
      assert msgs[..0] == [];
    }
  }

  /** A receiver of `got` has whole messages of the list, in order, and the first bytes of the
      next one. */
  predicate Received(st: Stream, msgs: seq<seq<byte>>, got: seq<byte>) {
    && st.Stream? && st.done <= msgs && got == Concat(st.done) + st.part
    && if |st.done| == |msgs| then st.part == [] else st.part < msgs[|st.done|]
  }

  lemma AllReceived(st: Stream, msgs: seq<seq<byte>>, got: seq<byte>)
    requires Received(st, msgs, got) && |st.done| == |msgs|
    ensures st.done == msgs && got == Concat(msgs)
  {
  }

  /** The next byte belongs to the message under way. */
  lemma NextByte(st: Stream, msgs: seq<seq<byte>>, got: seq<byte>, b: byte)
    requires Received(st, msgs, got) && got + [b] <= Concat(msgs)
    ensures |st.done| < |msgs| && st.part + [b] <= msgs[|st.done|]
    ensures got + [b] == Concat(st.done) + (st.part + [b])
  {
    hide Concat;
    var n := |st.done|;
    assert msgs[..n] == st.done;
    assert |got + [b]| <= |Concat(msgs)|;
    if n == |msgs| {
      AllReceived(st, msgs, got);
    }
    ConcatSplit(msgs, n);
    NextOf(Concat(st.done), msgs[n], Concat(msgs[n + 1..]), st.part, b);
  }

  lemma NextOf(before: seq<byte>, m: seq<byte>, rest: seq<byte>, part: seq<byte>, b: byte)
    requires part < m && before + part + [b] <= before + m + rest
    ensures part + [b] <= m
  {
    var k := |before| + |part|;
    assert b == (before + part + [b])[k] == (before + m + rest)[k] == m[|part|];
  }

  /** Of the beginnings of a framed message only the whole is complete, and none is too big. */
  lemma JudgePrefix(m: seq<byte>, p: seq<byte>)
    requires Framed(m) && p <= m
    ensures !TooBig(p) && (Whole(p) <==> p == m)
  {
    assert |p| >= HEADER_SIZE ==> p[..HEADER_SIZE] == m[..HEADER_SIZE];
  }

  lemma ReceivedStep(st: Stream, msgs: seq<seq<byte>>, got: seq<byte>, b: byte)
    requires forall i :: 0 <= i < |msgs| ==> Framed(msgs[i])
    requires Received(st, msgs, got) && got + [b] <= Concat(msgs)
    ensures Received(Step(st, b), msgs, got + [b])
  {
    NextByte(st, msgs, got, b);
    var n, p := |st.done|, st.part + [b];
    JudgePrefix(msgs[n], p);
    if p == msgs[n] {
      if n + 1 < |msgs| {
        FramedLength(msgs[n + 1]);
      }
      ReceivedWhole(st.done, msgs, p, got + [b]);
    } else {
      assert p < msgs[n];
      hide Whole, TooBig, Framed, Concat;
    }
  }

  /** The message under way is complete. */
  lemma ReceivedWhole(done: seq<seq<byte>>, msgs: seq<seq<byte>>, m: seq<byte>, got: seq<byte>)
    requires |done| < |msgs| && done <= msgs && m == msgs[|done|] && got == Concat(done) + m
    requires |done| + 1 < |msgs| ==> msgs[|done| + 1] != []
    ensures Received(Stream(done + [m], []), msgs, got)
  {
    ConcatAppend(done, m);
    hide Concat;
    assert done == msgs[..|done|];
    assert done + [m] == msgs[..|done| + 1];
  }

  lemma FramedLength(m: seq<byte>)
    requires Framed(m)
    ensures |m| >= HEADER_SIZE
  {
  }

  /** The main property of the framing: from any prefix of the bytes of framed messages a
      receiver has a prefix of the messages, and exactly the bytes left over. */
  lemma {:induction false} FeedPrefix(msgs: seq<seq<byte>>, got: seq<byte>)
    requires forall i :: 0 <= i < |msgs| ==> Framed(msgs[i])
    requires got <= Concat(msgs)
    ensures Received(Feed(Start, got), msgs, got)
  {
    if got != [] {
      var n := |got| - 1;
      FeedPrefix(msgs, got[..n]);
      assert got[..n] + [got[n]] == got;
      ReceivedStep(Feed(Start, got[..n]), msgs, got[..n], got[n]);
    } else {
      assert Concat([]) == [] && [] <= msgs;
    }
  }

  /** All the bytes make all the messages. */
  lemma FeedAll(msgs: seq<seq<byte>>)
    requires forall i :: 0 <= i < |msgs| ==> Framed(msgs[i])
    ensures Feed(Start, Concat(msgs)) == Stream(msgs, [])
  {
    FeedPrefix(msgs, Concat(msgs));
    var st := Feed(Start, Concat(msgs));
    var n := |st.done|;
    assert msgs[..n] == st.done;
    if n < |msgs| {
      ConcatSplit(msgs, n);
    }
  }

  /** The state after a list of pieces. */
  function FeedEach(st: Stream, pieces: seq<seq<byte>>): Stream
    decreases |pieces|
  {
    if pieces == [] then st else FeedEach(Feed(st, pieces[0]), pieces[1..])
  }

  /** Only the bytes matter, not how they were cut. */
  lemma {:induction false} CutsDoNotMatter(st: Stream, pieces: seq<seq<byte>>)
    ensures FeedEach(st, pieces) == Feed(st, Concat(pieces))
    decreases |pieces|
  {
    if pieces != [] {
      CutsDoNotMatter(Feed(st, pieces[0]), pieces[1..]);
      FeedInPieces(st, pieces[0], Concat(pieces[1..]));
    }
  }

  /** A serialised message with its size and checksum filled in. */
  function Finished(ss: seq<byte>, checksum: seq<byte>): (m: seq<byte>)
    requires |ss| >= HEADER_SIZE && |checksum| == 4
    ensures |m| == |ss|
  {
    ss[..MESSAGE_SIZE_OFFSET] + ToLe32(|ss| - HEADER_SIZE) + checksum + ss[HEADER_SIZE..]
  }

  /** The header announces the length of the payload, as far as 32 bits can. */
  ghost predicate SizedRight(m: seq<byte>) {
    |m| >= HEADER_SIZE && Announced(m) == (|m| - HEADER_SIZE) % 0x1_0000_0000
  }

  lemma SizedFramed(m: seq<byte>)
    requires SizedRight(m)
    ensures Framed(m) <==> |m| - HEADER_SIZE <= MAX_SIZE
  {
  }

  /** The receiver takes it exactly when the payload is at most MAX_SIZE long, and then finds the
      command, the payload and the checksum of it. */
  lemma FinishedFramed(ss: seq<byte>, checksum: seq<byte>)
    requires |ss| >= HEADER_SIZE && |checksum| == 4
    ensures SizedRight(Finished(ss, checksum))
    ensures Framed(Finished(ss, checksum)) <==> |ss| - HEADER_SIZE <= MAX_SIZE
    ensures Finished(ss, checksum)[HEADER_SIZE..] == ss[HEADER_SIZE..]
    ensures var h := DecodeHeader(Finished(ss, checksum)[..HEADER_SIZE]);
      && h.pchMessageStart == ss[..4] && h.pchCommand == ss[4..MESSAGE_SIZE_OFFSET]
      && h.nChecksum == Le32(checksum) && h.nMessageSize == (|ss| - HEADER_SIZE) % 0x1_0000_0000
  {
    var m := Finished(ss, checksum);
    var h := m[..HEADER_SIZE];
    assert h[16..20] == ToLe32(|ss| - HEADER_SIZE);
    assert h[20..] == checksum;
    assert h[..4] == ss[..4] && h[4..16] == ss[4..16];
  }
}
