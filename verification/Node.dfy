/** The send queue and the receive parser of a peer (CNode and CNetMessage in src/net.h and
    src/net.cpp). */
module Node {
  import opened Numbers
  import opened Framing

  class CNetMessage {
    var in_data: bool
    var hdrbuf: seq<byte>
    var hdr: MessageHeader
    var nHdrPos: nat
    var vRecv: seq<byte>
    var nDataPos: nat

    constructor ()
      ensures Valid() && Raw() == [] && !in_data
    {
      hdrbuf := seq(HEADER_SIZE, _ => 0);
      hdr := MessageHeader([], [], 0, 0);
      in_data, nHdrPos, vRecv, nDataPos := false, 0, [], 0;
    }

    predicate Complete()
      reads this
    {
      in_data && hdr.nMessageSize == nDataPos
    }

    ghost predicate Valid()
      reads this
    {
      && |hdrbuf| == HEADER_SIZE
      && (!in_data ==> nHdrPos < HEADER_SIZE && nDataPos == 0)
      && (in_data ==> nHdrPos == HEADER_SIZE && hdr == DecodeHeader(hdrbuf) && hdr.nMessageSize <= MAX_SIZE
                      && nDataPos <= |vRecv| == hdr.nMessageSize)
    }

    /** The bytes of this message that have arrived. */
    ghost function Raw(): seq<byte>
      reads this
      requires Valid()
    {
      hdrbuf[..nHdrPos] + if in_data then vRecv[..nDataPos] else []
    }

    /** The stream when this message is the last, after those done. */
    ghost function After(done: seq<seq<byte>>): Stream
      reads this
      requires Valid()
    {
      if Complete() then Stream(done + [Raw()], []) else Stream(done, Raw())
    }

    lemma RawFacts()
      requires Valid()
      ensures in_data ==> |Raw()| >= HEADER_SIZE && Announced(Raw()) == hdr.nMessageSize
      ensures Complete() <==> Whole(Raw())
      ensures Complete() ==> Framed(Raw())
      ensures |Raw()| == nHdrPos + nDataPos
    {
      assert in_data ==> Raw()[..HEADER_SIZE] == hdrbuf;
    }

    /** Takes bytes for the header; at its end the announced size decides. */
    method ReadHeader(pch: seq<byte>) returns (handled: int)
      requires Valid() && !in_data && pch != []
      modifies this
      ensures handled < 0 <==> Taken(old(Raw()), pch) && TooBig(old(Raw()) + pch[..HEADER_SIZE - |old(Raw())|])
      ensures handled >= 0 ==> Valid() && 0 < handled <= |pch| && Raw() == old(Raw()) + pch[..handled]
      ensures handled >= 0 ==> handled == if Taken(old(Raw()), pch) then HEADER_SIZE - |old(Raw())| else |pch|
    {
      ghost var before := Raw();
      var nRemaining := HEADER_SIZE - nHdrPos;
      var nCopy := if nRemaining < |pch| then nRemaining else |pch|;
      hdrbuf := hdrbuf[..nHdrPos] + pch[..nCopy] + hdrbuf[nHdrPos + nCopy..];
      nHdrPos := nHdrPos + nCopy;
      assert hdrbuf[..nHdrPos] == before + pch[..nCopy];
      if nHdrPos < HEADER_SIZE {
        return nCopy;
      }
      hdr := DecodeHeader(hdrbuf);
      assert hdrbuf == before + pch[..nCopy] && hdrbuf[..HEADER_SIZE] == hdrbuf;
      if hdr.nMessageSize > MAX_SIZE {
        return -1;
      }
      in_data := true;
      vRecv := seq(hdr.nMessageSize, _ => 0);
      handled := nCopy;
    }

    /** The bytes reach the end of the header. */
    static predicate Taken(part: seq<byte>, pch: seq<byte>) {
      |part| < HEADER_SIZE <= |part| + |pch|
    }

    method ReadData(pch: seq<byte>) returns (handled: int)
      requires Valid() && in_data && !Complete() && pch != []
      modifies this
      ensures Valid() && in_data && 0 < handled <= |pch| && Raw() == old(Raw()) + pch[..handled]
      ensures |old(Raw())| >= HEADER_SIZE && |old(Raw())| + handled <= HEADER_SIZE + Announced(old(Raw()))
      ensures handled == |pch| || Whole(Raw())
    {
      RawFacts();
      var nRemaining := hdr.nMessageSize - nDataPos;
      var nCopy := if nRemaining < |pch| then nRemaining else |pch|;
      assert vRecv[..nDataPos] + pch[..nCopy] + vRecv[nDataPos + nCopy..] ==
        vRecv[..nDataPos] + (pch[..nCopy] + vRecv[nDataPos + nCopy..]);
      vRecv := vRecv[..nDataPos] + pch[..nCopy] + vRecv[nDataPos + nCopy..];
      nDataPos := nDataPos + nCopy;
      assert Raw() == old(Raw()) + pch[..nCopy];
      RawFacts();
      handled := nCopy;
    }
  }

  datatype SocketError = WouldBlock | MessageSize | Interrupted | InProgress | OtherError

  /** What the socket was offered, what send returned, and the error it left. */
  datatype Call = Call(data: seq<byte>, nBytes: int, nErr: SocketError) {
    /** Everything was taken. */
    predicate Whole() {
      nBytes == |data|
    }

    /** Sending failed for good. */
    predicate Fatal() {
      nBytes < 0 && nErr == OtherError
    }

    function Taken(): seq<byte> {
      if 0 < nBytes <= |data| then data[..nBytes] else []
    }
  }

  /** The bytes that some calls got through. */
  ghost function TakenBy(calls: seq<Call>): seq<byte> {
    if calls == [] then [] else TakenBy(calls[..|calls| - 1]) + calls[|calls| - 1].Taken()
  }

  ghost predicate AllWhole(calls: seq<Call>) {
    forall i :: 0 <= i < |calls| ==> calls[i].Whole()
  }

  lemma TakenOneMore(calls: seq<Call>, c: Call)
    ensures TakenBy(calls + [c]) == TakenBy(calls) + c.Taken()
  {
    assert (calls + [c])[..|calls|] == calls;
  }

  /** The socket's sending side: it takes some of the bytes it is given, or none. */
  class CSocket {
    var wire: seq<byte>
    var nLastError: SocketError
    /** The calls of send since the start. */
    ghost var calls: seq<Call>

    constructor ()
      ensures wire == [] && calls == []
    {
      wire, nLastError, calls := [], WouldBlock, [];
    }

    method Send(data: seq<byte>) returns (nBytes: int)
      modifies this
      ensures nBytes <= |data| && calls == old(calls) + [Call(data, nBytes, nLastError)]
      ensures wire == old(wire) + Call(data, nBytes, nLastError).Taken()
    {
      nBytes := *;
      if nBytes > |data| {
        nBytes := |data|;
      }
      if nBytes > 0 {
        wire := wire + data[..nBytes];
      }
      nLastError := *;
      calls := calls + [Call(data, nBytes, nLastError)];
    }
  }

  ghost function Raws(msgs: seq<CNetMessage>): (r: seq<seq<byte>>)
    reads msgs
    requires forall i :: 0 <= i < |msgs| ==> msgs[i].Valid()
    ensures |r| == |msgs|
  {
    seq(|msgs|, i requires 0 <= i < |msgs| reads msgs requires forall i :: 0 <= i < |msgs| ==>
      msgs[i].Valid() => msgs[i].Raw())
  }

  class CNode {
    const hash: seq<byte> -> seq<byte>
    const hSocket: CSocket
    var ssSend: seq<byte>
    var vSendMsg: seq<seq<byte>>
    var nSendOffset: nat
    var nSendSize: int
    var fDisconnect: bool
    var vRecvMsg: seq<CNetMessage>
    /** The messages EndMessage has queued since the start. */
    ghost var pushed: seq<seq<byte>>
    /** The bytes that have come in since the start. */
    ghost var arrived: seq<byte>

    constructor (hash: seq<byte> -> seq<byte>)
      ensures this.hash == hash && fresh(hSocket) && hSocket.wire == []
      ensures SendValid() && InStep() && ssSend == [] && pushed == [] && arrived == []
    {
      this.hash := hash;
      hSocket := new CSocket();
      ssSend, vSendMsg, nSendOffset, nSendSize, fDisconnect, vRecvMsg, pushed := [], [], 0, 0, false, [], [];
      arrived := [];
    }

    // ------------------------------------------------------------------------ receiving

    ghost predicate RecvValid()
      reads this`vRecvMsg, vRecvMsg
    {
      && (forall i :: 0 <= i < |vRecvMsg| ==> vRecvMsg[i].Valid())
      && (forall i, j :: 0 <= i < j < |vRecvMsg| ==> vRecvMsg[i] != vRecvMsg[j])
      && (forall i :: 0 <= i < |vRecvMsg| - 1 ==> vRecvMsg[i].Complete())
      && (vRecvMsg != [] ==> vRecvMsg[|vRecvMsg| - 1].Raw() != [])
    }

    /** The complete messages, and the bytes of the incomplete one. */
    ghost function Progress(): (st: Stream)
      reads this`vRecvMsg, vRecvMsg
      requires RecvValid()
      ensures st.Stream?
    {
      var n := |vRecvMsg|;
      if n == 0 || vRecvMsg[n - 1].Complete() then Stream(Raws(vRecvMsg), [])
      else Stream(Raws(vRecvMsg[..n - 1]), vRecvMsg[n - 1].Raw())
    }

    /** The messages are what the bytes that have come in make. */
    ghost predicate InStep()
      reads this`vRecvMsg, this`arrived, vRecvMsg
    {
      RecvValid() && Progress() == Feed(Start, arrived)
    }

    /** In step with what has come in, or cut off with nothing kept. */
    ghost predicate Current()
      reads this`vRecvMsg, this`arrived, this`fDisconnect, vRecvMsg
    {
      InStep() || (fDisconnect && vRecvMsg == [])
    }

    /** One message takes what it can of the bytes. */
    static method Absorb(msg: CNetMessage, pch: seq<byte>, ghost done: seq<seq<byte>>) returns (handled: int)
      requires msg.Valid() && !msg.Complete() && pch != []
      modifies msg
      ensures handled < 0 ==> Feed(Stream(done, old(msg.Raw())), pch) == Failed
      ensures handled >= 0 ==> msg.Valid() && 0 < handled <= |pch| && msg.Raw() != []
      ensures handled >= 0 ==> Feed(Stream(done, old(msg.Raw())), pch[..handled]) == msg.After(done)
    {
      ghost var part := msg.Raw();
      msg.RawFacts();
      if !msg.in_data {
        handled := msg.ReadHeader(pch);
        if handled < 0 {
          ghost var n := HEADER_SIZE - |part|;
          FeedHeader(done, part, pch[..n]);
          FeedInPieces(Stream(done, part), pch[..n], pch[n..]);
          assert pch[..n] + pch[n..] == pch;
          FeedFailed(pch[n..]);
          return;
        }
        FeedHeader(done, part, pch[..handled]);
      } else {
        handled := msg.ReadData(pch);
        FeedData(done, part, pch[..handled]);
      }
      msg.RawFacts();
    }

    /** One round of the loop of ReceiveMsgBytes. */
    method AbsorbOne(pch: seq<byte>) returns (handled: int)
      requires RecvValid() && pch != []
      modifies this`vRecvMsg, vRecvMsg
      ensures forall i :: 0 <= i < |vRecvMsg| ==> vRecvMsg[i] in old(vRecvMsg) || fresh(vRecvMsg[i])
      ensures handled < 0 ==> Feed(old(Progress()), pch) == Failed
      ensures handled >= 0 ==>
        RecvValid() && 0 < handled <= |pch| && Progress() == Feed(old(Progress()), pch[..handled])
    {
      ghost var before := Progress();
      if vRecvMsg == [] || vRecvMsg[|vRecvMsg| - 1].Complete() {
        var another := new CNetMessage();
        vRecvMsg := vRecvMsg + [another];
      }
      ghost var n := |vRecvMsg| - 1;
      ghost var done := Raws(vRecvMsg[..n]);
      assert before == Stream(done, vRecvMsg[n].Raw());
      handled := AbsorbLast(pch, done);
    }

    /** The last message takes what it can; those before it stay as they are. */
    method AbsorbLast(pch: seq<byte>, ghost done: seq<seq<byte>>) returns (handled: int)
      requires pch != [] && vRecvMsg != [] && vRecvMsg[|vRecvMsg| - 1].Valid() && !vRecvMsg[|vRecvMsg| - 1].Complete()
      requires (forall i :: 0 <= i < |vRecvMsg| - 1 ==> vRecvMsg[i].Valid() && vRecvMsg[i].Complete())
      requires (forall i, j :: 0 <= i < j < |vRecvMsg| ==> vRecvMsg[i] != vRecvMsg[j]) &&
        done == Raws(vRecvMsg[..|vRecvMsg| - 1])
      modifies vRecvMsg[|vRecvMsg| - 1]
      ensures handled < 0 ==> Feed(Stream(done, old(vRecvMsg[|vRecvMsg| - 1].Raw())), pch) == Failed
      ensures handled >= 0 ==> RecvValid() && 0 < handled <= |pch|
      ensures handled >= 0 ==> Progress() == Feed(Stream(done, old(vRecvMsg[|vRecvMsg| - 1].Raw())), pch[..handled])
    {
      hide Feed;
      var msg := vRecvMsg[|vRecvMsg| - 1];
      ghost var others := vRecvMsg[..|vRecvMsg| - 1];
      handled := Absorb(msg, pch, done);
      assert Raws(others) == done;
      assert vRecvMsg == others + [msg];
      if handled >= 0 && msg.Complete() {
        assert Raws(vRecvMsg) == done + [msg.Raw()];
      }
    }

    method ReceiveMsgBytes(pch: seq<byte>) returns (ok: bool)
      requires RecvValid()
      modifies this`vRecvMsg, this`arrived, vRecvMsg
      ensures forall i :: 0 <= i < |vRecvMsg| ==> vRecvMsg[i] in old(vRecvMsg) || fresh(vRecvMsg[i])
      ensures ok <==> Feed(old(Progress()), pch).Stream?
      ensures ok ==> RecvValid() && Progress() == Feed(old(Progress()), pch)
      ensures arrived == old(arrived) + pch && (ok && old(InStep()) ==> InStep())
    {
      hide Feed, RecvValid, Progress;
      FeedInPieces(Start, arrived, pch);
      ok := AbsorbAll(pch);
      arrived := arrived + pch;
    }

    /** The loop of ReceiveMsgBytes. */
    method AbsorbAll(pch: seq<byte>) returns (ok: bool)
      requires RecvValid()
      modifies this`vRecvMsg, vRecvMsg
      ensures forall i :: 0 <= i < |vRecvMsg| ==> vRecvMsg[i] in old(vRecvMsg) || fresh(vRecvMsg[i])
      ensures ok <==> Feed(old(Progress()), pch).Stream?
      ensures ok ==> RecvValid() && Progress() == Feed(old(Progress()), pch)
    {
      hide Feed, RecvValid, Progress;
      ghost var start := Progress();
      FeedNothing(start, pch);
      var at := 0;
      while at < |pch|
        invariant 0 <= at <= |pch| && RecvValid() && Progress() == Feed(start, pch[..at])
        invariant forall i :: 0 <= i < |vRecvMsg| ==> vRecvMsg[i] in old(vRecvMsg) || fresh(vRecvMsg[i])
      {
        FeedOn(start, pch, at, 0);
        var handled := AbsorbOne(pch[at..]);
        if handled < 0 {
          return false;
        }
        FeedOn(start, pch, at, handled);
        at := at + handled;
      }
      assert pch[..at] == pch;
      ok := true;
    }

    static lemma FeedNothing(st: Stream, pch: seq<byte>)
      ensures Feed(st, pch[..0]) == st
    {
    }

    // -------------------------------------------------------------------------- sending

    /** What went out and what is still queued is what was pushed, and nSendSize is the size of
        the queue. */
    ghost predicate SendValid()
      reads this`vSendMsg, this`nSendOffset, this`nSendSize, this`pushed, hSocket
    {
      Pending(vSendMsg)
    }

    /** The same with the rest of a queue, when some messages of it have gone out. */
    ghost predicate Pending(queue: seq<seq<byte>>)
      reads this`nSendOffset, this`nSendSize, this`pushed, hSocket
    {
      PendingAt(pushed, hSocket.wire, queue, nSendOffset, nSendSize)
    }

    static ghost predicate PendingAt(pushed: seq<seq<byte>>, wire: seq<byte>, queue: seq<seq<byte>>, offset: nat,
                                     size: int) {
      Queued(queue, offset) && size == TotalSize(queue) && Concat(pushed) == wire + Unsent(queue, offset)
    }

    /** Every message pushed announces its size. */
    ghost predicate AllSized()
      reads this`pushed
    {
      forall i :: 0 <= i < |pushed| ==> SizedRight(pushed[i])
    }

    /** Of the first message, if there is one, something is still to be sent. */
    static ghost predicate Queued(queue: seq<seq<byte>>, offset: nat) {
      && (forall i :: 0 <= i < |queue| ==> queue[i] != [])
      && if queue == [] then offset == 0 else offset < |queue[0]|
    }

    static ghost function Unsent(queue: seq<seq<byte>>, offset: nat): seq<byte>
      requires Queued(queue, offset)
    {
      if queue == [] then [] else queue[0][offset..] + Concat(queue[1..])
    }

    static lemma UnsentFromStart(queue: seq<seq<byte>>)
      requires Queued(queue, 0)
      ensures Unsent(queue, 0) == Concat(queue)
    {
    }

    /** The effect of n bytes of the first message of the queue going out. */
    static lemma SentPart(queue: seq<seq<byte>>, offset: nat, n: nat)
      requires queue != [] && Queued(queue, offset) && offset + n < |queue[0]|
      ensures Queued(queue, offset + n)
      ensures Unsent(queue, offset) == queue[0][offset..][..n] + Unsent(queue, offset + n)
    {
      CutOff(queue[0], offset, n, Concat(queue[1..]));
    }

    static lemma CutOff(data: seq<byte>, offset: nat, n: nat, tail: seq<byte>)
      requires offset + n <= |data|
      ensures data[offset..] + tail == data[offset..][..n] + (data[offset + n..] + tail)
    {
      assert data[offset..] == data[offset..][..n] + data[offset + n..];
    }

    static lemma SentWhole(queue: seq<seq<byte>>, offset: nat)
      requires queue != [] && Queued(queue, offset)
      ensures Queued(queue[1..], 0) && TotalSize(queue) == |queue[0]| + TotalSize(queue[1..])
      ensures Unsent(queue, offset) == queue[0][offset..] + Unsent(queue[1..], 0)
    {
      UnsentFromStart(queue[1..]);
    }

    /** The rest of the first message is out. */
    static lemma WholeOut(pushed: seq<seq<byte>>, before: seq<byte>, queue: seq<seq<byte>>, offset: nat, size: int)
      requires queue != [] && PendingAt(pushed, before, queue, offset, size)
      ensures size >= |queue[0]|
      ensures PendingAt(pushed, before + queue[0][offset..], queue[1..], 0, size - |queue[0]|)
    {
      SentWhole(queue, offset);
      hide Queued, Unsent, TotalSize, Concat;
    }

    /** Part of it is. */
    static lemma PartOut(pushed: seq<seq<byte>>, before: seq<byte>, queue: seq<seq<byte>>, offset: nat, n: nat,
                         size: int)
      requires queue != [] && PendingAt(pushed, before, queue, offset, size) && offset + n < |queue[0]|
      ensures PendingAt(pushed, before + queue[0][offset..][..n], queue, offset + n, size)
    {
      SentPart(queue, offset, n);
      hide Queued, Unsent, TotalSize, Concat;
    }

    method CloseSocketDisconnect()
      modifies this`fDisconnect, this`vRecvMsg
      ensures fDisconnect && (vRecvMsg == old(vRecvMsg) || vRecvMsg == [])
    {
      fDisconnect := true;
      var lockRecv: bool := *;
      if lockRecv {
        vRecvMsg := [];
      }
    }

    /** What the i-th call offers: a message, or what is left of the first. */
    static ghost function Offer(queue: seq<seq<byte>>, offset: nat, i: nat): seq<byte>
      requires i < |queue|
    {
      if i == 0 && offset <= |queue[0]| then queue[0][offset..] else queue[i]
    }

    /** The last call was cut short. */
    static ghost predicate CutShort(calls: seq<Call>) {
      calls != [] && !calls[|calls| - 1].Whole()
    }

    static ghost predicate Broken(calls: seq<Call>) {
      calls != [] && calls[|calls| - 1].Fatal()
    }

    /** The messages of the queue are offered one after the other until one is cut short, and
        those that went out whole are gone. */
    static ghost predicate Sent(queue: seq<seq<byte>>, offset: nat, calls: seq<Call>, rest: seq<seq<byte>>) {
      && |calls| <= |queue|
      && (forall i :: 0 <= i < |calls| ==> calls[i].data == Offer(queue, offset, i))
      && AllWhole(calls[..if CutShort(calls) then |calls| - 1 else |calls|])
      && rest == queue[if CutShort(calls) then |calls| - 1 else |calls|..]
      && (CutShort(calls) || rest == [])
    }

    /** The calls of send since there were n of them. */
    ghost function CallsSince(n: nat): seq<Call>
      reads hSocket
    {
      if n <= |hSocket.calls| then hSocket.calls[n..] else []
    }

    /** Sends from the front of the queue as long as the socket takes whole messages. */
    method SocketSendData()
      requires SendValid()
      modifies this`vSendMsg, this`nSendOffset, this`nSendSize, this`fDisconnect, this`vRecvMsg, hSocket
      ensures SendValid() && old(hSocket.wire) <= hSocket.wire && old(hSocket.calls) <= hSocket.calls
      ensures var calls := CallsSince(|old(hSocket.calls)|);
        && Sent(old(vSendMsg), old(nSendOffset), calls, vSendMsg)
        && hSocket.wire == old(hSocket.wire) + TakenBy(calls)
        && (AllWhole(calls) ==> vSendMsg == [] && hSocket.wire == Concat(pushed))
        && (fDisconnect <==> old(fDisconnect) || Broken(calls))
        && (vRecvMsg == old(vRecvMsg) || (vRecvMsg == [] && Broken(calls)))
      ensures vRecvMsg == old(vRecvMsg) || (vRecvMsg == [] && fDisconnect)
      ensures old(fDisconnect) ==> fDisconnect
      ensures old(Current()) ==> Current()
    {
      hide Pending, PendingAt, SendValid, Queued, Sent, SoFar, TakenBy, Broken, AllWhole, CutShort, Concat;
      var it := 0;
      var going := true;
      ghost var queue, start, n := vSendMsg, nSendOffset, |hSocket.calls|;
      assert vSendMsg[0..] == vSendMsg && hSocket.calls[n..] == [];
      PendingMeans(vSendMsg);
      NothingYet(queue, start);
      while it < |vSendMsg| && going
        invariant 0 <= it <= |vSendMsg| && vSendMsg == queue && Pending(vSendMsg[it..])
        invariant old(hSocket.wire) <= hSocket.wire && n <= |hSocket.calls| && old(hSocket.calls) <= hSocket.calls
        invariant SoFar(queue, start, hSocket.calls[n..], it, going)
        invariant going ==> nSendOffset == if it == 0 then start else 0
        invariant hSocket.wire == old(hSocket.wire) + TakenBy(hSocket.calls[n..])
        invariant fDisconnect <==> old(fDisconnect) || Broken(hSocket.calls[n..])
        invariant vRecvMsg == old(vRecvMsg) || (vRecvMsg == [] && Broken(hSocket.calls[n..]))
        decreases |vSendMsg| - it, going
      {
        ghost var before, at := hSocket.calls[n..], it;
        it, going := SendOne(it);
        ghost var c := hSocket.calls[|hSocket.calls| - 1];
        assert hSocket.calls[n..] == before + [c];
        OneMore(queue, start, before, at, c);
      }
      Over(queue, start, hSocket.calls[n..], it, going);
      PendingMeans(vSendMsg[it..]);
      AllOut(pushed, hSocket.wire, vSendMsg[it..], nSendOffset, nSendSize);
      if it == |vSendMsg| {
        assert nSendOffset == 0;
        assert nSendSize == 0;
      }
      vSendMsg := vSendMsg[it..];
      PendingMeans(vSendMsg);
    }

    lemma PendingMeans(queue: seq<seq<byte>>)
      ensures Pending(queue) <==> PendingAt(pushed, hSocket.wire, queue, nSendOffset, nSendSize)
      ensures SendValid() <==> Pending(vSendMsg)
    {
    }

    lemma FrontWaits(it: nat)
      requires it < |vSendMsg| && Pending(vSendMsg[it..])
      ensures nSendOffset < |vSendMsg[it]|
      ensures PendingAt(pushed, hSocket.wire, vSendMsg[it..], nSendOffset, nSendSize)
    {
      assert vSendMsg[it..][0] == vSendMsg[it];
    }

    static lemma NothingYet(queue: seq<seq<byte>>, offset: nat)
      ensures SoFar(queue, offset, [], 0, true) && TakenBy([]) == [] && !Broken([])
    {
    }

    /** One more call. */
    static lemma OneMore(queue: seq<seq<byte>>, offset: nat, calls: seq<Call>, it: nat, c: Call)
      requires SoFar(queue, offset, calls, it, true) && it < |queue|
      requires var at := if it == 0 then offset else 0; at < |queue[it]| && c.data == queue[it][at..]
      ensures if c.Whole() then SoFar(queue, offset, calls + [c], it + 1, true)
              else SoFar(queue, offset, calls + [c], it, false)
      ensures TakenBy(calls + [c]) == TakenBy(calls) + c.Taken()
      ensures !Broken(calls) && (Broken(calls + [c]) <==> c.Fatal()) && (c.Fatal() ==> !c.Whole())
    {
      TakenOneMore(calls, c);
      hide TakenBy;
      assert it > 0 ==> queue[it][0..] == queue[it];
      assert (calls + [c])[..it] == calls[..it];
    }

    static lemma Over(queue: seq<seq<byte>>, offset: nat, calls: seq<Call>, it: nat, going: bool)
      requires SoFar(queue, offset, calls, it, going) && (it == |queue| || !going)
      ensures Sent(queue, offset, calls, queue[it..]) && (AllWhole(calls) ==> queue[it..] == [])
    {
      assert going ==> calls[..it] == calls;
    }

    static lemma AllOut(pushed: seq<seq<byte>>, wire: seq<byte>, queue: seq<seq<byte>>, offset: nat, size: int)
      requires PendingAt(pushed, wire, queue, offset, size)
      ensures queue == [] ==> offset == 0 && size == 0 && wire == Concat(pushed)
    {
    }

    /** The first `it` messages went out whole, and the next one did not if sending stopped. */
    static ghost predicate SoFar(queue: seq<seq<byte>>, offset: nat, calls: seq<Call>, it: nat, going: bool) {
      && it <= |queue| && |calls| == (if going then it else it + 1) <= |queue|
      && (forall i :: 0 <= i < |calls| ==> calls[i].data == Offer(queue, offset, i))
      && AllWhole(calls[..it]) && (!going ==> CutShort(calls))
    }

    /** One round of the loop of SocketSendData. */
    method SendOne(it: nat) returns (next: nat, going: bool)
      requires it < |vSendMsg| && Pending(vSendMsg[it..])
      modifies this`nSendOffset, this`nSendSize, this`fDisconnect, this`vRecvMsg, hSocket
      ensures next == if going then it + 1 else it
      ensures next <= |vSendMsg| && Pending(vSendMsg[next..])
      ensures old(hSocket.wire) <= hSocket.wire
      ensures |hSocket.calls| == |old(hSocket.calls)| + 1 && old(hSocket.calls) <= hSocket.calls
      ensures var c := hSocket.calls[|old(hSocket.calls)|];
        && old(nSendOffset) < |vSendMsg[it]| && c.data == vSendMsg[it][old(nSendOffset)..] && (going <==> c.Whole())
        && hSocket.wire == old(hSocket.wire) + c.Taken()
        && (fDisconnect <==> old(fDisconnect) || c.Fatal())
        && (vRecvMsg == old(vRecvMsg) || (vRecvMsg == [] && c.Fatal()))
      ensures going ==> nSendOffset == 0
    {
      hide Pending, PendingAt, Queued, Unsent, TotalSize, Concat, CNetMessage.Valid;
      next, going := it, false;
      var data := vSendMsg[it];
      FrontWaits(it);
      assert |data| > nSendOffset;
      ghost var before := hSocket.wire;
      var nBytes := hSocket.Send(data[nSendOffset..]);
      assert nBytes <= 0 ==> hSocket.wire == before;
      if nBytes > 0 {
        next, going := Account(it, nBytes, before);
      } else if nBytes < 0 {
        var nErr := hSocket.nLastError;
        if nErr != WouldBlock && nErr != MessageSize && nErr != Interrupted && nErr != InProgress {
          CloseSocketDisconnect();
        }
      }
      PendingMeans(vSendMsg[next..]);
    }

    static lemma Front(queue: seq<seq<byte>>, it: nat)
      requires it < |queue|
      ensures queue[it..] != [] && queue[it..][0] == queue[it] && queue[it..][1..] == queue[it + 1..]
    {
    }

    static lemma AllThatIsLeft(data: seq<byte>, offset: nat)
      requires offset <= |data|
      ensures data[offset..][..|data| - offset] == data[offset..]
    {
    }

    /** Accounts for n bytes of message `it` that went out. */
    method Account(it: nat, nBytes: nat, ghost before: seq<byte>) returns (next: nat, going: bool)
      requires it < |vSendMsg| && PendingAt(pushed, before, vSendMsg[it..], nSendOffset, nSendSize)
      requires 0 < nBytes && nSendOffset + nBytes <= |vSendMsg[it]|
      requires hSocket.wire == before + vSendMsg[it][nSendOffset..][..nBytes]
      modifies this`nSendOffset, this`nSendSize
      ensures next == (if going then it + 1 else it) && next <= |vSendMsg| && Pending(vSendMsg[next..])
      ensures going <==> old(nSendOffset) + nBytes == |vSendMsg[it]|
      ensures nSendOffset == if going then 0 else old(nSendOffset) + nBytes
    {
      hide PendingAt;
      next, going := it, true;
      ghost var queue, offset := vSendMsg[it..], nSendOffset;
      var data := vSendMsg[it];
      Front(vSendMsg, it);
      AllThatIsLeft(data, offset);
      nSendOffset := nSendOffset + nBytes;
      if nSendOffset == |data| {
        WholeOut(pushed, before, queue, offset, nSendSize);
        nSendOffset := 0;
        nSendSize := nSendSize - |data|;
        next := it + 1;
      } else {
        // a message that went out in part is left at the front for later
        PartOut(pushed, before, queue, offset, nBytes, nSendSize);
        going := false;
      }
    }

    /** Starts a message: its header, with the size and the checksum still to come. */
    method BeginMessage(header: seq<byte>)
      requires ssSend == [] && |header| == HEADER_SIZE
      modifies this`ssSend
      ensures ssSend == header
    {
      ssSend := header;
    }

    method Write(data: seq<byte>)
      modifies this`ssSend
      ensures ssSend == old(ssSend) + data
    {
      ssSend := ssSend + data;
    }

    method AbortMessage()
      modifies this`ssSend
      ensures ssSend == []
    {
      ssSend := [];
    }

    /** The first four bytes of the hash of the payload. */
    function Checksum(ss: seq<byte>): (c: seq<byte>)
      requires |ss| >= HEADER_SIZE && forall s :: |hash(s)| == 32
      ensures |c| == 4
    {
      hash(ss[HEADER_SIZE..])[..4]
    }

    /** Fills in size and checksum and queues the message; an empty queue is tried at once. */
    method EndMessage(drop: bool)
      requires AllSized() && SendValid() && (ssSend == [] || |ssSend| >= HEADER_SIZE) && forall s :: |hash(s)| == 32
      modifies this`ssSend, this`vSendMsg, this`nSendOffset, this`nSendSize, this`fDisconnect, this`vRecvMsg,
        this`pushed, hSocket
      ensures AllSized() && SendValid() && ssSend == [] && old(hSocket.wire) <= hSocket.wire
      ensures drop || old(ssSend) == [] ==>
        pushed == old(pushed) && hSocket.wire == old(hSocket.wire) && vSendMsg == old(vSendMsg)
        && hSocket.calls == old(hSocket.calls) && fDisconnect == old(fDisconnect) && vRecvMsg == old(vRecvMsg)
      ensures !(drop || old(ssSend) == []) ==>
        var m := Finished(old(ssSend), Checksum(old(ssSend)));
        && pushed == old(pushed) + [m]
        && Tried(old(vSendMsg), m, old(hSocket.wire), old(hSocket.calls), old(fDisconnect))
        && (vRecvMsg == old(vRecvMsg) || (vRecvMsg == [] && Broken(CallsSince(|old(hSocket.calls)|))))
      ensures vRecvMsg == old(vRecvMsg) || (vRecvMsg == [] && fDisconnect)
      ensures old(fDisconnect) ==> fDisconnect
      ensures old(Current()) ==> Current()
    {
      hide Finished, SizedRight, Tried, PendingAt, Concat, TakenBy, Sent, Queued;
      if drop {
        AbortMessage();
        return;
      }
      if |ssSend| == 0 {
        return;
      }
      ghost var ss := ssSend;
      FillIn();
      FinishedFramed(ss, Checksum(ss));
      Enqueue(ssSend);
    }

    /** The message has joined the queue, which was tried at once if it was empty. */
    ghost predicate Tried(queue: seq<seq<byte>>, m: seq<byte>, wire: seq<byte>, before: seq<Call>, cut: bool)
      reads this, hSocket
    {
      && before <= hSocket.calls
      && var calls := CallsSince(|before|);
         && hSocket.wire == wire + TakenBy(calls) && (fDisconnect <==> cut || Broken(calls))
         && (queue != [] ==> calls == [] && vSendMsg == queue + [m])
         && (queue == [] ==>
               && Sent([m], 0, calls, vSendMsg)
               && (AllWhole(calls) ==> vSendMsg == [] && hSocket.wire == Concat(pushed)))
    }

    /** Sets the size, then the checksum, in place. */
    method FillIn()
      requires |ssSend| >= HEADER_SIZE && forall s :: |hash(s)| == 32
      modifies this`ssSend
      ensures ssSend == Finished(old(ssSend), Checksum(old(ssSend)))
    {
      hide Finished;
      ghost var ss := ssSend;
      var nSize := |ssSend| - HEADER_SIZE;
      ssSend := ssSend[..MESSAGE_SIZE_OFFSET] + ToLe32(nSize) + ssSend[MESSAGE_SIZE_OFFSET + 4..];
      var digest := hash(ssSend[HEADER_SIZE..]);
      PatchedIsFinished(ss, digest[..4]);
      ssSend := ssSend[..CHECKSUM_OFFSET] + digest[..4] + ssSend[CHECKSUM_OFFSET + 4..];
    }

    /** Size and checksum patched in one after the other make the finished message. */
    static lemma PatchedIsFinished(ss: seq<byte>, checksum: seq<byte>)
      requires |ss| >= HEADER_SIZE && |checksum| == 4
      ensures var sized := ss[..MESSAGE_SIZE_OFFSET] + ToLe32(|ss| - HEADER_SIZE) + ss[MESSAGE_SIZE_OFFSET + 4..];
        && |sized| == |ss| && sized[HEADER_SIZE..] == ss[HEADER_SIZE..]
        && sized[..CHECKSUM_OFFSET] + checksum + sized[CHECKSUM_OFFSET + 4..] == Finished(ss, checksum)
    {
    }

    static lemma QueueAppend(queue: seq<seq<byte>>, offset: nat, m: seq<byte>)
      requires Queued(queue, offset) && m != []
      ensures Queued(queue + [m], offset) && TotalSize(queue + [m]) == TotalSize(queue) + |m|
      ensures Unsent(queue + [m], offset) == Unsent(queue, offset) + m
    {
      ConcatAppend(queue, m);
      if queue != [] {
        ConcatAppend(queue[1..], m);
        assert (queue + [m])[1..] == queue[1..] + [m];
      }
    }

    static lemma OneMoreWaits(pushed: seq<seq<byte>>, wire: seq<byte>, queue: seq<seq<byte>>, offset: nat, size: int,
                              m: seq<byte>)
      requires PendingAt(pushed, wire, queue, offset, size) && m != []
      ensures PendingAt(pushed + [m], wire, queue + [m], offset, size + |m|) && (queue == [] ==> offset == 0)
    {
      ConcatAppend(pushed, m);
      QueueAppend(queue, offset, m);
      hide Unsent, TotalSize, Concat;
    }

    static lemma NoCalls()
      ensures TakenBy([]) == [] && !Broken([])
    {
    }

    /** Takes over the finished message. */
    method Enqueue(m: seq<byte>)
      requires SendValid() && m != []
      modifies this`ssSend, this`vSendMsg, this`nSendOffset, this`nSendSize, this`fDisconnect, this`vRecvMsg,
        this`pushed, hSocket
      ensures SendValid() && ssSend == [] && old(hSocket.wire) <= hSocket.wire && pushed == old(pushed) + [m]
      ensures Tried(old(vSendMsg), m, old(hSocket.wire), old(hSocket.calls), old(fDisconnect))
      ensures vRecvMsg == old(vRecvMsg) || (vRecvMsg == [] && Broken(CallsSince(|old(hSocket.calls)|)))
      ensures vRecvMsg == old(vRecvMsg) || (vRecvMsg == [] && fDisconnect)
      ensures old(fDisconnect) ==> fDisconnect
      ensures old(Current()) ==> Current()
    {
      hide Queued, Unsent, TotalSize, Concat, Sent, TakenBy, CutShort, Offer, AllWhole, PendingAt;
      var wasEmpty := vSendMsg == [];
      OneMoreWaits(pushed, hSocket.wire, vSendMsg, nSendOffset, nSendSize, m);
      NoCalls();
      vSendMsg := vSendMsg + [m];
      ssSend := [];
      nSendSize := nSendSize + |m|;
      pushed := pushed + [m];
      if wasEmpty {
        assert [] + [m] == [m];
        SocketSendData();
      } else {
        assert CallsSince(|hSocket.calls|) == [] && hSocket.wire == hSocket.wire + [];
      }
    }
  }

  /** No payload is too long. */
  ghost predicate AllFit(msgs: seq<seq<byte>>) {
    forall i :: 0 <= i < |msgs| ==> |msgs[i]| - HEADER_SIZE <= MAX_SIZE
  }

  lemma AllFramed(sender: CNode)
    requires sender.AllSized() && AllFit(sender.pushed)
    ensures forall i :: 0 <= i < |sender.pushed| ==> Framed(sender.pushed[i])
  {
    forall i | 0 <= i < |sender.pushed| ensures Framed(sender.pushed[i]) {
      SizedFramed(sender.pushed[i]);
    }
  }

  /** End to end: whatever the socket has passed on, however the pieces were cut, the receiver
      has the first messages that were pushed, unchanged and in order, and the beginning of the
      next. */
  lemma EndToEnd(sender: CNode, receiver: CNode)
    requires sender.SendValid() && sender.AllSized() && AllFit(sender.pushed)
    requires receiver.InStep() && receiver.arrived <= sender.hSocket.wire
    ensures Received(receiver.Progress(), sender.pushed, receiver.arrived)
  {
    AllFramed(sender);
    FeedPrefix(sender.pushed, receiver.arrived);
  }

  /** When all has gone out and all has arrived, the receiver has all the messages. */
  lemma AllDelivered(sender: CNode, receiver: CNode)
    requires sender.SendValid() && sender.AllSized() && AllFit(sender.pushed)
    requires sender.vSendMsg == [] && receiver.InStep() && receiver.arrived == sender.hSocket.wire
    ensures receiver.Progress() == Stream(sender.pushed, [])
  {
    AllFramed(sender);
    assert Concat(sender.pushed) == sender.hSocket.wire;
    FeedAll(sender.pushed);
  }

  /** Pieces of what the socket has passed on arrive one after the other: none is refused. */
  method Deliver(sender: CNode, receiver: CNode, pieces: seq<seq<byte>>)
    requires sender.SendValid() && sender.AllSized() && AllFit(sender.pushed)
    requires receiver.InStep() && receiver.arrived + Concat(pieces) <= sender.hSocket.wire
    modifies receiver`vRecvMsg, receiver`arrived, receiver.vRecvMsg
    ensures receiver.InStep() && receiver.arrived == old(receiver.arrived) + Concat(pieces)
    ensures forall i :: 0 <= i < |receiver.vRecvMsg| ==>
      receiver.vRecvMsg[i] in old(receiver.vRecvMsg) || fresh(receiver.vRecvMsg[i])
    ensures Received(receiver.Progress(), sender.pushed, receiver.arrived)
  {
    hide Feed, Concat, Framed, AllFit, CNode.RecvValid, CNode.Progress;
    ghost var start, wire := receiver.arrived, sender.hSocket.wire;
    AllFramed(sender);
    NoPieces(start, pieces);
    var i := 0;
    while i < |pieces|
      invariant 0 <= i <= |pieces| && receiver.InStep() && receiver.arrived == start + Concat(pieces[..i])
      invariant forall j :: 0 <= j < |receiver.vRecvMsg| ==>
        receiver.vRecvMsg[j] in old(receiver.vRecvMsg) || fresh(receiver.vRecvMsg[j])
    {
      NextPiece(sender.pushed, start, pieces, i, wire);
      var ok := receiver.ReceiveMsgBytes(pieces[i]);
      i := i + 1;
    }
    assert pieces[..i] == pieces;
    FeedPrefix(sender.pushed, receiver.arrived);
  }

  lemma NoPieces(start: seq<byte>, pieces: seq<seq<byte>>)
    ensures start == start + Concat(pieces[..0])
  {
  }

  lemma NextPiece(msgs: seq<seq<byte>>, start: seq<byte>, pieces: seq<seq<byte>>, i: nat, wire: seq<byte>)
    requires forall j :: 0 <= j < |msgs| ==> Framed(msgs[j])
    requires i < |pieces| && start + Concat(pieces) <= wire <= Concat(msgs)
    ensures start + Concat(pieces[..i + 1]) == start + Concat(pieces[..i]) + pieces[i]
    ensures Feed(Feed(Start, start + Concat(pieces[..i])), pieces[i]).Stream?
  {
    hide Feed, Concat, Framed;
    assert pieces[..i + 1] == pieces[..i] + [pieces[i]];
    ConcatAppend(pieces[..i], pieces[i]);
    ConcatBefore(pieces, i + 1);
    var got := start + Concat(pieces[..i + 1]);
    assert got <= Concat(msgs);
    FeedPrefix(msgs, got);
    FeedInPieces(Start, start + Concat(pieces[..i]), pieces[i]);
    assert start + Concat(pieces[..i]) + pieces[i] == got;
  }

  lemma ConcatBefore(pieces: seq<seq<byte>>, i: nat)
    requires i <= |pieces|
    ensures Concat(pieces[..i]) <= Concat(pieces)
  {
    if i < |pieces| {
      ConcatSplit(pieces, i);
    } else {
      assert pieces[..i] == pieces;
    }
  }
}
