/** Two peers that send to each other and receive from each other, in whatever order. */
module Conversation {
  import opened Numbers
  import opened Framing
  import opened Node

  /** What one direction needs: messages pushed with their sizes, nothing half written, and a
      receiver that has got no more than was sent, unless it is cut off. */
  ghost predicate OneWay(sender: CNode, receiver: CNode)
    reads sender, sender.hSocket, receiver, receiver.vRecvMsg
  {
    && sender.SendValid() && sender.AllSized() && AllFit(sender.pushed) && sender.ssSend == []
    && receiver.Current() && receiver.arrived <= sender.hSocket.wire
  }

  ghost predicate Apart(a: CNode, b: CNode)
    reads a, b
  {
    a != b && a.hSocket != b.hSocket && forall x :: x in a.vRecvMsg ==> x !in b.vRecvMsg
  }

  ghost predicate Talking(a: CNode, b: CNode)
    reads a, a.hSocket, a.vRecvMsg, b, b.hSocket, b.vRecvMsg
  {
    OneWay(a, b) && OneWay(b, a) && Apart(a, b)
  }

  lemma StillInStep(a: CNode, b: CNode)
    requires Talking(a, b) && !b.fDisconnect
    ensures a != b && a.hSocket != b.hSocket && b.InStep()
  {
  }

  /** What can happen: one of the two makes a message, sends, or gets the next bytes. */
  datatype Event =
    | Says(first: bool, header: seq<byte>, payload: seq<byte>, drop: bool)
    | Sends(first: bool)
    | Gets(first: bool, n: nat)
  {
    predicate Ok() {
      Says? ==> |header| == HEADER_SIZE && |payload| <= MAX_SIZE
    }
  }

  ghost predicate Hashes32(a: CNode) {
    forall s :: |a.hash(s)| == 32
  }

  /** The messages a peer makes of what it says. */
  ghost function Made(a: CNode, events: seq<Event>, first: bool): seq<seq<byte>>
    requires Hashes32(a)
  {
    if events == [] then [] else Made(a, events[..|events| - 1], first) + MadeBy(a, events[|events| - 1], first)
  }

  ghost function MadeBy(a: CNode, e: Event, first: bool): seq<seq<byte>>
    requires Hashes32(a)
  {
    if e.Says? && e.Ok() && e.first == first && !e.drop then
      [Finished(e.header + e.payload, a.Checksum(e.header + e.payload))]
    else []
  }

  /** One peer makes a message; it is tried at once when nothing else waits. */
  method Say(a: CNode, b: CNode, e: Event)
    requires Talking(a, b) && e.Says? && e.Ok() && Hashes32(a)
    modifies a, a.hSocket
    ensures Talking(a, b) && a.arrived == old(a.arrived)
    ensures a.pushed == old(a.pushed) + MadeBy(a, e, e.first)
    ensures old(a.hSocket.wire) <= a.hSocket.wire
    ensures forall i :: 0 <= i < |a.vRecvMsg| ==> a.vRecvMsg[i] in old(a.vRecvMsg)
  {
    hide CNode.Progress, CNode.RecvValid, CNode.AllSized, CNode.PendingAt, Concat, Feed, Finished, CNode.Tried;
    a.BeginMessage(e.header);
    a.Write(e.payload);
    a.EndMessage(e.drop);
  }

  /** It sends what waits, as far as the socket takes it, or is cut off. */
  method Flush(a: CNode, b: CNode)
    requires Talking(a, b)
    modifies a, a.hSocket
    ensures Talking(a, b) && a.pushed == old(a.pushed) && a.arrived == old(a.arrived)
    ensures old(a.hSocket.wire) <= a.hSocket.wire && |old(a.hSocket.calls)| <= |a.hSocket.calls|
    ensures CNode.Sent(old(a.vSendMsg), old(a.nSendOffset), a.CallsSince(|old(a.hSocket.calls)|), a.vSendMsg)
    ensures a.vSendMsg == [] || CNode.CutShort(a.hSocket.calls)
    ensures forall i :: 0 <= i < |a.vRecvMsg| ==> a.vRecvMsg[i] in old(a.vRecvMsg)
  {
    hide CNode.Progress, CNode.RecvValid, CNode.AllSized, CNode.PendingAt, Concat, Feed, TakenBy;
    a.SocketSendData();
  }

  /** A peer that nothing happens to stays where it is. */
  twostate lemma KeepsCurrent(a: CNode)
    requires old(a.Current()) && unchanged(a) && forall x :: x in a.vRecvMsg ==> unchanged(x)
    ensures a.Current()
  {
    assert forall i :: 0 <= i < |a.vRecvMsg| ==> a.vRecvMsg[i] in a.vRecvMsg;
    if old(a.InStep()) {
      assert forall i :: 0 <= i < |a.vRecvMsg| ==> old(a.vRecvMsg[i].Valid()) == a.vRecvMsg[i].Valid();
      assert forall i :: 0 <= i < |a.vRecvMsg| ==> old(a.vRecvMsg[i].Complete()) == a.vRecvMsg[i].Complete();
      assert a.RecvValid();
      assert a.Progress() == old(a.Progress());
    }
  }

  lemma OnePiece(piece: seq<byte>)
    ensures Concat([piece]) == piece
  {
    assert Concat([piece]) == piece + Concat([]);
  }

  /** Bytes that one peer has sent arrive at the other, which refuses none of them. */
  method Pass(a: CNode, b: CNode, piece: seq<byte>)
    requires Talking(a, b) && b.InStep() && b.arrived + piece <= a.hSocket.wire
    modifies b`vRecvMsg, b`arrived, b.vRecvMsg
    ensures Talking(a, b) && b.arrived == old(b.arrived) + piece
    ensures forall i :: 0 <= i < |b.vRecvMsg| ==> b.vRecvMsg[i] in old(b.vRecvMsg) || fresh(b.vRecvMsg[i])
  {
    hide CNode.SendValid, CNode.AllSized, CNode.InStep, AllFit, Concat, Received;
    OnePiece(piece);
    Deliver(a, b, [piece]);
    KeepsCurrent(a);
  }

  /** Each has got what the other sent up to some point. */
  ghost predicate InTouch(a: CNode, b: CNode, atA: nat, atB: nat)
    reads a, a.hSocket, a.vRecvMsg, b, b.hSocket, b.vRecvMsg
  {
    && Talking(a, b) && Hashes32(a) && Hashes32(b)
    && UpTo(b.arrived, a.hSocket.wire, atB) && UpTo(a.arrived, b.hSocket.wire, atA)
  }

  ghost predicate UpTo(arrived: seq<byte>, wire: seq<byte>, at: nat) {
    at <= |wire| && arrived == wire[..at]
  }

  lemma InTouchTurned(a: CNode, b: CNode, atA: nat, atB: nat)
    requires InTouch(a, b, atA, atB)
    ensures InTouch(b, a, atB, atA)
  {
    hide OneWay;
  }

  /** The next n bytes on the way to `b` arrive, or as many as there are, unless it is cut off. */
  method Reach(a: CNode, b: CNode, ghost atA: nat, atB: nat, n: nat) returns (now: nat)
    requires InTouch(a, b, atA, atB)
    modifies b`vRecvMsg, b`arrived, b.vRecvMsg
    ensures InTouch(a, b, atA, now)
    ensures now == if b.fDisconnect then atB else Min(atB + n, |a.hSocket.wire|)
    ensures forall i :: 0 <= i < |b.vRecvMsg| ==> b.vRecvMsg[i] in old(b.vRecvMsg) || fresh(b.vRecvMsg[i])
  {
    hide Talking;
    now := atB;
    var sent := a.hSocket.wire;
    if !b.fDisconnect {
      StillInStep(a, b);
      now := if atB + n < |sent| then atB + n else |sent|;
      var piece := sent[atB..now];
      assert sent[..atB] + piece == sent[..now];
      Pass(a, b, piece);
    }
  }

  /** Something happens to `a`. */
  method Act(a: CNode, b: CNode, atA: nat, ghost atB: nat, e: Event) returns (now: nat)
    requires InTouch(a, b, atA, atB) && e.Ok()
    modifies a, a.hSocket, a.vRecvMsg
    ensures InTouch(a, b, now, atB) && a.pushed == old(a.pushed) + MadeBy(a, e, e.first)
    ensures now == if e.Gets? && !a.fDisconnect then Min(atA + e.n, |b.hSocket.wire|) else atA
    ensures e.Sends? ==> a.vSendMsg == [] || CNode.CutShort(a.hSocket.calls)
    ensures forall i :: 0 <= i < |a.vRecvMsg| ==> a.vRecvMsg[i] in old(a.vRecvMsg) || fresh(a.vRecvMsg[i])
  {
    hide Talking;
    now := atA;
    match e
    case Says(_, _, _, _) => Say(a, b, e);
    case Sends(_) => Flush(a, b);
    case Gets(_, n) =>
      InTouchTurned(a, b, atA, atB);
      now := Reach(b, a, atB, atA, n);
      InTouchTurned(b, a, atB, now);
  }

  lemma TwoPeers(a: CNode, b: CNode)
    requires Talking(a, b)
    ensures a != b && a.hSocket != b.hSocket
  {
  }

  lemma NotSaid(a: CNode, e: Event)
    requires Hashes32(a)
    ensures a.pushed == a.pushed + MadeBy(a, e, !e.first)
  {
  }

  /** Something happens to one of the two. */
  method Step(a: CNode, b: CNode, atA: nat, atB: nat, e: Event) returns (nowA: nat, nowB: nat)
    requires InTouch(a, b, atA, atB) && e.Ok()
    modifies a, a.hSocket, a.vRecvMsg, b, b.hSocket, b.vRecvMsg
    ensures InTouch(a, b, nowA, nowB)
    ensures a.pushed == old(a.pushed) + MadeBy(a, e, true) && b.pushed == old(b.pushed) + MadeBy(b, e, false)
    ensures e.Sends? && e.first ==> a.vSendMsg == [] || CNode.CutShort(a.hSocket.calls)
    ensures e.Sends? && !e.first ==> b.vSendMsg == [] || CNode.CutShort(b.hSocket.calls)
    ensures e.Gets? && !e.first && !b.fDisconnect ==> nowB == Min(atB + e.n, |a.hSocket.wire|)
    ensures e.Gets? && e.first && !a.fDisconnect ==> nowA == Min(atA + e.n, |b.hSocket.wire|)
    ensures forall i :: 0 <= i < |a.vRecvMsg| ==> a.vRecvMsg[i] in old(a.vRecvMsg) || fresh(a.vRecvMsg[i])
    ensures forall i :: 0 <= i < |b.vRecvMsg| ==> b.vRecvMsg[i] in old(b.vRecvMsg) || fresh(b.vRecvMsg[i])
  {
    hide Talking, MadeBy;
    nowA, nowB := atA, atB;
    TwoPeers(a, b);
    NotSaid(a, e);
    NotSaid(b, e);
    if e.first {
      nowA := Act(a, b, atA, atB, e);
    } else {
      InTouchTurned(a, b, atA, atB);
      nowB := Act(b, a, atB, atA, e);
      InTouchTurned(b, a, nowB, atA);
    }
  }

  /** Whatever happens, in whatever order: each has the first messages the other made, and the
      beginning of the next, unless it was cut off; and when it gets all there is and nothing is
      left to send, it has all of them. */
  method Exchange(a: CNode, b: CNode, events: seq<Event>)
    requires Talking(a, b) && a.arrived == [] && b.arrived == [] && Hashes32(a) && Hashes32(b)
    requires forall i :: 0 <= i < |events| ==> events[i].Ok()
    modifies a, a.hSocket, a.vRecvMsg, b, b.hSocket, b.vRecvMsg
    ensures Talking(a, b)
    ensures a.pushed == old(a.pushed) + Made(a, events, true) && b.pushed == old(b.pushed) + Made(b, events, false)
    ensures !b.fDisconnect ==> b.InStep()
    ensures b.InStep() ==> Received(b.Progress(), a.pushed, b.arrived)
    ensures !a.fDisconnect ==> a.InStep()
    ensures a.InStep() ==> Received(a.Progress(), b.pushed, a.arrived)
    ensures GetsAll(events, false, |a.hSocket.wire|) && !b.fDisconnect && a.vSendMsg == [] ==>
      b.Progress() == Stream(a.pushed, [])
    ensures GetsAll(events, true, |b.hSocket.wire|) && !a.fDisconnect && b.vSendMsg == [] ==>
      a.Progress() == Stream(b.pushed, [])
    ensures events != [] && events[|events| - 1] == Sends(true) ==>
      a.vSendMsg == [] || CNode.CutShort(a.hSocket.calls)
    ensures events != [] && events[|events| - 1] == Sends(false) ==>
      b.vSendMsg == [] || CNode.CutShort(b.hSocket.calls)
  {
    hide Talking, MadeBy, Received, CNode.InStep, CNode.Current, CNode.Progress;
    var atA, atB, i := 0, 0, 0;
    while i < |events|
      invariant 0 <= i <= |events| && InTouch(a, b, atA, atB)
      invariant a.pushed == old(a.pushed) + Made(a, events[..i], true)
      invariant b.pushed == old(b.pushed) + Made(b, events[..i], false)
      invariant GetsAll(events[..i], false, |a.hSocket.wire|) && !b.fDisconnect ==> atB == |a.hSocket.wire|
      invariant GetsAll(events[..i], true, |b.hSocket.wire|) && !a.fDisconnect ==> atA == |b.hSocket.wire|
      invariant i > 0 && events[i - 1] == Sends(true) ==> a.vSendMsg == [] || CNode.CutShort(a.hSocket.calls)
      invariant i > 0 && events[i - 1] == Sends(false) ==> b.vSendMsg == [] || CNode.CutShort(b.hSocket.calls)
      invariant forall j :: 0 <= j < |a.vRecvMsg| ==> a.vRecvMsg[j] in old(a.vRecvMsg) || fresh(a.vRecvMsg[j])
      invariant forall j :: 0 <= j < |b.vRecvMsg| ==> b.vRecvMsg[j] in old(b.vRecvMsg) || fresh(b.vRecvMsg[j])
    {
      atA, atB := Step(a, b, atA, atB, events[i]);
      assert events[..i + 1][..i] == events[..i];
      i := i + 1;
    }
    assert events[..i] == events;
    Arrived(a, b, atA, atB);
  }

  lemma Arrived(a: CNode, b: CNode, atA: nat, atB: nat)
    requires InTouch(a, b, atA, atB)
    ensures !b.fDisconnect ==> b.InStep()
    ensures b.InStep() ==> Received(b.Progress(), a.pushed, b.arrived)
    ensures b.InStep() && a.vSendMsg == [] && atB == |a.hSocket.wire| ==> b.Progress() == Stream(a.pushed, [])
    ensures !a.fDisconnect ==> a.InStep()
    ensures a.InStep() ==> Received(a.Progress(), b.pushed, a.arrived)
    ensures a.InStep() && b.vSendMsg == [] && atA == |b.hSocket.wire| ==> a.Progress() == Stream(b.pushed, [])
  {
    WhatArrived(a, b, atB);
    WhatArrived(b, a, atA);
  }

  /** At the end one of the two gets whatever there is. */
  ghost predicate GetsAll(events: seq<Event>, first: bool, size: nat) {
    events != [] && var last := events[|events| - 1]; last.Gets? && last.first == first && last.n >= size
  }

  lemma WhatArrived(a: CNode, b: CNode, at: nat)
    requires OneWay(a, b) && UpTo(b.arrived, a.hSocket.wire, at)
    ensures !b.fDisconnect ==> b.InStep()
    ensures b.InStep() ==> Received(b.Progress(), a.pushed, b.arrived)
    ensures b.InStep() && a.vSendMsg == [] && at == |a.hSocket.wire| ==> b.Progress() == Stream(a.pushed, [])
  {
    if b.InStep() {
      EndToEnd(a, b);
      if a.vSendMsg == [] && at == |a.hSocket.wire| {
        AllDelivered(a, b);
      }
    }
  }
}
