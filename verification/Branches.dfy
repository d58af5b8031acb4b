/** The parts of Reorganize: disconnecting one branch, connecting the other, and moving
    the forward links and recorded money along. */
module Branches {
  import opened Wrappers
  import opened Transactions
  import opened Ledger
  import opened Money
  import opened Blocks
  import opened TxDatabase
  import opened Inputs
  import opened Connect
  import opened Chain

  /** Where pnext should point on the chain ending in `tip`; null off that chain. */
  ghost function NextOn(x: CBlockIndex, tip: CBlockIndex): CBlockIndex?
    requires Linked(tip)
  {
    if OnPath(x, tip) && x != tip then Anc(tip, x.nHeight + 1) else null
  }

  ghost predicate PnextExact(nodes: set<CBlockIndex>, tip: CBlockIndex)
    requires Linked(tip)
    reads nodes`pnext
  {
    forall x :: x in nodes ==> x.pnext == NextOn(x, tip)
  }

  ghost predicate RecordedAt(o: Oracle, b: CBlockIndex)
    reads b`nMoneySupply
  {
    Linked(b) && b.nMoneySupply == Supply(o.disk, Replay(o, b))
  }

  /** Each block on the chain records the money its replay leaves in circulation. */
  ghost predicate MoneyExact(o: Oracle, nodes: set<CBlockIndex>, tip: CBlockIndex)
    requires Linked(tip)
    reads nodes`nMoneySupply
  {
    forall x :: x in nodes && OnPath(x, tip) ==> RecordedAt(o, x)
  }

  lemma NextStep(x: CBlockIndex, b: CBlockIndex)
    requires Linked(b) && b.pprev != null
    ensures NextOn(x, b) == if x == b.pprev then b else NextOn(x, b.pprev)
  {
    assert Anc(b.pprev, b.nHeight - 1) == b.pprev;
    if OnPath(x, b) && x != b && x != b.pprev {
      assert x.nHeight < b.nHeight - 1;
    }
  }

  /** Unlinking the tip leaves the links of the chain that ends in its parent. */
  method ClearNext(ghost nodes: set<CBlockIndex>, b: CBlockIndex)
    requires Linked(b) && b.pprev != null && b.pprev in nodes && PnextExact(nodes, b)
    modifies b.pprev`pnext
    ensures PnextExact(nodes, b.pprev)
  {
    b.pprev.pnext := null;
    forall x | x in nodes ensures x.pnext == NextOn(x, b.pprev) {
      NextStep(x, b);
    }
  }

  method SetNext(ghost nodes: set<CBlockIndex>, b: CBlockIndex)
    requires Linked(b) && b.pprev != null && b.pprev in nodes && PnextExact(nodes, b.pprev)
    modifies b.pprev`pnext
    ensures PnextExact(nodes, b)
  {
    b.pprev.pnext := b;
    forall x | x in nodes ensures x.pnext == NextOn(x, b) {
      NextStep(x, b);
    }
  }

  /** The blocks of `v` lead from `tip` down to just above `fork`. */
  ghost predicate Descends(v: seq<CBlockIndex>, tip: CBlockIndex, fork: CBlockIndex)
    requires Linked(tip)
  {
    OnPath(fork, tip) && v == Down(tip, fork)
  }

  /** The blocks of `v` lead from just above `fork` up to `tip`. */
  ghost predicate Ascends(v: seq<CBlockIndex>, fork: CBlockIndex, tip: CBlockIndex)
    requires Linked(tip)
  {
    OnPath(fork, tip) && v == Up(fork, tip)
  }

  lemma DescendStep(v: seq<CBlockIndex>, tip: CBlockIndex, fork: CBlockIndex, i: nat)
    requires Linked(tip) && Descends(v, tip, fork) && i < |v|
    ensures v[i] == Anc(tip, tip.nHeight - i) && v[i].pprev != null && v[i].pprev == Anc(tip, tip.nHeight - i - 1)
  {
    AncParent(tip, tip.nHeight - i - 1);
  }

  lemma AscendStep(v: seq<CBlockIndex>, fork: CBlockIndex, tip: CBlockIndex, i: nat)
    requires Linked(tip) && Ascends(v, fork, tip) && i < |v|
    ensures v[i] == Anc(tip, fork.nHeight + i + 1) && v[i].pprev != null && v[i].pprev == Anc(tip, fork.nHeight + i)
  {
    AncParent(tip, fork.nHeight + i);
  }

  lemma AscendHeights(v: seq<CBlockIndex>, fork: CBlockIndex, tip: CBlockIndex)
    requires Linked(tip) && Ascends(v, fork, tip)
    ensures forall j :: 0 <= j < |v| ==> v[j].nHeight == fork.nHeight + 1 + j
  {
    forall j | 0 <= j < |v| ensures v[j].nHeight == fork.nHeight + 1 + j {
      assert v[j] == Anc(tip, fork.nHeight + 1 + j);
    }
  }

  lemma AscendLinked(v: seq<CBlockIndex>, fork: CBlockIndex, tip: CBlockIndex, i: nat)
    requires Linked(tip) && Ascends(v, fork, tip) && i < |v|
    ensures Linked(v[i])
  {
    assert v[i] == Anc(tip, fork.nHeight + 1 + i);
  }

  // ------------------------------------------------------------- disconnect and connect

  /** The database view is the replay of `tip`, up to missing fully spent entries. */
  ghost predicate ShowsChain(o: Oracle, view: IndexMap, tip: CBlockIndex)
    requires Linked(tip)
  {
    Applicable(o, tip) && Trims(view, Replay(o, tip))
  }

  lemma ShowsStep(o: Oracle, view: IndexMap, b: CBlockIndex)
    requires Linked(b) && b.pprev != null && ShowsChain(o, view, b)
    ensures UndoTxs(view, b.block.vtx).Some? ==> ShowsChain(o, UndoTxs(view, b.block.vtx).value, b.pprev)
  {
    if UndoTxs(view, b.block.vtx).Some? {
      DisconnectStep(o, view, b);
    }
  }

  /** The index that undoing the blocks in their order leaves; none when one cannot be undone. */
  ghost function UndoBlocks(view: IndexMap, v: seq<CBlockIndex>): Option<IndexMap>
    decreases |v|
  {
    if v == [] then Some(view)
    else
      match UndoTxs(view, v[0].block.vtx)
      case None => None
      case Some(before) => UndoBlocks(before, v[1..])
  }

  /** Each block would be accepted on the index that the one before it leaves. */
  ghost predicate BlocksAccepted(o: Oracle, view: IndexMap, v: seq<CBlockIndex>, bestHeight: int)
    decreases |v|
  {
    v == []
    || (Linked(v[0]) && BlockAccepted(o, view, v[0], bestHeight)
        && BlocksAccepted(o, Apply(view, BatchOf(o, v[0])), v[1..], bestHeight))
  }

  ghost function ApplyBlocks(o: Oracle, view: IndexMap, v: seq<CBlockIndex>): IndexMap
    decreases |v|
  {
    if v == [] then view else ApplyBlocks(o, Apply(view, BatchOf(o, v[0])), v[1..])
  }

  lemma UndoBlocksStep(view: IndexMap, v: seq<CBlockIndex>, i: nat)
    requires i < |v|
    ensures UndoBlocks(view, v[i..]) ==
      match UndoTxs(view, v[i].block.vtx) case None => None case Some(before) => UndoBlocks(before, v[i + 1..])
  {
    assert v[i..][1..] == v[i + 1..];
  }

  lemma BlocksStep(o: Oracle, view: IndexMap, v: seq<CBlockIndex>, bestHeight: int, i: nat)
    requires i < |v| && Linked(v[i])
    ensures var next := Apply(view, BatchOf(o, v[i]));
      && (BlocksAccepted(o, view, v[i..], bestHeight) <==>
            BlockAccepted(o, view, v[i], bestHeight) && BlocksAccepted(o, next, v[i + 1..], bestHeight))
      && ApplyBlocks(o, view, v[i..]) == ApplyBlocks(o, next, v[i + 1..])
  {
    assert v[i..][1..] == v[i + 1..];
  }

  /** No transaction of the block was in the index when its turn came. */
  ghost predicate NoRepeat(o: Oracle, b: CBlockIndex)
    requires Linked(b)
  {
    b.pprev != null && forall i :: 0 <= i < |b.block.vtx| ==> b.block.vtx[i].hash !in Replay(o, b.pprev)
  }

  /** Blocks that repeat no transaction can always be undone, and undoing leads back exactly. */
  lemma {:induction false} UndoIsReplay(o: Oracle, best: CBlockIndex, fork: CBlockIndex)
    requires Linked(best) && OnPath(fork, best) && Applicable(o, best)
    requires forall h: nat :: fork.nHeight < h <= best.nHeight ==> NoRepeat(o, Anc(best, h))
    ensures Linked(fork) && UndoBlocks(Replay(o, best), Down(best, fork)) == Some(Replay(o, fork))
    decreases best.nHeight
  {
    assert Anc(best, fork.nHeight) == fork;
    if fork.nHeight < best.nHeight {
      var v := Down(best, fork);
      assert NoRepeat(o, Anc(best, best.nHeight)) && v[0] == best;
      ConnectThenDisconnect(Replay(o, best.pprev), BatchOf(o, best));
      assert v[1..] == Down(best.pprev, fork);
      forall h: nat | fork.nHeight < h <= best.pprev.nHeight ensures NoRepeat(o, Anc(best.pprev, h)) {
        assert NoRepeat(o, Anc(best, h));
      }
      UndoIsReplay(o, best.pprev, fork);
    }
  }

  /** The view is that of the block i below `b`. */
  ghost predicate ShowsBelow(o: Oracle, view: IndexMap, b: CBlockIndex, i: nat)
    requires Linked(b)
  {
    i <= b.nHeight && ShowsChain(o, view, Anc(b, b.nHeight - i))
  }

  lemma ShowsEnds(o: Oracle, best: CBlockIndex, fork: CBlockIndex, v: seq<CBlockIndex>)
    requires Linked(best) && Descends(v, best, fork)
    ensures Linked(fork)
    ensures forall view :: ShowsBelow(o, view, best, 0) <==> ShowsChain(o, view, best)
    ensures forall view :: ShowsBelow(o, view, best, |v|) <==> ShowsChain(o, view, fork)
  {
    assert Anc(best, fork.nHeight) == fork;
  }

  method DisconnectAt(ghost o: Oracle, txdb: CTxDB, ghost best: CBlockIndex, ghost fork: CBlockIndex,
                      ghost v: seq<CBlockIndex>, ghost i: nat, b: CBlockIndex)
    returns (ok: bool)
    requires Linked(best) && Descends(v, best, fork) && i < |v| && b == v[i] && ShowsBelow(o, txdb.View(), best, i)
    modifies txdb
    ensures ok <==> UndoTxs(old(txdb.View()), b.block.vtx).Some?
    ensures ok ==> txdb.View() == UndoTxs(old(txdb.View()), b.block.vtx).value
    ensures ok ==> ShowsBelow(o, txdb.View(), best, i + 1)
    ensures txdb.StaysInTxn()
  {
    DescendStep(v, best, fork, i);
    hide Descends, ShowsChain, Anc, Linked;
    ShowsStep(o, txdb.View(), b);
    ok := DisconnectBlock(txdb, b);
  }

  /** Disconnects the blocks in their order; `undone` are those it came to. */
  method DisconnectBranch(ghost o: Oracle, txdb: CTxDB, ghost best: CBlockIndex, ghost fork: CBlockIndex,
                          v: seq<CBlockIndex>)
    returns (ok: bool, ghost undone: seq<CBlockIndex>)
    requires Linked(best) && Descends(v, best, fork) && ShowsChain(o, txdb.View(), best)
    modifies txdb
    ensures ok <==> UndoBlocks(old(txdb.View()), v).Some?
    ensures ok ==> txdb.View() == UndoBlocks(old(txdb.View()), v).value
    ensures ok ==> Linked(fork) && ShowsChain(o, txdb.View(), fork)
    ensures undone <= v && (ok ==> undone == v) && txdb.StaysInTxn()
  {
    undone := [];
    assert v[0..] == v;
    ShowsEnds(o, best, fork, v);
    hide *;
    assert UndoBlocks(txdb.View(), []) == Some(txdb.View());
    var i := 0;
    while i < |v|
      invariant 0 <= i <= |v| && txdb.StaysInTxn()
      invariant ShowsBelow(o, txdb.View(), best, i)
      invariant undone == v[..i] && UndoBlocks(txdb.View(), v[i..]) == UndoBlocks(old(txdb.View()), v)
    {
      UndoBlocksStep(txdb.View(), v, i);
      undone := undone + [v[i]];
      ok := DisconnectAt(o, txdb, best, fork, v, i, v[i]);
      if !ok {
        return;
      }
      i := i + 1;
    }
    ok := true;
  }

  method ConnectNextBlock(o: Oracle, pool: Pool, txdb: CTxDB, b: CBlockIndex, bestHeight: int) returns (ok: bool)
    requires Anchored(o, b) && Linked(b) && b.pprev != null && ShowsChain(o, txdb.View(), b.pprev)
    requires RecordedAt(o, b.pprev)
    modifies txdb, b`nMint, b`nMoneySupply
    ensures ok ==>
      txdb.View() == Apply(old(txdb.View()), BatchOf(o, b)) && ShowsChain(o, txdb.View(), b) && RecordedAt(o, b)
    ensures !ok ==> txdb.View() == old(txdb.View()) && b.nMoneySupply == old(b.nMoneySupply)
    ensures ok <==> BlockAccepted(o, old(txdb.View()), b, bestHeight)
    ensures txdb.StaysInTxn()
  {
    ghost var before := txdb.View();
    ReplaySound(o, b.pprev);
    TrimsSound(o, before, Replay(o, b.pprev));
    hide BlockAccepted, TotalsAt, Sound, Trims, Replay, Apply;
    ok := ConnectBlock(o, pool, txdb, b, bestHeight);
    if ok {
      ConnectStep(o, before, b, bestHeight);
    }
  }

  /** Every block of `v` records its money. */
  ghost predicate Recorded(o: Oracle, v: seq<CBlockIndex>)
    reads v`nMoneySupply
  {
    forall x :: x in v ==> RecordedAt(o, x)
  }

  /** Only blocks of `v` had their recorded money changed. */
  twostate predicate OnlyThese(nodes: set<CBlockIndex>, v: seq<CBlockIndex>)
    reads nodes`nMoneySupply
  {
    forall x :: x in nodes && x !in v ==> x.nMoneySupply == old(x.nMoneySupply)
  }

  /** The view is that of the block i above `fork`. */
  ghost predicate ShowsAbove(o: Oracle, view: IndexMap, fork: CBlockIndex, tip: CBlockIndex, i: nat)
    requires Linked(tip)
  {
    fork.nHeight + i <= tip.nHeight && ShowsChain(o, view, Anc(tip, fork.nHeight + i))
  }

  /** The fork and the first i blocks record their money. */
  ghost predicate RecordedUpTo(o: Oracle, fork: CBlockIndex, v: seq<CBlockIndex>, i: nat)
    requires i <= |v|
    reads fork`nMoneySupply, v[..i]`nMoneySupply
  {
    RecordedAt(o, fork) && forall j :: 0 <= j < i ==> RecordedAt(o, v[j])
  }

  lemma RecordedEnds(o: Oracle, fork: CBlockIndex, v: seq<CBlockIndex>)
    ensures RecordedUpTo(o, fork, v, 0) <==> RecordedAt(o, fork)
    ensures RecordedUpTo(o, fork, v, |v|) ==> Recorded(o, v)
  {
  }

  lemma RecordedStep(o: Oracle, fork: CBlockIndex, v: seq<CBlockIndex>, i: nat)
    requires i < |v|
    ensures RecordedUpTo(o, fork, v, i) && RecordedAt(o, v[i]) ==> RecordedUpTo(o, fork, v, i + 1)
  {
  }

  lemma AboveEnds(o: Oracle, fork: CBlockIndex, tip: CBlockIndex, v: seq<CBlockIndex>)
    requires Linked(tip) && Linked(fork) && Ascends(v, fork, tip)
    ensures forall view :: ShowsAbove(o, view, fork, tip, 0) <==> ShowsChain(o, view, fork)
    ensures forall view :: ShowsAbove(o, view, fork, tip, |v|) <==> ShowsChain(o, view, tip)
  {
    assert Anc(tip, tip.nHeight) == tip && Anc(tip, fork.nHeight) == fork;
  }

  /** What the next block needs. */
  lemma NextIsReady(o: Oracle, view: IndexMap, fork: CBlockIndex, tip: CBlockIndex, v: seq<CBlockIndex>, i: nat)
    requires Linked(tip) && Anchored(o, tip) && Ascends(v, fork, tip) && i < |v|
    requires ShowsAbove(o, view, fork, tip, i) && RecordedUpTo(o, fork, v, i)
    ensures Linked(v[i]) && Anchored(o, v[i]) && v[i].pprev != null && v[i] != fork && v[i] !in v[..i]
    ensures ShowsChain(o, view, v[i].pprev) && RecordedAt(o, v[i].pprev)
    ensures forall next :: ShowsAbove(o, next, fork, tip, i + 1) <==> ShowsChain(o, next, v[i])
  {
    AscendStep(v, fork, tip, i);
    AnchoredAnc(o, tip, fork.nHeight + i + 1);
    AscendHeights(v, fork, tip);
    if i > 0 {
      AscendStep(v, fork, tip, i - 1);
    }
  }

  method ConnectAt(o: Oracle, pool: Pool, txdb: CTxDB, ghost fork: CBlockIndex, ghost tip: CBlockIndex,
                   ghost v: seq<CBlockIndex>, ghost i: nat, b: CBlockIndex, bestHeight: int)
    returns (ok: bool)
    requires Linked(tip) && Anchored(o, tip) && Ascends(v, fork, tip) && i < |v| && b == v[i]
    requires ShowsAbove(o, txdb.View(), fork, tip, i) && RecordedUpTo(o, fork, v, i)
    modifies txdb, b`nMint, b`nMoneySupply
    ensures Linked(b)
    ensures ok <==> BlockAccepted(o, old(txdb.View()), b, bestHeight)
    ensures ok ==> txdb.View() == Apply(old(txdb.View()), BatchOf(o, b)) && ShowsAbove(o, txdb.View(), fork, tip, i + 1)
    ensures ok ==> RecordedUpTo(o, fork, v, i + 1)
    ensures txdb.StaysInTxn()
  {
    hide Anchored, ShowsChain, ShowsAbove, RecordedAt, RecordedUpTo, BlockAccepted, Apply, Linked, Ascends;
    NextIsReady(o, txdb.View(), fork, tip, v, i);
    ok := ConnectNextBlock(o, pool, txdb, b, bestHeight);
    RecordedStep(o, fork, v, i);
  }

  method ConnectBranch(o: Oracle, pool: Pool, txdb: CTxDB, ghost nodes: set<CBlockIndex>, fork: CBlockIndex,
                       ghost tip: CBlockIndex, v: seq<CBlockIndex>, bestHeight: int)
    returns (ok: bool)
    requires Linked(tip) && Anchored(o, tip) && Ascends(v, fork, tip) && Linked(fork) &&
      ShowsChain(o, txdb.View(), fork)
    requires RecordedAt(o, fork)
    requires forall i :: 0 <= i < |v| ==> v[i] in nodes
    modifies txdb, nodes`nMint, nodes`nMoneySupply
    ensures ok <==> BlocksAccepted(o, old(txdb.View()), v, bestHeight)
    ensures ok ==>
      txdb.View() == ApplyBlocks(o, old(txdb.View()), v) && ShowsChain(o, txdb.View(), tip) && Recorded(o, v)
    ensures OnlyThese(nodes, v) && txdb.StaysInTxn()
  {
    hide Linked, ShowsChain, ShowsAbove, Anchored, Ascends, RecordedAt, RecordedUpTo, Recorded, BlockAccepted, Apply;
    AboveEnds(o, fork, tip, v);
    RecordedEnds(o, fork, v);
    assert v[0..] == v;
    var i := 0;
    while i < |v|
      invariant 0 <= i <= |v| && txdb.StaysInTxn()
      invariant ShowsAbove(o, txdb.View(), fork, tip, i) && RecordedUpTo(o, fork, v, i)
      invariant OnlyThese(nodes, v)
      invariant BlocksAccepted(o, txdb.View(), v[i..], bestHeight) <==>
        BlocksAccepted(o, old(txdb.View()), v, bestHeight)
      invariant ApplyBlocks(o, txdb.View(), v[i..]) == ApplyBlocks(o, old(txdb.View()), v)
    {
      AscendLinked(v, fork, tip, i);
      BlocksStep(o, txdb.View(), v, bestHeight, i);
      ok := ConnectAt(o, pool, txdb, fork, tip, v, i, v[i], bestHeight);
      if !ok {
        return;
      }
      i := i + 1;
    }
    RecordedEnds(o, fork, v);
    ok := true;
  }

  // -------------------------------------------------------------------- forward links

  ghost predicate PnextDown(nodes: set<CBlockIndex>, best: CBlockIndex, i: nat)
    requires Linked(best)
    reads nodes`pnext
  {
    i <= best.nHeight && PnextExact(nodes, Anc(best, best.nHeight - i))
  }

  lemma PnextEnds(nodes: set<CBlockIndex>, best: CBlockIndex, fork: CBlockIndex)
    requires Linked(best) && OnPath(fork, best)
    ensures Linked(fork)
    ensures PnextDown(nodes, best, 0) <==> PnextExact(nodes, best)
    ensures PnextDown(nodes, best, best.nHeight - fork.nHeight) <==> PnextExact(nodes, fork)
  {
    assert Anc(best, fork.nHeight) == fork;
  }

  method UnlinkBranch(ghost nodes: set<CBlockIndex>, ghost best: CBlockIndex, ghost fork: CBlockIndex,
                      v: seq<CBlockIndex>)
    requires Linked(best) && Descends(v, best, fork) && PnextExact(nodes, best)
    requires forall i :: 0 <= i < |v| ==> v[i].pprev != null && v[i].pprev in nodes
    modifies nodes`pnext
    ensures Linked(fork) && PnextExact(nodes, fork)
  {
    hide Anc, Linked, PnextExact, PnextDown;
    PnextEnds(nodes, best, fork);
    var i := 0;
    while i < |v|
      invariant 0 <= i <= |v| && PnextDown(nodes, best, i)
    {
      UnlinkAt(nodes, best, fork, v, i);
      i := i + 1;
    }
    PnextEnds(nodes, best, fork);
  }

  method UnlinkAt(ghost nodes: set<CBlockIndex>, ghost best: CBlockIndex, ghost fork: CBlockIndex,
                  v: seq<CBlockIndex>, i: nat)
    requires Linked(best) && Descends(v, best, fork) && i < |v| && PnextDown(nodes, best, i)
    requires v[i].pprev != null && v[i].pprev in nodes
    modifies nodes`pnext
    ensures PnextDown(nodes, best, i + 1)
  {
    DescendStep(v, best, fork, i);
    hide Descends, PnextExact;
    // the source tests pprev first: only the genesis block has none, and it is never disconnected
    ClearNext(nodes, v[i]);
  }

  method LinkBranch(ghost nodes: set<CBlockIndex>, ghost fork: CBlockIndex, ghost tip: CBlockIndex, v: seq<CBlockIndex>)
    requires Linked(tip) && Ascends(v, fork, tip) && Linked(fork) && PnextExact(nodes, fork)
    requires forall i :: 0 <= i < |v| ==> v[i].pprev != null && v[i].pprev in nodes
    modifies nodes`pnext
    ensures PnextExact(nodes, tip)
  {
    hide Anc, Linked, PnextExact, PnextDown;
    PnextEnds(nodes, tip, fork);
    var i := 0;
    while i < |v|
      invariant 0 <= i <= |v| && PnextDown(nodes, tip, |v| - i)
    {
      LinkAt(nodes, fork, tip, v, i);
      i := i + 1;
    }
    PnextEnds(nodes, tip, fork);
  }

  method LinkAt(ghost nodes: set<CBlockIndex>, ghost fork: CBlockIndex, ghost tip: CBlockIndex, v: seq<CBlockIndex>,
                i: nat)
    requires Linked(tip) && Ascends(v, fork, tip) && i < |v| && PnextDown(nodes, tip, |v| - i)
    requires v[i].pprev != null && v[i].pprev in nodes
    modifies nodes`pnext
    ensures PnextDown(nodes, tip, |v| - i - 1)
  {
    AscendStep(v, fork, tip, i);
    hide PnextExact;
    SetNext(nodes, v[i]);
  }
}
