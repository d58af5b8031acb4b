/**
 The block tree and its replay: the index a chain of blocks produces from genesis, and
 the laws by which connecting and disconnecting move between replays.
 */
module Chain {
  import opened Transactions
  import opened Ledger
  import opened Money
  import opened Blocks
  import opened Connect
  import opened BlockMoney

  /** The node and its ancestors are numbered and stored. */
  ghost predicate Anchored(o: Oracle, b: CBlockIndex)
    decreases b.nHeight
  {
    && Stored(o, b)
    && if b.pprev == null then b.nHeight == 0
       else b.pprev.nHeight == b.nHeight - 1 && Anchored(o, b.pprev)
  }

  lemma {:induction false} AnchoredLinked(o: Oracle, b: CBlockIndex)
    requires Anchored(o, b)
    ensures Linked(b)
    decreases b.nHeight
  {
    if b.pprev != null {
      AnchoredLinked(o, b.pprev);
    }
  }

  lemma {:induction false} AnchoredAnc(o: Oracle, b: CBlockIndex, h: nat)
    requires Anchored(o, b) && Linked(b) && h <= b.nHeight
    ensures Anchored(o, Anc(b, h))
    decreases b.nHeight
  {
    if h < b.nHeight {
      AnchoredAnc(o, b.pprev, h);
    }
  }

  /** The index after connecting every block from genesis to `b`.  The genesis block is
      never connected: its coinbase is not in the index. */
  ghost function Replay(o: Oracle, b: CBlockIndex): IndexMap
    requires Linked(b)
    decreases b.nHeight
  {
    if b.pprev == null then map[] else Apply(Replay(o, b.pprev), BatchOf(o, b))
  }

  /** Every block on the way to `b` could be applied in its turn. */
  ghost predicate Applicable(o: Oracle, b: CBlockIndex)
    requires Linked(b)
    decreases b.nHeight
  {
    b.pprev == null
    || (Applicable(o, b.pprev) && BatchOf(o, b).Valid() && CanApply(Replay(o, b.pprev), BatchOf(o, b)))
  }

  lemma {:induction false} ApplicableAnc(o: Oracle, b: CBlockIndex, h: nat)
    requires Linked(b) && h <= b.nHeight && Applicable(o, b)
    ensures Applicable(o, Anc(b, h))
    decreases b.nHeight
  {
    if h < b.nHeight {
      ApplicableAnc(o, b.pprev, h);
    }
  }

  lemma {:induction false} ReplaySound(o: Oracle, b: CBlockIndex)
    requires Anchored(o, b) && Linked(b)
    ensures Sound(o, Replay(o, b))
    decreases b.nHeight
  {
    if b.pprev != null {
      ReplaySound(o, b.pprev);
      BeforeSound(o, Replay(o, b.pprev), b, |b.block.vtx|);
    }
  }

  lemma TrimsSound(o: Oracle, a: IndexMap, r: IndexMap)
    requires Trims(a, r) && Sound(o, r)
    ensures Sound(o, a)
  {
    forall h | h in a ensures SoundEntry(o, h, a[h]) {
      assert SoundEntry(o, h, r[h]);
    }
  }

  /** What one accepted block does to an index that trims the replay of its parent. */
  lemma ConnectStep(o: Oracle, a: IndexMap, b: CBlockIndex, bestHeight: int)
    requires Anchored(o, b) && Linked(b) && b.pprev != null
    requires Applicable(o, b.pprev) && Trims(a, Replay(o, b.pprev)) && BlockAccepted(o, a, b, bestHeight)
    ensures Applicable(o, b) && Trims(Apply(a, BatchOf(o, b)), Replay(o, b))
    ensures var t := TotalsAt(o, a, b, bestHeight, |b.block.vtx|);
      Supply(o.disk, Replay(o, b)) == Supply(o.disk, Replay(o, b.pprev)) + t.valueOut - t.valueIn
  {
    var r, batch := Replay(o, b.pprev), BatchOf(o, b);
    ReplaySound(o, b.pprev);
    TrimsSound(o, a, r);
    AcceptedCanApply(o, a, b, bestHeight);
    ApplyTxsTrims(a, r, batch, |batch.txs|);
    BlockSupply(o, a, b, bestHeight);
    TrimsSupply(o.disk, a, r);
    TrimsSupply(o.disk, Apply(a, batch), Apply(r, batch));
  }

  /** Undoing the last block, when it succeeds, leads back to its parent. */
  lemma DisconnectStep(o: Oracle, a: IndexMap, b: CBlockIndex)
    requires Linked(b) && b.pprev != null && Applicable(o, b) && Trims(a, Replay(o, b))
    requires UndoTxs(a, b.block.vtx).Some?
    ensures Applicable(o, b.pprev) && Trims(UndoTxs(a, b.block.vtx).value, Replay(o, b.pprev))
  {
    var batch := BatchOf(o, b);
    assert batch.txs[..|batch.txs|] == batch.txs;
    UndoTxsTrims(a, Replay(o, b.pprev), batch, |batch.txs|);
  }

  // ------------------------------------------------------------------- the fork point

  /** `f` is the last block the two chains share. */
  ghost predicate IsFork(f: CBlockIndex, a: CBlockIndex, b: CBlockIndex)
    requires Linked(a) && Linked(b)
  {
    && OnPath(f, a) && OnPath(f, b)
    && forall h: nat :: f.nHeight < h <= a.nHeight && h <= b.nHeight ==> Anc(a, h) != Anc(b, h)
  }

  /** The last block two chains share, looked for along the first; null when there is none. */
  ghost function LastShared(a: CBlockIndex, b: CBlockIndex): (f: CBlockIndex?)
    requires Linked(a) && Linked(b)
    ensures f != null ==> OnPath(f, a) && OnPath(f, b)
    decreases a.nHeight
  {
    if OnPath(a, b) then a else if a.pprev == null then null else LastShared(a.pprev, b)
  }

  lemma {:induction false} ForkIsLastShared(f: CBlockIndex, a: CBlockIndex, b: CBlockIndex)
    requires Linked(a) && Linked(b) && IsFork(f, a, b)
    ensures LastShared(a, b) == f
    decreases a.nHeight
  {
    if !OnPath(a, b) {
      ForkIsLastShared(f, a.pprev, b);
    }
  }

  /** The fork loop of Reorganize. */
  method FindFork(best: CBlockIndex, pindexNew: CBlockIndex) returns (fork: CBlockIndex?)
    requires Linked(best) && Linked(pindexNew)
    ensures fork != null ==> IsFork(fork, best, pindexNew)
    ensures fork == null ==> forall h: nat :: h <= best.nHeight && h <= pindexNew.nHeight ==>
      Anc(best, h) != Anc(pindexNew, h)
  {
    var pfork: CBlockIndex, plonger: CBlockIndex := best, pindexNew;
    while pfork != plonger
      invariant OnPath(pfork, best) && OnPath(plonger, pindexNew) && Linked(pfork) && Linked(plonger)
      invariant plonger == pindexNew || plonger.nHeight >= pfork.nHeight
      invariant forall h: nat :: pfork.nHeight < h <= best.nHeight && h <= pindexNew.nHeight ==>
        Anc(best, h) != Anc(pindexNew, h)
      decreases pfork.nHeight
    {
      while plonger.nHeight > pfork.nHeight
        invariant OnPath(plonger, pindexNew) && Linked(plonger)
        invariant plonger == pindexNew || plonger.nHeight >= pfork.nHeight
        decreases plonger.nHeight
      {
        if plonger.pprev == null {
          return null;
        }
        AncAnc(pindexNew, plonger.nHeight, plonger.nHeight - 1);
        plonger := plonger.pprev;
      }
      if pfork == plonger {
        break;
      }
      if pfork.pprev == null {
        return null;
      }
      AncAnc(best, pfork.nHeight, pfork.nHeight - 1);
      pfork := pfork.pprev;
    }
    fork := pfork;
  }

  /** The blocks from `tip` down to just above `fork`. */
  ghost function Down(tip: CBlockIndex, fork: CBlockIndex): (v: seq<CBlockIndex>)
    requires Linked(tip) && fork.nHeight <= tip.nHeight
  {
    seq<CBlockIndex>(tip.nHeight - fork.nHeight,
      i requires 0 <= i < tip.nHeight - fork.nHeight => Anc(tip, tip.nHeight - i))
  }

  /** The blocks from just above `fork` up to `tip`. */
  ghost function Up(fork: CBlockIndex, tip: CBlockIndex): (v: seq<CBlockIndex>)
    requires Linked(tip) && fork.nHeight <= tip.nHeight
  {
    seq<CBlockIndex>(tip.nHeight - fork.nHeight,
      i requires 0 <= i < tip.nHeight - fork.nHeight => Anc(tip, fork.nHeight + 1 + i))
  }

  /** `vDisconnect`: the blocks from `best` down to just above the fork. */
  method DisconnectList(best: CBlockIndex, fork: CBlockIndex) returns (v: seq<CBlockIndex>)
    requires Linked(best) && OnPath(fork, best)
    ensures v == Down(best, fork)
  {
    v := [];
    var p: CBlockIndex := best;
    while p != fork
      invariant Linked(p) && fork.nHeight <= p.nHeight && OnPath(p, best)
      invariant |v| == best.nHeight - p.nHeight
      invariant forall i :: 0 <= i < |v| ==> v[i] == Anc(best, best.nHeight - i)
      decreases p.nHeight
    {
      assert p.nHeight > fork.nHeight;
      AncAnc(best, p.nHeight, p.nHeight - 1);
      v := v + [p];
      p := p.pprev;
    }
  }

  /** `vConnect` after the reversal: the blocks from just above the fork up to `pindexNew`. */
  method ConnectList(pindexNew: CBlockIndex, fork: CBlockIndex) returns (v: seq<CBlockIndex>)
    requires Linked(pindexNew) && OnPath(fork, pindexNew)
    ensures v == Up(fork, pindexNew)
  {
    var down := DisconnectList(pindexNew, fork);
    v := seq(|down|, i requires 0 <= i < |down| => down[|down| - 1 - i]);
  }
}
