/** What the maturity check of ConnectInputs comes to: how far below a block the coinbases and
    coinstakes lie that it spends. */
module Maturity {
  import opened Wrappers
  import opened Transactions
  import opened Ledger
  import opened Blocks
  import opened Inputs
  import opened Spend
  import opened Connect
  import opened Chain

  /** The position is one in the stored block. */
  ghost predicate StoredIn(x: CBlockIndex, pos: DiskTxPos) {
    pos.Pos? && x.nFile == pos.file && x.nBlockPos == pos.blockPos
  }

  /** No block of the chain to `b` that is less than ten below `top` holds the position. */
  ghost predicate BuriedBelow(b: CBlockIndex, top: int, pos: DiskTxPos)
    requires Linked(b)
  {
    forall h: nat {:trigger Anc(b, h)} :: h <= b.nHeight && StoredIn(Anc(b, h), pos) ==> top - h >= 10
  }

  /** The walk back from a block finds exactly the positions in the blocks less than ten below. */
  lemma {:induction false} RecentMeans(b: CBlockIndex, top: int, pos: DiskTxPos)
    requires Linked(b)
    ensures Recent(b, top, pos) <==> !BuriedBelow(b, top, pos)
    decreases b.nHeight
  {
    if b.pprev != null {
      RecentMeans(b.pprev, top, pos);
      forall h: nat | h < b.nHeight ensures Anc(b, h) == Anc(b.pprev, h) {
      }
    }
    assert Anc(b, b.nHeight) == b;
  }

  ghost predicate IsReward(tx: Tx) {
    tx.IsCoinBase() || tx.IsCoinStake()
  }

  /** What an input has to meet besides. */
  ghost predicate OtherwiseOk(inputs: PrevTxs, tx: Tx, i: nat)
    requires i < |tx.vin|
  {
    var op := tx.vin[i];
    && AllInRange(inputs, tx.vin[..i + 1]) && InRange(inputs, op)
    && inputs[op.hash].1.time <= tx.time
    && 0 <= inputs[op.hash].1.vout[op.n].value <= MAX_MONEY
    && 0 <= RunningIn(inputs, tx.vin[..i + 1]) <= MAX_MONEY
  }

  /** An input that is all right otherwise is refused exactly when it spends a coinbase or
      coinstake of a block less than ten below. */
  lemma MatureExactly(inputs: PrevTxs, tx: Tx, i: nat, b: CBlockIndex)
    requires Linked(b) && i < |tx.vin|
    ensures InputOk(inputs, tx, i, b) <==>
      && OtherwiseOk(inputs, tx, i)
      && (IsReward(inputs[tx.vin[i].hash].1) ==> BuriedBelow(b, b.nHeight, inputs[tx.vin[i].hash].0.pos))
  {
    if InRange(inputs, tx.vin[i]) {
      RecentMeans(b, b.nHeight, inputs[tx.vin[i].hash].0.pos);
    }
  }

  // ------------------------------------------------------------------- along a chain

  /** Transaction j of the ancestor at height g made the entry. */
  ghost predicate MadeAt(o: Oracle, b: CBlockIndex, g: nat, j: nat, h: Hash, e: TxIndex)
    requires Linked(b)
  {
    && g <= b.nHeight && j < |Anc(b, g).block.vtx|
    && Anc(b, g).block.vtx[j].hash == h && e.pos == TxPos(o, Anc(b, g), j)
  }

  /** Every entry was made by a transaction of the chain. */
  ghost predicate MadeOn(o: Oracle, b: CBlockIndex, idx: IndexMap)
    requires Linked(b)
  {
    forall h :: h in idx ==> MadeOnChain(o, b, h, idx[h])
  }

  ghost predicate MadeOnChain(o: Oracle, b: CBlockIndex, h: Hash, e: TxIndex)
    requires Linked(b)
  {
    exists g: nat, j: nat :: MadeAt(o, b, g, j, h, e)
  }

  lemma MadeAbove(o: Oracle, b: CBlockIndex, idx: IndexMap)
    requires Linked(b) && b.pprev != null && MadeOn(o, b.pprev, idx)
    ensures MadeOn(o, b, idx)
  {
    forall h | h in idx ensures MadeOnChain(o, b, h, idx[h]) {
      assert MadeOnChain(o, b.pprev, h, idx[h]);
      var g: nat, j: nat :| MadeAt(o, b.pprev, g, j, h, idx[h]);
      assert MadeAt(o, b, g, j, h, idx[h]);
    }
  }

  lemma {:induction false} MadeBefore(o: Oracle, db: IndexMap, b: CBlockIndex, k: nat)
    requires Linked(b) && MadeOn(o, b, db) && k <= |b.block.vtx|
    ensures MadeOn(o, b, Before(o, db, b, k))
  {
    if k > 0 {
      MadeBefore(o, db, b, k - 1);
      BeforeStep(o, db, b, k - 1);
      var was, tx, now := Before(o, db, b, k - 1), b.block.vtx[k - 1], Before(o, db, b, k);
      MarkAllEffect(was, tx.vin, TxPos(o, b, k - 1));
      forall h | h in now ensures MadeOnChain(o, b, h, now[h]) {
        if h == tx.hash {
          assert MadeAt(o, b, b.nHeight, k - 1, h, now[h]);
        } else {
          assert MadeOnChain(o, b, h, was[h]);
          var g: nat, j: nat :| MadeAt(o, b, g, j, h, was[h]);
          assert MadeAt(o, b, g, j, h, now[h]);
        }
      }
    }
  }

  lemma {:induction false} MadeByReplay(o: Oracle, b: CBlockIndex)
    requires Linked(b)
    ensures MadeOn(o, b, Replay(o, b))
    decreases b.nHeight
  {
    if b.pprev != null {
      MadeByReplay(o, b.pprev);
      MadeAbove(o, b, Replay(o, b.pprev));
      MadeBefore(o, Replay(o, b.pprev), b, |b.block.vtx|);
    }
  }

  /** A block accepted on top of its chain spends outputs of that chain or of its own, and
      coinbases and coinstakes only of blocks at least ten below it. */
  lemma SpendsMature(o: Oracle, db: IndexMap, b: CBlockIndex, bestHeight: int, k: nat, i: nat)
    requires Anchored(o, b) && Linked(b) && b.pprev != null && Trims(db, Replay(o, b.pprev))
    requires BlockAccepted(o, db, b, bestHeight)
    requires k < |b.block.vtx| && !b.block.vtx[k].IsCoinBase() && i < |b.block.vtx[k].vin|
    ensures exists g: nat, j: nat :: MadeTheInput(o, db, b, k, i, g, j)
  {
    var op, view, inputs := b.block.vtx[k].vin[i], Before(o, db, b, k), PrevOf(o, db, b, k);
    AcceptedInput(o, db, b, bestHeight, k, i);
    MadeInView(o, db, b, k);
    hide Trims, BlockAccepted, Before, Replay, BuriedBelow, InputOk, MadeAt, Anchored;
    assert MadeOnChain(o, b, op.hash, view[op.hash]);
    var g: nat, j: nat :| MadeAt(o, b, g, j, op.hash, view[op.hash]);
    Maker(o, b, g, j, op, view[op.hash]);
    assert MadeTheInput(o, db, b, k, i, g, j);
  }

  lemma Maker(o: Oracle, b: CBlockIndex, g: nat, j: nat, op: OutPoint, e: TxIndex)
    requires Linked(b) && Anchored(o, b) && MadeAt(o, b, g, j, op.hash, e)
    ensures o.disk(e.pos) == Some(Anc(b, g).block.vtx[j])
    ensures BuriedBelow(b, b.nHeight, e.pos) ==> b.nHeight - g >= 10
  {
    AnchoredAnc(o, b, g);
    assert StoredIn(Anc(b, g), e.pos);
  }

  lemma MadeInView(o: Oracle, db: IndexMap, b: CBlockIndex, k: nat)
    requires Linked(b) && b.pprev != null && Trims(db, Replay(o, b.pprev)) && k <= |b.block.vtx|
    ensures MadeOn(o, b, Before(o, db, b, k))
  {
    MadeByReplay(o, b.pprev);
    hide MadeOnChain, Replay;
    assert MadeOn(o, b.pprev, db);
    MadeAbove(o, b, db);
    MadeBefore(o, db, b, k);
  }

  lemma AcceptedInput(o: Oracle, db: IndexMap, b: CBlockIndex, bestHeight: int, k: nat, i: nat)
    requires Linked(b) && BlockAccepted(o, db, b, bestHeight)
    requires k < |b.block.vtx| && !b.block.vtx[k].IsCoinBase() && i < |b.block.vtx[k].vin|
    ensures var op, view := b.block.vtx[k].vin[i], Before(o, db, b, k);
      && op.hash in view && o.disk(view[op.hash].pos).Some?
      && var from := o.disk(view[op.hash].pos).value;
         op.n < |from.vout| && (IsReward(from) ==> BuriedBelow(b, b.nHeight, view[op.hash].pos))
  {
    hide SigOps, RewardOk, WellFormedBlock, RunningIn, Recent, Before, Signed, FullySpent;
    assert TxAccepted(o, db, b, bestHeight, k);
    var inputs := PrevOf(o, db, b, k);
    assert b.block.vtx[k].vin[i] in b.block.vtx[k].vin;
    assert InputOk(inputs, b.block.vtx[k], i, b);
    MatureExactly(inputs, b.block.vtx[k], i, b);
  }

  /** Transaction j of the ancestor at height g made the entry that the input names, and has the
      output; if it is a coinbase or a coinstake, the block is at least ten below. */
  ghost predicate MadeTheInput(o: Oracle, db: IndexMap, b: CBlockIndex, k: nat, i: nat, g: nat, j: nat)
    requires Linked(b) && k < |b.block.vtx| && i < |b.block.vtx[k].vin|
  {
    var op, view := b.block.vtx[k].vin[i], Before(o, db, b, k);
    && op.hash in view && MadeAt(o, b, g, j, op.hash, view[op.hash])
    && var from := Anc(b, g).block.vtx[j];
       op.n < |from.vout| && (from.IsCoinBase() || from.IsCoinStake() ==> b.nHeight - g >= 10)
  }
}
