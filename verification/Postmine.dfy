/** The post-mine credits of a chain are bounded by the outputs of the post-mine transaction. */
module PostmineBound {
  import opened Transactions
  import opened Ledger
  import opened Blocks
  import opened BlockMoney
  import opened Chain

  ghost function UnspentMarks(v: seq<DiskTxPos>): nat {
    if v == [] then 0 else UnspentMarks(v[..|v| - 1]) + if v[|v| - 1] == NullPos then 1 else 0
  }

  lemma {:induction false} UnspentMarksBound(v: seq<DiskTxPos>)
    ensures UnspentMarks(v) <= |v|
    ensures (forall n :: 0 <= n < |v| ==> v[n] != NullPos) ==> UnspentMarks(v) == 0
  {
    if v != [] {
      UnspentMarksBound(v[..|v| - 1]);
    }
  }

  lemma {:induction false} MarkCounts(v: seq<DiskTxPos>, n: nat, pos: DiskTxPos)
    requires n < |v| && v[n] == NullPos && pos != NullPos
    ensures UnspentMarks(v[n := pos]) == UnspentMarks(v) - 1
  {
    var w, k := v[n := pos], |v| - 1;
    if n < k {
      assert w[..k] == v[..k][n := pos];
      MarkCounts(v[..k], n, pos);
    } else {
      assert w[..k] == v[..k];
    }
  }

  /** Unspent outputs of the post-mine transaction in an index. */
  ghost function PostmineLeft(idx: IndexMap): nat {
    if HASH_POSTMINE in idx then UnspentMarks(idx[HASH_POSTMINE].vSpent) else 0
  }

  lemma {:induction false} MarkAllUses(idx: IndexMap, vin: seq<OutPoint>, pos: DiskTxPos)
    requires CanSpend(idx, vin) && pos != NullPos
    ensures PostmineLeft(MarkAll(idx, vin, pos)) <= PostmineLeft(idx)
    ensures |vin| == 1 && vin[0].hash == HASH_POSTMINE ==> PostmineLeft(MarkAll(idx, vin, pos)) < PostmineLeft(idx)
  {
    if vin != [] {
      var rest, op := vin[..|vin| - 1], vin[|vin| - 1];
      assert CanSpend(idx, rest);
      MarkAllUses(idx, rest, pos);
      MarkAllEffect(idx, rest, pos);
      var m := MarkAll(idx, rest, pos);
      assert OutPoint(op.hash, op.n) == op && op !in rest;
      if op.hash == HASH_POSTMINE {
        assert IsUnspent(idx, op);
        MarkCounts(m[op.hash].vSpent, op.n, pos);
      }
    }
  }

  /** What a transaction adds to the outputs of the post-mine transaction. */
  function AddedOutputs(tx: Tx): nat {
    if tx.hash == HASH_POSTMINE then |tx.vout| else 0
  }

  /** Each credited transaction uses up an output of the post-mine transaction. */
  lemma TxUsesOutput(idx: IndexMap, tx: Tx, pos: DiskTxPos)
    requires CanApplyTx(idx, tx) && pos != NullPos
    ensures PostmineLeft(ApplyTx(idx, tx, pos)) + (if SpendsPostmine(tx) then 1 else 0) <= PostmineLeft(idx) +
      AddedOutputs(tx)
  {
    if !tx.IsCoinBase() {
      MarkAllUses(idx, tx.vin, pos);
      InputsAreElsewhere(idx, tx);
      MarkAllEffect(idx, tx.vin, pos);
      assert SpendsPostmine(tx) ==> IsUnspent(idx, tx.vin[0]);
    }
    UnspentMarksBound(FreshIndex(pos, |tx.vout|).vSpent);
  }

  function PostmineOutputs(txs: seq<Tx>): nat {
    if txs == [] then 0 else PostmineOutputs(txs[..|txs| - 1]) + AddedOutputs(txs[|txs| - 1])
  }

  lemma {:induction false} TxsUseOutputs(idx: IndexMap, b: Batch, k: nat)
    requires k <= |b.txs| && b.Valid() && CanApply(idx, b)
    ensures PostmineLeft(ApplyTxs(idx, b, k)) + PostmineSpends(b.txs[..k]) <= PostmineLeft(idx) +
      PostmineOutputs(b.txs[..k])
  {
    if k > 0 {
      TxsUseOutputs(idx, b, k - 1);
      assert b.txs[..k][..k - 1] == b.txs[..k - 1];
      OwnEntrySpent(idx, b, k - 1, k - 1);
      assert CanSpendAt(idx, b, k - 1);
      TxUsesOutput(ApplyTxs(idx, b, k - 1), b.txs[k - 1], b.pos[k - 1]);
    }
  }

  /** Transactions on the chain to `b` that pass the post-mine test. */
  ghost function ChainSpends(b: CBlockIndex): nat
    requires Linked(b)
    decreases b.nHeight
  {
    if b.pprev == null then 0 else ChainSpends(b.pprev) + PostmineSpends(b.block.vtx)
  }

  /** Outputs of the post-mine transaction, once for every time the chain includes it. */
  ghost function ChainOutputs(b: CBlockIndex): nat
    requires Linked(b)
    decreases b.nHeight
  {
    if b.pprev == null then 0 else ChainOutputs(b.pprev) + PostmineOutputs(b.block.vtx)
  }

  lemma {:induction false} ChainUsesOutputs(o: Oracle, b: CBlockIndex)
    requires Linked(b) && Applicable(o, b)
    ensures ChainSpends(b) + PostmineLeft(Replay(o, b)) <= ChainOutputs(b)
    decreases b.nHeight
  {
    if b.pprev != null {
      ChainUsesOutputs(o, b.pprev);
      var batch := BatchOf(o, b);
      TxsUseOutputs(Replay(o, b.pprev), batch, |batch.txs|);
      assert batch.txs[..|batch.txs|] == batch.txs;
    }
  }

  /** Over a whole chain no more credits are paid than the post-mine transaction has outputs,
      counted once for every time it is included. */
  lemma CreditsBounded(o: Oracle, b: CBlockIndex)
    requires Linked(b) && Applicable(o, b)
    ensures ChainSpends(b) <= ChainOutputs(b)
  {
    ChainUsesOutputs(o, b);
  }

  // ------------------------------------------------- when it is included at most once

  ghost predicate AddsPostmine(b: Batch) {
    exists i :: 0 <= i < |b.txs| && b.txs[i].hash == HASH_POSTMINE
  }

  /** The chain to `b` contains the post-mine transaction at most once. */
  ghost predicate PostmineOnce(o: Oracle, b: CBlockIndex)
    requires Linked(b)
    decreases b.nHeight
  {
    b.pprev == null
    || (PostmineOnce(o, b.pprev) && (AddsPostmine(BatchOf(o, b)) ==> HASH_POSTMINE !in Replay(o, b.pprev)))
  }

  /** Length of the entry of the post-mine transaction. */
  ghost function PostmineLength(idx: IndexMap): nat {
    if HASH_POSTMINE in idx then |idx[HASH_POSTMINE].vSpent| else 0
  }

  lemma {:induction false} LengthAfter(idx: IndexMap, b: Batch, k: nat)
    requires k <= |b.txs| && b.Valid() && (AddsPostmine(b) ==> HASH_POSTMINE !in idx)
    ensures PostmineLength(ApplyTxs(idx, b, k)) == PostmineLength(idx) + PostmineOutputs(b.txs[..k])
    ensures HASH_POSTMINE in ApplyTxs(idx, b, k) ==>
      HASH_POSTMINE in idx || exists i :: 0 <= i < k && b.txs[i].hash == HASH_POSTMINE
  {
    if k > 0 {
      LengthAfter(idx, b, k - 1);
      assert b.txs[..k][..k - 1] == b.txs[..k - 1];
      MarkAllEffect(ApplyTxs(idx, b, k - 1), b.txs[k - 1].vin, b.pos[k - 1]);
    }
  }

  lemma {:induction false} OnceOutputs(o: Oracle, b: CBlockIndex)
    requires Linked(b) && Applicable(o, b) && PostmineOnce(o, b)
    ensures ChainOutputs(b) == PostmineLength(Replay(o, b))
    decreases b.nHeight
  {
    if b.pprev != null {
      OnceOutputs(o, b.pprev);
      var batch := BatchOf(o, b);
      LengthAfter(Replay(o, b.pprev), batch, |batch.txs|);
      assert batch.txs[..|batch.txs|] == batch.txs;
    }
  }

  /** Then no more credits are paid than it has outputs, and before it appears none. */
  lemma CreditsOnce(o: Oracle, b: CBlockIndex)
    requires Linked(b) && Applicable(o, b) && PostmineOnce(o, b)
    ensures ChainSpends(b) <= if HASH_POSTMINE in Replay(o, b) then |Replay(o, b)[HASH_POSTMINE].vSpent| else 0
  {
    CreditsBounded(o, b);
    OnceOutputs(o, b);
  }
}
