/** ConnectBlock and DisconnectBlock of src/main.cpp. */
module Connect {
  import opened Wrappers
  import opened Transactions
  import opened Ledger
  import opened Blocks
  import opened TxDatabase
  import opened Inputs
  import opened Spend

  /** Every entry points at its transaction in the block files. */
  ghost predicate Sound(o: Oracle, idx: IndexMap) {
    forall h :: h in idx ==> SoundEntry(o, h, idx[h])
  }

  ghost predicate SoundEntry(o: Oracle, h: Hash, e: TxIndex) {
    && e.pos != MEMPOOL_POS && o.disk(e.pos).Some?
    && o.disk(e.pos).value.hash == h && |o.disk(e.pos).value.vout| == |e.vSpent|
  }

  lemma ApplyTxSound(o: Oracle, idx: IndexMap, tx: Tx, pos: DiskTxPos)
    requires Sound(o, idx) && o.disk(pos) == Some(tx) && pos != MEMPOOL_POS
    ensures Sound(o, ApplyTx(idx, tx, pos))
  {
    MarkAllEffect(idx, tx.vin, pos);
    forall h | h in idx ensures SoundEntry(o, h, MarkAll(idx, tx.vin, pos)[h]) {
      assert SoundEntry(o, h, idx[h]);
    }
  }

  // ------------------------------------------------- what the block loop adds together

  /** The index the k-th transaction of a block sees: the one before the block with the
      earlier transactions applied. */
  ghost function Before(o: Oracle, db: IndexMap, b: CBlockIndex, k: nat): IndexMap
    requires k <= |b.block.vtx|
  {
    ApplyTxs(db, BatchOf(o, b), k)
  }

  lemma BeforeStep(o: Oracle, db: IndexMap, b: CBlockIndex, k: nat)
    requires k < |b.block.vtx|
    ensures Before(o, db, b, k + 1) == ApplyTx(Before(o, db, b, k), b.block.vtx[k], TxPos(o, b, k))
  {
  }

  lemma {:induction false} BeforeSound(o: Oracle, db: IndexMap, b: CBlockIndex, k: nat)
    requires Sound(o, db) && Stored(o, b) && k <= |b.block.vtx|
    ensures Sound(o, Before(o, db, b, k))
  {
    if k > 0 {
      OffsetsPositive(o, b, k - 1);
      BeforeStep(o, db, b, k - 1);
      assert o.disk(TxPos(o, b, k - 1)) == Some(b.block.vtx[k - 1]);
      hide *;
      BeforeSound(o, db, b, k - 1);
      ApplyTxSound(o, Before(o, db, b, k - 1), b.block.vtx[k - 1], TxPos(o, b, k - 1));
    }
  }

  /** The previous transactions an index holds for a list of inputs. */
  ghost function Prev(o: Oracle, idx: IndexMap, vin: seq<OutPoint>): PrevTxs {
    map h | h in Hashes(vin) && h in idx && o.disk(idx[h].pos).Some? :: (idx[h], o.disk(idx[h].pos).value)
  }

  ghost function PrevOf(o: Oracle, db: IndexMap, b: CBlockIndex, k: nat): PrevTxs
    requires k < |b.block.vtx|
  {
    Prev(o, Before(o, db, b, k), b.block.vtx[k].vin)
  }

  /** Fee of a transaction as the reward check counts it; a coinstake pays none. */
  ghost function TxFee(o: Oracle, db: IndexMap, b: CBlockIndex, k: nat, bestHeight: int): int
    requires k < |b.block.vtx|
  {
    var tx := b.block.vtx[k];
    if tx.IsCoinBase() || tx.IsCoinStake() then 0
    else ValueIn(PrevOf(o, db, b, k), tx, true, bestHeight) - tx.ValueOut()
  }

  ghost function TxIn(o: Oracle, db: IndexMap, b: CBlockIndex, k: nat): int
    requires k < |b.block.vtx|
  {
    ValueIn(PrevOf(o, db, b, k), b.block.vtx[k], false, 0)
  }

  ghost function Fees(o: Oracle, db: IndexMap, b: CBlockIndex, bestHeight: int, k: nat): int
    requires k <= |b.block.vtx|
  {
    if k == 0 then 0 else Fees(o, db, b, bestHeight, k - 1) + TxFee(o, db, b, k - 1, bestHeight)
  }

  ghost function TotalIn(o: Oracle, db: IndexMap, b: CBlockIndex, k: nat): int
    requires k <= |b.block.vtx|
  {
    if k == 0 then 0 else TotalIn(o, db, b, k - 1) + TxIn(o, db, b, k - 1)
  }

  ghost function TotalOut(b: CBlockIndex, k: nat): int
    requires k <= |b.block.vtx|
  {
    if k == 0 then 0 else TotalOut(b, k - 1) + b.block.vtx[k - 1].ValueOut()
  }

  ghost function SigOps(o: Oracle, db: IndexMap, b: CBlockIndex, k: nat): nat
    requires k <= |b.block.vtx|
  {
    if k == 0 then 0
    else
      var tx := b.block.vtx[k - 1];
      SigOps(o, db, b, k - 1) + o.legacySigOps(tx)
      + if tx.IsCoinBase() then 0 else o.p2shSigOps(tx, PrevOf(o, db, b, k - 1))
  }

  /** What the last coinstake so far pays beyond its inputs. */
  ghost function StakeReward(o: Oracle, db: IndexMap, b: CBlockIndex, k: nat): int
    requires k <= |b.block.vtx|
  {
    if k == 0 then 0
    else
      var tx := b.block.vtx[k - 1];
      if tx.IsCoinStake() && !tx.IsCoinBase() then tx.ValueOut() - TxIn(o, db, b, k - 1)
      else StakeReward(o, db, b, k - 1)
  }

  // ---------------------------------------------------------------------- acceptance

  datatype Totals = Totals(fees: int, valueIn: int, valueOut: int, stakeReward: int, sigOps: nat)

  ghost function TotalsAt(o: Oracle, db: IndexMap, b: CBlockIndex, bestHeight: int, k: nat): Totals
    requires k <= |b.block.vtx|
  {
    Totals(Fees(o, db, b, bestHeight, k), TotalIn(o, db, b, k), TotalOut(b, k), StakeReward(o, db, b, k),
      SigOps(o, db, b, k))
  }

  function WorkSubsidy(bestHeight: int): int {
    if bestHeight + 1 == 1 then 200_000_000 * COIN else 0
  }

  function StakeSubsidy(coinAge: nat): int {
    coinAge * COIN_YEAR_REWARD * 33 / (365 * 33 + 8)
  }

  /** 33 years, with their eight leap days, earn 33 times four cents for every coin. */
  lemma YearsEarn(coins: nat)
    ensures StakeSubsidy(coins * (33 * 365 + 8)) == coins * 33 * 4_000_000
  {
  }

  /** Staking coins apart loses at most the rounding, and gains nothing. */
  lemma StakedApart(a: nat, b: nat)
    ensures StakeSubsidy(a) + StakeSubsidy(b) <= StakeSubsidy(a + b) <= StakeSubsidy(a) + StakeSubsidy(b) + 1
  {
  }

  ghost function WorkUpTo(height: nat): int {
    if height == 0 then 0 else WorkUpTo(height - 1) + WorkSubsidy(height - 1)
  }

  /** Proof of work is paid for the first block only: 200 million coins. */
  lemma {:induction false} WorkPaidOnce(height: nat)
    ensures WorkUpTo(height) == if height == 0 then 0 else 20_000_000_000_000_000
  {
    if height > 0 {
      WorkPaidOnce(height - 1);
    }
  }

  /** The inputs `vin` name entries of the index, and outputs of those. */
  ghost predicate Available(o: Oracle, view: IndexMap, vin: seq<OutPoint>) {
    (forall i :: 0 <= i < |vin| ==> vin[i].hash in view) && AllInRange(Prev(o, view, vin), vin)
  }

  ghost predicate TxAccepted(o: Oracle, db: IndexMap, b: CBlockIndex, bestHeight: int, k: nat)
    requires k < |b.block.vtx| && Linked(b)
  {
    var tx := b.block.vtx[k];
    && (tx.hash in db ==> FullySpent(db[tx.hash]))
    && (!tx.IsCoinBase() ==>
          && Available(o, Before(o, db, b, k), tx.vin)
          && InputsAccepted(o, PrevOf(o, db, b, k), tx, b, ForBlock, bestHeight))
  }

  /** The reward checks, given what the transaction loop added up. */
  ghost predicate RewardOk(o: Oracle, db: IndexMap, block: Block, bestHeight: int, t: Totals)
    requires block.vtx != []
  {
    && (!block.IsProofOfStake() ==> block.vtx[0].ValueOut() <= WorkSubsidy(bestHeight) + t.fees)
    && (block.IsProofOfStake() ==>
          && o.coinAge(block.vtx[1], db).Some?
          && t.stakeReward <= StakeSubsidy(o.coinAge(block.vtx[1], db).value) + t.fees)
  }

  /** The first k transactions are accepted and have few enough signature operations. */
  ghost predicate TxsAccepted(o: Oracle, db: IndexMap, b: CBlockIndex, bestHeight: int, k: nat) {
    && Linked(b) && k <= |b.block.vtx|
    && (forall i :: 0 <= i < k ==> TxAccepted(o, db, b, bestHeight, i))
    && SigOps(o, db, b, k) <= MAX_BLOCK_SIGOPS
  }

  /** Exactly when ConnectBlock accepts a block on top of the index `db`. */
  ghost predicate BlockAccepted(o: Oracle, db: IndexMap, b: CBlockIndex, bestHeight: int)
    requires Linked(b)
  {
    && WellFormedBlock(o, b.block)
    && TxsAccepted(o, db, b, bestHeight, |b.block.vtx|)
    && RewardOk(o, db, b.block, bestHeight, TotalsAt(o, db, b, bestHeight, |b.block.vtx|))
  }

  lemma BatchValid(o: Oracle, b: CBlockIndex)
    requires WellFormedBlock(o, b.block)
    ensures BatchOf(o, b).Valid()
  {
  }

  /** An accepted block can be applied: no double spend, no overwritten coin. */
  lemma AcceptedCanApply(o: Oracle, db: IndexMap, b: CBlockIndex, bestHeight: int)
    requires Linked(b) && BlockAccepted(o, db, b, bestHeight)
    ensures BatchOf(o, b).Valid() && CanApply(db, BatchOf(o, b))
  {
    BatchValid(o, b);
    var batch := BatchOf(o, b);
    forall k | 0 <= k < |batch.txs| && !batch.txs[k].IsCoinBase() ensures CanSpendAt(db, batch, k) {
      var tx, view := batch.txs[k], ApplyTxs(db, batch, k);
      assert TxAccepted(o, db, b, bestHeight, k);
      assert CanSpend(Entries(PrevOf(o, db, b, k)), tx.vin);
      forall i | 0 <= i < |tx.vin| ensures IsUnspent(view, tx.vin[i]) {
        assert IsUnspent(Entries(PrevOf(o, db, b, k)), tx.vin[i]);
      }
    }
    forall k | 0 <= k < |batch.txs| && batch.txs[k].hash in db ensures FullySpent(db[batch.txs[k].hash]) {
      assert TxAccepted(o, db, b, bestHeight, k);
    }
  }

  // ----------------------------------------------------------------- the block loop

  /** Totals after a transaction with inputs, its legacy signature operations counted. */
  ghost function AddInputs(o: Oracle, t: Totals, tx: Tx, prev: PrevTxs, bestHeight: int): Totals {
    var valueIn := ValueIn(prev, tx, false, bestHeight);
    Totals(
      if tx.IsCoinStake() then t.fees else t.fees + ValueIn(prev, tx, true, bestHeight) - tx.ValueOut(),
      t.valueIn + valueIn,
      t.valueOut + tx.ValueOut(),
      if tx.IsCoinStake() then tx.ValueOut() - valueIn else t.stakeReward,
      t.sigOps + o.p2shSigOps(tx, prev))
  }

  lemma TotalsStep(o: Oracle, db: IndexMap, b: CBlockIndex, bestHeight: int, k: nat)
    requires k < |b.block.vtx|
    ensures var tx, t := b.block.vtx[k], TotalsAt(o, db, b, bestHeight, k);
      var counted := t.(sigOps := t.sigOps + o.legacySigOps(tx));
      TotalsAt(o, db, b, bestHeight, k + 1) ==
        if tx.IsCoinBase() then counted.(valueOut := t.valueOut + tx.ValueOut())
        else AddInputs(o, counted, tx, PrevOf(o, db, b, k), bestHeight)
  {
  }

  /** The queued changes over the database are the index after k transactions. */
  ghost predicate Shows(o: Oracle, db: IndexMap, b: CBlockIndex, k: nat, queue: IndexMap)
    requires k <= |b.block.vtx|
  {
    Before(o, db, b, k) == db + queue
  }

  /** Over a sound index, fetching for a block finds exactly the entries of the view. */
  lemma FetchIsView(o: Oracle, pool: Pool, db: IndexMap, queue: IndexMap, vin: seq<OutPoint>)
    requires Sound(o, db + queue)
    ensures CanFetch(o, pool, db, queue, ForBlock, vin) <==> forall i :: 0 <= i < |vin| ==> vin[i].hash in db + queue
    ensures CanFetch(o, pool, db, queue, ForBlock, vin) ==>
      Fetched(o, pool, db, queue, ForBlock, vin) == Prev(o, db + queue, vin)
  {
    var view := db + queue;
    forall h ensures FetchOne(o, pool, db, queue, ForBlock, h) ==
      if h in view then Some((view[h], o.disk(view[h].pos).value)) else None
    {
      if h in view {
        assert SoundEntry(o, h, view[h]);
      }
    }
    if CanFetch(o, pool, db, queue, ForBlock, vin) {
      assert forall h :: h in Hashes(vin) ==> h in view && SoundEntry(o, h, view[h]);
    }
  }

  /** The check against overwriting: the old entry, if any, has no unspent output. */
  method CheckOverwrite(txdb: CTxDB, hash: Hash) returns (ok: bool)
    ensures ok <==> (hash in txdb.View() ==> FullySpent(txdb.View()[hash]))
  {
    var old_ := txdb.ReadTxIndex(hash);
    if old_ == None {
      return true;
    }
    var i := 0;
    while i < |old_.value.vSpent|
      invariant 0 <= i <= |old_.value.vSpent|
      invariant forall j :: 0 <= j < i ==> old_.value.vSpent[j] != NullPos
    {
      if old_.value.vSpent[i] == NullPos {
        return false;
      }
      i := i + 1;
    }
    ok := true;
  }

  method FetchForBlock(o: Oracle, pool: Pool, txdb: CTxDB, queue: IndexMap, tx: Tx) returns (ok: bool, inputs: PrevTxs)
    requires !tx.IsCoinBase() && Sound(o, txdb.View() + queue)
    ensures ok <==> Available(o, txdb.View() + queue, tx.vin)
    ensures ok ==> inputs == Prev(o, txdb.View() + queue, tx.vin)
                   && forall i :: 0 <= i < |tx.vin| ==> tx.vin[i].hash in inputs
  {
    FetchIsView(o, pool, txdb.View(), queue, tx.vin);
    hide Prev, CanFetch, Fetched, Sound;
    var invalid;
    ok, inputs, invalid := FetchInputs(o, pool, txdb, queue, ForBlock, tx);
    if ok {
      forall i | 0 <= i < |tx.vin| ensures tx.vin[i].hash in inputs {
        assert InRange(inputs, tx.vin[i]);
      }
    }
  }

  method CountInputs(o: Oracle, t: Totals, tx: Tx, inputs: PrevTxs, bestHeight: int) returns (total: Totals)
    requires !tx.IsCoinBase()
    ensures total == AddInputs(o, t, tx, inputs, bestHeight)
  {
    total := t.(sigOps := t.sigOps + o.p2shSigOps(tx, inputs));
    var txValueIn := GetValueIn(inputs, tx, false, bestHeight);
    var txValueOut := tx.ValueOut();
    total := total.(valueIn := total.valueIn + txValueIn, valueOut := total.valueOut + txValueOut);
    if !tx.IsCoinStake() {
      var withPostmine := GetValueIn(inputs, tx, true, bestHeight);
      total := total.(fees := total.fees + withPostmine - txValueOut);
    }
    if tx.IsCoinStake() {
      total := total.(stakeReward := txValueOut - txValueIn);
    }
  }

  lemma SpendView(o: Oracle, db: IndexMap, queue: IndexMap, vin: seq<OutPoint>, pos: DiskTxPos)
    requires Sound(o, db + queue) && Available(o, db + queue, vin)
    ensures db + QueueWith(queue, Prev(o, db + queue, vin), vin, pos, ForBlock) == MarkAll(db + queue, vin, pos)
  {
    forall h | h in Hashes(vin) ensures h in Prev(o, db + queue, vin) {
      assert SoundEntry(o, h, (db + queue)[h]);
    }
    QueueShowsMarks(db, queue, Prev(o, db + queue, vin), vin, pos);
  }

  /** The inputs of one transaction of the block: fetch, count, connect. */
  method ConnectTxInputs(o: Oracle, pool: Pool, txdb: CTxDB, b: CBlockIndex, tx: Tx, pos: DiskTxPos, queue: IndexMap,
                         t: Totals, bestHeight: int)
    returns (ok: bool, newQueue: IndexMap, total: Totals)
    requires Linked(b) && !tx.IsCoinBase() && pos != NullPos && Sound(o, txdb.View() + queue)
    ensures ok <==>
      && Available(o, txdb.View() + queue, tx.vin)
      && InputsAccepted(o, Prev(o, txdb.View() + queue, tx.vin), tx, b, ForBlock, bestHeight)
      && t.sigOps + o.p2shSigOps(tx, Prev(o, txdb.View() + queue, tx.vin)) <= MAX_BLOCK_SIGOPS
    ensures ok ==> txdb.View() + newQueue == MarkAll(txdb.View() + queue, tx.vin, pos)
    ensures ok ==> total == AddInputs(o, t, tx, Prev(o, txdb.View() + queue, tx.vin), bestHeight)
  {
    newQueue, total := queue, t;
    var inputs;
    ok, inputs := FetchForBlock(o, pool, txdb, queue, tx);
    if !ok {
      return;
    }
    SpendView(o, txdb.View(), queue, tx.vin, pos);
    hide InputsAccepted, ValueIn, Prev, Available, MarkAll, QueueWith, Sound;
    total := CountInputs(o, t, tx, inputs, bestHeight);
    if total.sigOps > MAX_BLOCK_SIGOPS {
      return false, newQueue, total;
    }
    ok, newQueue := ConnectInputs(o, inputs, tx, queue, pos, b, ForBlock, bestHeight);
  }

  lemma QueueEntry(db: IndexMap, queue: IndexMap, h: Hash, e: TxIndex)
    ensures db + queue[h := e] == (db + queue)[h := e]
  {
  }

  /** One round of the transaction loop of ConnectBlock. */
  method ConnectTx(o: Oracle, pool: Pool, txdb: CTxDB, b: CBlockIndex, k: nat, pos: DiskTxPos, queue: IndexMap,
                   t: Totals, bestHeight: int)
    returns (ok: bool, newQueue: IndexMap, total: Totals)
    requires Linked(b) && k < |b.block.vtx| && pos == TxPos(o, b, k)
    requires Sound(o, Before(o, txdb.View(), b, k)) && Shows(o, txdb.View(), b, k, queue)
    requires t == TotalsAt(o, txdb.View(), b, bestHeight, k)
    ensures ok <==> TxAccepted(o, txdb.View(), b, bestHeight, k) && SigOps(o, txdb.View(), b, k + 1) <= MAX_BLOCK_SIGOPS
    ensures ok ==> Shows(o, txdb.View(), b, k + 1, newQueue)
    ensures ok ==> total == TotalsAt(o, txdb.View(), b, bestHeight, k + 1)
  {
    hide Fees, TotalIn, TotalOut, StakeReward, ValueIn, InputsAccepted, Before, Available;
    hide SigOps, Prev, MarkAll, FullySpent, Sound;
    var tx := b.block.vtx[k];
    TotalsStep(o, txdb.View(), b, bestHeight, k);
    BeforeStep(o, txdb.View(), b, k);
    newQueue, total := queue, t;
    ok := CheckOverwrite(txdb, tx.hash);
    if !ok {
      return;
    }
    total := total.(sigOps := t.sigOps + o.legacySigOps(tx));
    if total.sigOps > MAX_BLOCK_SIGOPS {
      return false, newQueue, total;
    }
    if tx.IsCoinBase() {
      total := total.(valueOut := total.valueOut + tx.ValueOut());
    } else {
      ok, newQueue, total := ConnectTxInputs(o, pool, txdb, b, tx, pos, queue, total, bestHeight);
      if !ok {
        return;
      }
    }
    QueueEntry(txdb.View(), newQueue, tx.hash, FreshIndex(pos, |tx.vout|));
    newQueue := newQueue[tx.hash := FreshIndex(pos, |tx.vout|)];
    ok := true;
  }

  method WriteQueue(txdb: CTxDB, queue: IndexMap)
    modifies txdb
    ensures txdb.View() == old(txdb.View()) + queue && txdb.StaysInTxn()
  {
    var todo := queue.Keys;
    while todo != {}
      invariant todo <= queue.Keys && txdb.StaysInTxn()
      invariant txdb.View() == old(txdb.View()) + (queue - todo)
      decreases |todo|
    {
      var h :| h in todo;
      assert queue - (todo - {h}) == (queue - todo)[h := queue[h]];
      QueueEntry(old(txdb.View()), queue - todo, h, queue[h]);
      txdb.UpdateTxIndex(h, queue[h]);
      todo := todo - {h};
    }
    assert queue - todo == queue;
  }

  lemma LoopStart(o: Oracle, db: IndexMap, b: CBlockIndex, bestHeight: int)
    requires Linked(b)
    ensures Shows(o, db, b, 0, map[]) && TxOffset(o, b, 0) == b.nBlockPos + 80 + CompactSize(|b.block.vtx|)
    ensures TotalsAt(o, db, b, bestHeight, 0) == Totals(0, 0, 0, 0, 0)
    ensures TxsAccepted(o, db, b, bestHeight, 0)
  {
  }

  lemma AcceptedStep(o: Oracle, db: IndexMap, b: CBlockIndex, bestHeight: int, k: nat)
    requires Linked(b) && k < |b.block.vtx| && TxsAccepted(o, db, b, bestHeight, k)
    ensures TxsAccepted(o, db, b, bestHeight, k + 1) <==>
      TxAccepted(o, db, b, bestHeight, k) && SigOps(o, db, b, k + 1) <= MAX_BLOCK_SIGOPS
    ensures TxsAccepted(o, db, b, bestHeight, |b.block.vtx|) ==> TxsAccepted(o, db, b, bestHeight, k + 1)
  {
    hide TxAccepted, SigOps, Linked;
    SigOpsGrow(o, db, b, k + 1, |b.block.vtx|);
  }

  lemma OffsetStep(o: Oracle, b: CBlockIndex, k: nat)
    requires k < |b.block.vtx|
    ensures TxOffset(o, b, k + 1) == TxOffset(o, b, k) + o.txSize(b.block.vtx[k])
    ensures TxPos(o, b, k) == Pos(b.nFile, b.nBlockPos, TxOffset(o, b, k))
  {
  }

  /** Invariant of the transaction loop. */
  ghost predicate LoopInv(o: Oracle, db: IndexMap, b: CBlockIndex, bestHeight: int, k: nat, offset: nat,
                          queue: IndexMap, t: Totals) {
    && TxsAccepted(o, db, b, bestHeight, k)
    && offset == TxOffset(o, b, k) && Shows(o, db, b, k, queue) && t == TotalsAt(o, db, b, bestHeight, k)
  }

  /** The transaction loop of ConnectBlock. */
  method ConnectTxs(o: Oracle, pool: Pool, txdb: CTxDB, b: CBlockIndex, bestHeight: int)
    returns (ok: bool, queue: IndexMap, total: Totals)
    requires Linked(b) && Stored(o, b) && Sound(o, txdb.View())
    ensures ok <==> TxsAccepted(o, txdb.View(), b, bestHeight, |b.block.vtx|)
    ensures ok ==> Shows(o, txdb.View(), b, |b.block.vtx|, queue)
    ensures ok ==> total == TotalsAt(o, txdb.View(), b, bestHeight, |b.block.vtx|)
  {
    queue, total := map[], Totals(0, 0, 0, 0, 0);
    var n := |b.block.vtx|;
    var offset: nat := b.nBlockPos + 80 + CompactSize(n);
    LoopStart(o, txdb.View(), b, bestHeight);
    hide TxsAccepted, Shows, TotalsAt, TxOffset, Sound, Stored, Linked;
    var k := 0;
    while k < n
      invariant 0 <= k <= n
      invariant LoopInv(o, txdb.View(), b, bestHeight, k, offset, queue, total)
    {
      ok, offset, queue, total := ConnectNext(o, pool, txdb, b, bestHeight, k, offset, queue, total);
      if !ok {
        return;
      }
      k := k + 1;
    }
    ok := true;
  }

  method ConnectNext(o: Oracle, pool: Pool, txdb: CTxDB, b: CBlockIndex, bestHeight: int, k: nat, offset: nat,
                     queue: IndexMap, t: Totals)
    returns (ok: bool, newOffset: nat, newQueue: IndexMap, total: Totals)
    requires Linked(b) && Stored(o, b) && Sound(o, txdb.View()) && k < |b.block.vtx|
    requires LoopInv(o, txdb.View(), b, bestHeight, k, offset, queue, t)
    ensures ok ==> LoopInv(o, txdb.View(), b, bestHeight, k + 1, newOffset, newQueue, total)
    ensures !ok ==> !TxsAccepted(o, txdb.View(), b, bestHeight, |b.block.vtx|)
  {
    BeforeSound(o, txdb.View(), b, k);
    OffsetStep(o, b, k);
    AcceptedStep(o, txdb.View(), b, bestHeight, k);
    hide TxsAccepted, TxAccepted, Shows, TotalsAt, TxOffset, Sound, Stored;
    ok, newQueue, total := ConnectTx(o, pool, txdb, b, k, Pos(b.nFile, b.nBlockPos, offset), queue, t, bestHeight);
    newOffset := offset + o.txSize(b.block.vtx[k]);
  }

  lemma {:induction false} SigOpsGrow(o: Oracle, db: IndexMap, b: CBlockIndex, k: nat, n: nat)
    requires k <= n <= |b.block.vtx|
    ensures SigOps(o, db, b, k) <= SigOps(o, db, b, n)
  {
    hide Before, PrevOf, Prev;
    if k < n {
      SigOpsGrow(o, db, b, k, n - 1);
    }
  }

  function PrevSupply(b: CBlockIndex): int
    reads b.pprev
  {
    if b.pprev == null then 0 else b.pprev.nMoneySupply
  }

  method CheckReward(o: Oracle, txdb: CTxDB, block: Block, bestHeight: int, total: Totals) returns (ok: bool)
    requires block.vtx != []
    ensures ok <==> RewardOk(o, txdb.View(), block, bestHeight, total)
  {
    if !block.IsProofOfStake() {
      var reward := WorkSubsidy(bestHeight) + total.fees;
      if block.vtx[0].ValueOut() > reward {
        return false;
      }
    }
    if block.IsProofOfStake() {
      var coinAge := CoinAgeOf(o, txdb, block.vtx[1]);
      if coinAge == None {
        return false;
      }
      var calculated := StakeSubsidy(coinAge.value) + total.fees;
      if total.stakeReward > calculated {
        return false;
      }
    }
    ok := true;
  }

  /** ConnectBlock without fJustCheck: accepts exactly the blocks BlockAccepted describes,
      applies them to the database view, and records the money minted and in circulation. */
  method ConnectBlock(o: Oracle, pool: Pool, txdb: CTxDB, b: CBlockIndex, bestHeight: int) returns (ok: bool)
    requires Linked(b) && Stored(o, b) && Sound(o, txdb.View())
    modifies txdb, b`nMint, b`nMoneySupply
    ensures ok <==> BlockAccepted(o, old(txdb.View()), b, bestHeight)
    ensures txdb.View() == if ok then Apply(old(txdb.View()), BatchOf(o, b)) else old(txdb.View())
    ensures txdb.StaysInTxn()
    ensures ok ==>
      var t := TotalsAt(o, old(txdb.View()), b, bestHeight, |b.block.vtx|);
      && b.nMint == t.valueOut - t.valueIn + t.fees
      && b.nMoneySupply == old(PrevSupply(b)) + t.valueOut - t.valueIn
    ensures !ok ==> b.nMint == old(b.nMint) && b.nMoneySupply == old(b.nMoneySupply)
  {
    hide TxsAccepted, TotalsAt, Sound, Stored, Linked;
    ok := CheckBlock(o, b.block);
    if !ok {
      return;
    }
    var queue, total;
    ok, queue, total := ConnectTxs(o, pool, txdb, b, bestHeight);
    if !ok {
      return;
    }
    ok := CheckReward(o, txdb, b.block, bestHeight, total);
    if !ok {
      return;
    }
    b.nMint := total.valueOut - total.valueIn + total.fees;
    b.nMoneySupply := (if b.pprev == null then 0 else b.pprev.nMoneySupply) + total.valueOut - total.valueIn;
    WriteQueue(txdb, queue);
  }

  /** GetCoinAge reads the database; what it computes is not part of this model. */
  method CoinAgeOf(o: Oracle, txdb: CTxDB, tx: Tx) returns (r: Option<nat>)
    ensures r == o.coinAge(tx, txdb.View())
  {
    r := o.coinAge(tx, if txdb.active then ApplyBatch(txdb.committed, txdb.batch) else txdb.committed);
  }

  /** DisconnectBlock: last transaction first. */
  method DisconnectBlock(txdb: CTxDB, b: CBlockIndex) returns (ok: bool)
    modifies txdb
    ensures ok == UndoTxs(old(txdb.View()), b.block.vtx).Some?
    ensures ok ==> txdb.View() == UndoTxs(old(txdb.View()), b.block.vtx).value
    ensures txdb.StaysInTxn()
  {
    var i := |b.block.vtx|;
    assert b.block.vtx[..i] == b.block.vtx;
    while i > 0
      invariant 0 <= i <= |b.block.vtx| && txdb.StaysInTxn()
      invariant UndoTxs(txdb.View(), b.block.vtx[..i]) == UndoTxs(old(txdb.View()), b.block.vtx)
    {
      i := i - 1;
      assert b.block.vtx[..i + 1][..i] == b.block.vtx[..i];
      ok := DisconnectInputs(txdb, b.block.vtx[i]);
      if !ok {
        return;
      }
    }
    ok := true;
  }
}
