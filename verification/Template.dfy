/** A block made of a coinbase and the list of a template is one that ConnectBlock accepts, as
    far as the template checks what ConnectBlock does. */
module Template {
  import opened Wrappers
  import opened Transactions
  import opened Ledger
  import opened Blocks
  import opened Inputs
  import opened Spend
  import opened Connect
  import M = Miner

  // ------------------------------------------------------- the two views of one list

  /** The template puts what it has chosen where the pool is; the block has it in its place. */
  ghost predicate AtPlace(pos: DiskTxPos, b: CBlockIndex) {
    pos.Pos? && b.nBlockPos == pos.blockPos && b.nFile == pos.file
  }

  ghost predicate SameMarks(e: TxIndex, f: TxIndex) {
    && |e.vSpent| == |f.vSpent|
    && forall n :: 0 <= n < |e.vSpent| ==> (e.vSpent[n] == NullPos <==> f.vSpent[n] == NullPos)
  }

  /** The entries of one transaction in the view of the template and in that of the block. */
  ghost predicate EntryAlike(s: M.Setup, b: CBlockIndex, h: Hash, e: TxIndex, f: TxIndex) {
    && SameMarks(e, f) && f.pos != MEMPOOL_POS && s.o.disk(f.pos).Some?
    && if e.pos == MEMPOOL_POS then
      h in s.pool && s.o.disk(f.pos).value == s.pool[h] && !s.pool[h].IsCoinBase() && !s.pool[h].IsCoinStake()
    else e.pos == f.pos && !AtPlace(f.pos, b)
  }

  /** The views agree but for the coinbase, which the template does not have. */
  ghost predicate Alike(s: M.Setup, b: CBlockIndex, cb: Hash, m: IndexMap, v: IndexMap) {
    && (forall h :: h != cb ==> (h in m <==> h in v))
    && (forall h :: h in m && h != cb ==> EntryAlike(s, b, h, m[h], v[h]))
    && (cb in m ==> FullySpent(m[cb]))
  }

  ghost predicate SameTxs(a: PrevTxs, c: PrevTxs) {
    a.Keys == c.Keys && forall h :: h in a ==> a[h].1 == c[h].1
  }

  ghost predicate InputsAlike(s: M.Setup, b: CBlockIndex, a: PrevTxs, c: PrevTxs) {
    SameTxs(a, c) && forall h :: h in a ==>
      EntryAlike(s, b, h, a[h].0, c[h].0) && s.o.disk(c[h].0.pos).value == c[h].1
  }

  /** What the template fetches for a transaction that connects is what the block fetches. */
  lemma FetchAlike(s: M.Setup, b: CBlockIndex, cb: Hash, m: IndexMap, v: IndexMap, tx: Tx)
    requires Linked(s.prev) && Alike(s, b, cb, m, v) && M.Connects(s, m, tx)
    ensures forall i :: 0 <= i < |tx.vin| ==> tx.vin[i].hash != cb && tx.vin[i].hash in v
    ensures InputsAlike(s, b, M.InputsFrom(s, m, tx), Prev(s.o, v, tx.vin))
  {
    hide Alike, EntryAlike, FetchOne, CanSpend, InputsAccepted;
    SpendsShared(s, b, cb, m, v, tx.vin);
    var a, c := M.InputsFrom(s, m, tx), Prev(s.o, v, tx.vin);
    forall h | h in Hashes(tx.vin)
      ensures h in a && h in c && a[h].1 == c[h].1 && EntryAlike(s, b, h, a[h].0, c[h].0)
              && s.o.disk(c[h].0.pos).value == c[h].1
    {
      var i :| 0 <= i < |tx.vin| && tx.vin[i].hash == h;
      FetchOneAlike(s, b, cb, m, v, h);
    }
  }

  lemma SpendsShared(s: M.Setup, b: CBlockIndex, cb: Hash, m: IndexMap, v: IndexMap, vin: seq<OutPoint>)
    requires Alike(s, b, cb, m, v) && CanSpend(m, vin)
    ensures forall i :: 0 <= i < |vin| ==> vin[i].hash != cb && vin[i].hash in m && vin[i].hash in v
  {
    forall i | 0 <= i < |vin| ensures vin[i].hash != cb && vin[i].hash in m && vin[i].hash in v {
      assert IsUnspent(m, vin[i]);
    }
  }

  lemma FetchOneAlike(s: M.Setup, b: CBlockIndex, cb: Hash, m: IndexMap, v: IndexMap, h: Hash)
    requires Alike(s, b, cb, m, v) && h in m && h != cb
    ensures h in v && EntryAlike(s, b, h, m[h], v[h]) && s.o.disk(v[h].pos).Some?
    ensures FetchOne(s.o, s.pool, m, map[], ForMiner, h) == Some((m[h], s.o.disk(v[h].pos).value))
  {
    assert EntryAlike(s, b, h, m[h], v[h]);
  }

  /** Then the inputs are worth the same. */
  lemma {:induction false} SameValues(s: M.Setup, b: CBlockIndex, a: PrevTxs, c: PrevTxs, vin: seq<OutPoint>)
    requires InputsAlike(s, b, a, c)
    ensures AllInRange(a, vin) <==> AllInRange(c, vin)
    ensures RunningIn(a, vin) == RunningIn(c, vin) && SumIn(a, vin) == SumIn(c, vin)
  {
    forall op ensures InRange(a, op) <==> InRange(c, op) {
      if op.hash in a {
        assert EntryAlike(s, b, op.hash, a[op.hash].0, c[op.hash].0);
      }
    }
    hide InputsAlike, EntryAlike;
    if vin != [] {
      SameValuesOf(a, c, vin);
      SameValues(s, b, a, c, vin[..|vin| - 1]);
    }
  }

  lemma SameValuesOf(a: PrevTxs, c: PrevTxs, vin: seq<OutPoint>)
    requires SameTxs(a, c) && vin != [] && forall op :: InRange(a, op) <==> InRange(c, op)
    ensures PrevValue(a, vin[|vin| - 1]) == PrevValue(c, vin[|vin| - 1])
  {
  }

  lemma SameValueIn(s: M.Setup, b: CBlockIndex, a: PrevTxs, c: PrevTxs, tx: Tx, observe: bool, bestHeight: int)
    requires InputsAlike(s, b, a, c)
    ensures ValueIn(a, tx, observe, bestHeight) == ValueIn(c, tx, observe, bestHeight)
  {
    SameValues(s, b, a, c, tx.vin);
    assert |a| == |a.Keys| && |c| == |c.Keys|;
    if |tx.vin| == 1 {
      assert tx.vin == [tx.vin[0]] && tx.vin[..0] == [];
      assert SumIn(a, tx.vin) == SumIn(a, []) + PrevValue(a, tx.vin[0]);
      assert SumIn(c, tx.vin) == SumIn(c, []) + PrevValue(c, tx.vin[0]);
    }
  }

  // ------------------------------------------------------------------- the same checks

  /** What is mature on top of a block is mature one block later. */
  lemma {:induction false} RecentLater(x: CBlockIndex?, top: int, pos: DiskTxPos)
    requires (x != null ==> Linked(x)) && Recent(x, top + 1, pos)
    ensures Recent(x, top, pos)
    decreases if x == null then 0 else x.nHeight + 1
  {
    if !(pos.Pos? && x.nBlockPos == pos.blockPos && x.nFile == pos.file) {
      RecentLater(x.pprev, top, pos);
    }
  }

  /** An input that the template takes passes the checks of the block. */
  lemma InputHere(s: M.Setup, b: CBlockIndex, a: PrevTxs, c: PrevTxs, tx: Tx, i: nat)
    requires Linked(b) && b.pprev == s.prev && InputsAlike(s, b, a, c) && i < |tx.vin| && InputOk(a, tx, i, s.prev)
    ensures InputOk(c, tx, i, b)
  {
    var op := tx.vin[i];
    SameValues(s, b, a, c, tx.vin[..i + 1]);
    SameValues(s, b, a, c, [op]);
    assert InRange(a, op) && AllInRange(a, [op]) && AllInRange(c, [op]) && InRange(c, [op][0]);
    assert EntryAlike(s, b, op.hash, a[op.hash].0, c[op.hash].0);
    var prev, pos := c[op.hash].1, c[op.hash].0.pos;
    if (prev.IsCoinBase() || prev.IsCoinStake()) && Recent(b, b.nHeight, pos) {
      RecentLater(s.prev, s.prev.nHeight, pos);
      assert false;
    }
  }

  lemma AcceptedHere(s: M.Setup, b: CBlockIndex, a: PrevTxs, c: PrevTxs, tx: Tx, bestHeight: int)
    requires Linked(b) && b.pprev == s.prev && InputsAlike(s, b, a, c)
    requires InputsAccepted(s.o, a, tx, s.prev, ForMiner, bestHeight)
    ensures InputsAccepted(s.o, c, tx, b, ForBlock, bestHeight)
  {
    SameValues(s, b, a, c, tx.vin);
    forall i | 0 <= i < |tx.vin| ensures InputOk(c, tx, i, b) {
      InputHere(s, b, a, c, tx, i);
    }
    forall i | 0 <= i < |tx.vin| ensures IsUnspent(Entries(c), tx.vin[i]) {
      assert IsUnspent(Entries(a), tx.vin[i]);
      assert EntryAlike(s, b, tx.vin[i].hash, a[tx.vin[i].hash].0, c[tx.vin[i].hash].0);
    }
    hide InputsAlike, EntryAlike, RunningIn;
  }

  // ----------------------------------------------------------- along the list

  /** The block: a coinbase and the list, on top of the tip, in a place of its own. */
  ghost predicate BlockOf(s: M.Setup, db: IndexMap, b: CBlockIndex, txs: seq<Tx>) {
    && Linked(b) && b.pprev == s.prev && Stored(s.o, b) && (forall h :: h in db ==> !AtPlace(db[h].pos, b))
    && |b.block.vtx| == |txs| + 1 && b.block.vtx[1..] == txs
    && b.block.vtx[0].IsCoinBase() && b.block.vtx[0].hash !in M.HashesOf(txs)
    && s.o.legacySigOps(b.block.vtx[0]) <= 100
  }

  /** Applying a transaction to both views leaves them alike. */
  lemma AlikeStep(s: M.Setup, b: CBlockIndex, cb: Hash, m: IndexMap, v: IndexMap, tx: Tx, pos: DiskTxPos)
    requires Alike(s, b, cb, m, v) && tx.hash != cb && !tx.IsCoinBase() && !tx.IsCoinStake()
    requires tx.hash in s.pool && s.pool[tx.hash] == tx && s.o.disk(pos) == Some(tx)
    requires pos != NullPos && pos != MEMPOOL_POS && CanSpend(m, tx.vin)
    ensures Alike(s, b, cb, ApplyTx(m, tx, MEMPOOL_POS), ApplyTx(v, tx, pos))
  {
    MarkAllEffect(m, tx.vin, MEMPOOL_POS);
    MarkAllEffect(v, tx.vin, pos);
    var m1, v1 := MarkAll(m, tx.vin, MEMPOOL_POS), MarkAll(v, tx.vin, pos);
    forall h | h in m && h != cb ensures EntryAlike(s, b, h, m1[h], v1[h]) {
      assert EntryAlike(s, b, h, m[h], v[h]);
    }
  }

  lemma {:induction false} AlikeAt(s: M.Setup, db: IndexMap, b: CBlockIndex, txs: seq<Tx>, k: nat)
    requires Linked(s.prev) && M.GoodList(s, db, txs) && BlockOf(s, db, b, txs) && Sound(s.o, db) && k <= |txs|
    requires b.block.vtx[0].hash in db ==> FullySpent(db[b.block.vtx[0].hash])
    ensures Alike(s, b, b.block.vtx[0].hash, M.ViewAfter(db, txs[..k]), Before(s.o, db, b, k + 1))
  {
    hide Alike, M.GoodList, BlockOf, Before, ApplyTx, FullySpent, Sound, TxPos;
    if k == 0 {
      AlikeStart(s, db, b, txs);
    } else {
      AlikeAt(s, db, b, txs, k - 1);
      ListedTx(s, db, b, txs, k - 1);
      BeforeStep(s.o, db, b, k);
      assert txs[..k][..k - 1] == txs[..k - 1];
      AlikeStep(s, b, b.block.vtx[0].hash, M.ViewAfter(db, txs[..k - 1]), Before(s.o, db, b, k), txs[k - 1],
                TxPos(s.o, b, k));
    }
  }

  lemma AlikeStart(s: M.Setup, db: IndexMap, b: CBlockIndex, txs: seq<Tx>)
    requires BlockOf(s, db, b, txs) && Sound(s.o, db)
    requires b.block.vtx[0].hash in db ==> FullySpent(db[b.block.vtx[0].hash])
    ensures Alike(s, b, b.block.vtx[0].hash, M.ViewAfter(db, txs[..0]), Before(s.o, db, b, 1))
  {
    assert Before(s.o, db, b, 0) == db;
    BeforeStep(s.o, db, b, 0);
    forall h | h in db && h != b.block.vtx[0].hash ensures EntryAlike(s, b, h, db[h], db[h]) {
      assert SoundEntry(s.o, h, db[h]);
    }
  }

  /** One transaction of the list, and where it is in the block. */
  lemma ListedTx(s: M.Setup, db: IndexMap, b: CBlockIndex, txs: seq<Tx>, k: nat)
    requires Linked(s.prev) && M.GoodList(s, db, txs) && BlockOf(s, db, b, txs) && k < |txs|
    ensures k + 1 < |b.block.vtx| && b.block.vtx[k + 1] == txs[k]
    ensures var tx := txs[k];
      && tx.hash != b.block.vtx[0].hash && !tx.IsCoinBase() && !tx.IsCoinStake()
      && tx.hash in s.pool && s.pool[tx.hash] == tx && s.o.disk(TxPos(s.o, b, k + 1)) == Some(tx)
      && TxPos(s.o, b, k + 1) != NullPos && TxPos(s.o, b, k + 1) != MEMPOOL_POS
      && M.Connects(s, M.ViewAfter(db, txs[..k]), tx) && CanSpend(M.ViewAfter(db, txs[..k]), tx.vin)
  {
    OffsetsPositive(s.o, b, k + 1);
    assert b.block.vtx[1..][k] == b.block.vtx[k + 1];
    assert txs[k].hash in M.HashesOf(txs);
    assert M.ConnectsAt(s, db, txs, k);
  }

  /** Signature operations in redeemed scripts depend on the spent outputs alone. */
  ghost predicate CountsPrevTxs(o: Oracle) {
    forall tx, a, c :: SameTxs(a, c) ==> o.p2shSigOps(tx, a) == o.p2shSigOps(tx, c)
  }

  /** The block takes each transaction of the list that overwrites nothing, and counts for it
      what the template counted. */
  lemma TxHere(s: M.Setup, db: IndexMap, b: CBlockIndex, txs: seq<Tx>, k: nat)
    requires Linked(s.prev) && M.GoodList(s, db, txs) && BlockOf(s, db, b, txs) && Sound(s.o, db) && k < |txs|
    requires b.block.vtx[0].hash in db ==> FullySpent(db[b.block.vtx[0].hash])
    requires CountsPrevTxs(s.o)
    ensures (txs[k].hash in db ==> FullySpent(db[txs[k].hash])) ==> TxAccepted(s.o, db, b, s.prev.nHeight, k + 1)
    ensures b.block.vtx[k + 1] == txs[k]
    ensures TxFee(s.o, db, b, k + 1, s.prev.nHeight) == M.Fee(s, M.ViewAfter(db, txs[..k]), txs[k])
    ensures s.o.legacySigOps(txs[k]) + s.o.p2shSigOps(txs[k], PrevOf(s.o, db, b, k + 1)) ==
      M.SigOps(s, M.ViewAfter(db, txs[..k]), txs[k])
  {
    var tx, m, v, h := txs[k], M.ViewAfter(db, txs[..k]), Before(s.o, db, b, k + 1), s.prev.nHeight;
    ListedTx(s, db, b, txs, k);
    AlikeAt(s, db, b, txs, k);
    FetchAlike(s, b, b.block.vtx[0].hash, m, v, tx);
    var a, c := M.InputsFrom(s, m, tx), Prev(s.o, v, tx.vin);
    AcceptedHere(s, b, a, c, tx, h);
    SameValues(s, b, a, c, tx.vin);
    SameValueIn(s, b, a, c, tx, true, h);
    assert SameTxs(a, c);
  }

  lemma {:induction false} CountsHere(s: M.Setup, db: IndexMap, b: CBlockIndex, txs: seq<Tx>, k: nat)
    requires Linked(s.prev) && M.GoodList(s, db, txs) && BlockOf(s, db, b, txs) && Sound(s.o, db) && k <= |txs|
    requires b.block.vtx[0].hash in db ==> FullySpent(db[b.block.vtx[0].hash])
    requires CountsPrevTxs(s.o)
    ensures SigOps(s.o, db, b, k + 1) == s.o.legacySigOps(b.block.vtx[0]) + M.TotalSigOps(s, db, txs[..k])
    ensures Fees(s.o, db, b, s.prev.nHeight, k + 1) == M.TotalFees(s, db, txs[..k])
  {
    hide M.GoodList, BlockOf, Before, PrevOf, TxFee, M.Fee, M.SigOps, M.ViewAfter, FullySpent, Sound, TxAccepted;
    hide Tx.IsCoinBase, Tx.IsCoinStake, CountsPrevTxs, SigOps, Fees;
    if k == 0 {
      CoinbaseCounts(s, db, b, txs);
    } else {
      CountsHere(s, db, b, txs, k - 1);
      TxHere(s, db, b, txs, k - 1);
      ListedTx(s, db, b, txs, k - 1);
      CountsStep(s.o, db, b, s.prev.nHeight, k);
      assert txs[..k][..k - 1] == txs[..k - 1];
    }
  }

  lemma CoinbaseCounts(s: M.Setup, db: IndexMap, b: CBlockIndex, txs: seq<Tx>)
    requires BlockOf(s, db, b, txs)
    ensures SigOps(s.o, db, b, 1) == s.o.legacySigOps(b.block.vtx[0]) && Fees(s.o, db, b, s.prev.nHeight, 1) == 0
  {
    assert SigOps(s.o, db, b, 0) == 0 && Fees(s.o, db, b, s.prev.nHeight, 0) == 0;
  }

  lemma CountsStep(o: Oracle, db: IndexMap, b: CBlockIndex, bestHeight: int, k: nat)
    requires k < |b.block.vtx| && !b.block.vtx[k].IsCoinBase()
    ensures SigOps(o, db, b, k + 1) == SigOps(o, db, b, k) + o.legacySigOps(b.block.vtx[k])
      + o.p2shSigOps(b.block.vtx[k], PrevOf(o, db, b, k))
    ensures Fees(o, db, b, bestHeight, k + 1) == Fees(o, db, b, bestHeight, k) + TxFee(o, db, b, k, bestHeight)
  {
  }

  /** ConnectBlock accepts the transactions of such a block exactly when none of them overwrites
      an entry of the database that is not fully spent: the one thing the template does not
      check. */
  lemma TemplateConnects(s: M.Setup, db: IndexMap, b: CBlockIndex, txs: seq<Tx>)
    requires Linked(s.prev) && M.GoodList(s, db, txs) && BlockOf(s, db, b, txs) && Sound(s.o, db)
    requires CountsPrevTxs(s.o)
    ensures TxsAccepted(s.o, db, b, s.prev.nHeight, |b.block.vtx|) <==> NoOverwrite(db, BatchOf(s.o, b))
  {
    var n, h, vtx := |txs|, s.prev.nHeight, b.block.vtx;
    if TxsAccepted(s.o, db, b, h, n + 1) {
      forall i | 0 <= i < |vtx| && vtx[i].hash in db ensures FullySpent(db[vtx[i].hash]) {
        assert TxAccepted(s.o, db, b, h, i);
      }
    }
    if NoOverwrite(db, BatchOf(s.o, b)) {
      forall i | 0 <= i < n + 1 ensures TxAccepted(s.o, db, b, h, i) {
        if i > 0 {
          TxHere(s, db, b, txs, i - 1);
        }
      }
      CountsHere(s, db, b, txs, n);
      assert txs[..n] == txs;
    }
  }

  /** And it accepts the block exactly when also CheckBlock passes and the coinbase pays no more
      than the subsidy and the fees of the template. */
  lemma TemplateAccepted(s: M.Setup, db: IndexMap, b: CBlockIndex, txs: seq<Tx>)
    requires Linked(s.prev) && M.GoodList(s, db, txs) && BlockOf(s, db, b, txs) && Sound(s.o, db)
    requires CountsPrevTxs(s.o)
    ensures BlockAccepted(s.o, db, b, s.prev.nHeight) <==>
      && WellFormedBlock(s.o, b.block) && NoOverwrite(db, BatchOf(s.o, b))
      && b.block.vtx[0].ValueOut() <= WorkSubsidy(s.prev.nHeight) + M.TotalFees(s, db, txs)
  {
    TemplateConnects(s, db, b, txs);
    if txs != [] {
      ListedTx(s, db, b, txs, 0);
    }
    if NoOverwrite(db, BatchOf(s.o, b)) {
      assert b.block.vtx[0].hash in db ==> FullySpent(db[b.block.vtx[0].hash]);
      CountsHere(s, db, b, txs, |txs|);
      assert txs[..|txs|] == txs;
    }
    hide M.GoodList, BlockOf, TxsAccepted, Fees, WellFormedBlock, M.TotalFees;
  }
}
