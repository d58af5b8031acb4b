/** Conservation of money by ConnectBlock, and the most a block can create. */
module BlockMoney {
  import opened Wrappers
  import opened Transactions
  import opened Ledger
  import opened Money
  import opened Blocks
  import opened Inputs
  import opened Spend
  import opened Connect

  lemma {:induction false} SumInIsValue(o: Oracle, view: IndexMap, prev: PrevTxs, vin: seq<OutPoint>)
    requires Sound(o, view)
    requires forall i :: 0 <= i < |vin| ==> vin[i].hash in view
    requires forall i :: 0 <= i < |vin| ==>
      InRange(prev, vin[i]) && prev[vin[i].hash].0 == view[vin[i].hash]
      && o.disk(view[vin[i].hash].pos) == Some(prev[vin[i].hash].1)
    ensures SumIn(prev, vin) == ValueOfInputs(o.disk, view, vin)
  {
    if vin != [] {
      var op := vin[|vin| - 1];
      SumInIsValue(o, view, prev, vin[..|vin| - 1]);
      assert InRange(prev, op);
    }
  }

  /** What the block loop counts as a transaction's inputs is what they are worth. */
  lemma TxInIsValue(o: Oracle, db: IndexMap, b: CBlockIndex, bestHeight: int, k: nat)
    requires Linked(b) && Stored(o, b) && Sound(o, db) && k < |b.block.vtx|
    requires TxAccepted(o, db, b, bestHeight, k) && !b.block.vtx[k].IsCoinBase()
    ensures forall i :: 0 <= i < |b.block.vtx[k].vin| ==> b.block.vtx[k].vin[i].hash in Before(o, db, b, k)
    ensures TxIn(o, db, b, k) == ValueOfInputs(o.disk, Before(o, db, b, k), b.block.vtx[k].vin)
  {
    var vin, view := b.block.vtx[k].vin, Before(o, db, b, k);
    BeforeSound(o, db, b, k);
    forall i | 0 <= i < |vin|
      ensures InRange(Prev(o, view, vin), vin[i]) && Prev(o, view, vin)[vin[i].hash].0 == view[vin[i].hash]
              && o.disk(view[vin[i].hash].pos) == Some(Prev(o, view, vin)[vin[i].hash].1)
    {
      assert InRange(Prev(o, view, vin), vin[i]);
      assert SoundEntry(o, vin[i].hash, view[vin[i].hash]);
    }
    SumInIsValue(o, view, Prev(o, view, vin), vin);
  }

  /** An accepted transaction can be applied when its turn comes. */
  lemma TurnCanApply(o: Oracle, db: IndexMap, b: CBlockIndex, bestHeight: int, k: nat)
    requires Linked(b) && k < |b.block.vtx| && BlockAccepted(o, db, b, bestHeight) && Stored(o, b)
    ensures CanApplyTx(Before(o, db, b, k), b.block.vtx[k]) && TxAccepted(o, db, b, bestHeight, k)
    ensures o.disk(TxPos(o, b, k)) == Some(b.block.vtx[k])
  {
    AcceptedCanApply(o, db, b, bestHeight);
    OwnEntrySpent(db, BatchOf(o, b), k, k);
    assert CanSpendAt(db, BatchOf(o, b), k);
  }

  lemma BeforeNothing(o: Oracle, db: IndexMap, b: CBlockIndex)
    ensures Before(o, db, b, 0) == db
  {
  }

  lemma {:induction false} TxsSupply(o: Oracle, db: IndexMap, b: CBlockIndex, bestHeight: int, k: nat)
    requires Linked(b) && Stored(o, b) && Sound(o, db) && k <= |b.block.vtx|
    requires BlockAccepted(o, db, b, bestHeight)
    ensures Supply(o.disk, Before(o, db, b, k)) == Supply(o.disk, db) + TotalOut(b, k) - TotalIn(o, db, b, k)
  {
    hide BlockAccepted, CanApplyTx, TxAccepted, ApplyTx, Before, Supply, Sound, Stored, TxIn, Linked;
    BeforeNothing(o, db, b);
    if k > 0 {
      TxsSupply(o, db, b, bestHeight, k - 1);
      var tx, view := b.block.vtx[k - 1], Before(o, db, b, k - 1);
      TurnCanApply(o, db, b, bestHeight, k - 1);
      BeforeStep(o, db, b, k - 1);
      ApplyTxSupply(o.disk, view, tx, TxPos(o, b, k - 1));
      if tx.IsCoinBase() {
        CoinbaseIn(o, db, b, k - 1);
      } else {
        TxInIsValue(o, db, b, bestHeight, k - 1);
      }
    }
  }

  lemma CoinbaseIn(o: Oracle, db: IndexMap, b: CBlockIndex, k: nat)
    requires k < |b.block.vtx| && b.block.vtx[k].IsCoinBase()
    ensures TxIn(o, db, b, k) == 0
  {
  }

  /** Connecting a block changes the money in circulation by exactly what ConnectBlock adds
      to nMoneySupply. */
  lemma BlockSupply(o: Oracle, db: IndexMap, b: CBlockIndex, bestHeight: int)
    requires Linked(b) && Stored(o, b) && Sound(o, db) && BlockAccepted(o, db, b, bestHeight)
    ensures Supply(o.disk, Apply(db, BatchOf(o, b))) ==
      var t := TotalsAt(o, db, b, bestHeight, |b.block.vtx|); Supply(o.disk, db) + t.valueOut - t.valueIn
  {
    TxsSupply(o, db, b, bestHeight, |b.block.vtx|);
  }

  // ------------------------------------------------------------ how much a block mints

  /** The transaction earns the post-mine credit once the height allows it. */
  predicate SpendsPostmine(tx: Tx) {
    !tx.IsCoinBase() && !tx.IsCoinStake() && |tx.vin| == 1 && tx.vin[0].hash == HASH_POSTMINE
  }

  function PostmineSpends(txs: seq<Tx>): nat {
    if txs == [] then 0
    else PostmineSpends(txs[..|txs| - 1]) + if SpendsPostmine(txs[|txs| - 1]) then 1 else 0
  }

  function Credits(b: Block, bestHeight: int): nat {
    if bestHeight >= POSTMINE_BLOCK then PostmineSpends(b.vtx) else 0
  }

  lemma CreditTest(o: Oracle, view: IndexMap, tx: Tx, bestHeight: int)
    requires Available(o, view, tx.vin) && !tx.IsCoinBase() && !tx.IsCoinStake()
    ensures Postmine(Prev(o, view, tx.vin), tx, bestHeight) <==> bestHeight >= POSTMINE_BLOCK && SpendsPostmine(tx)
    ensures ValueIn(Prev(o, view, tx.vin), tx, true, bestHeight) - ValueIn(Prev(o, view, tx.vin), tx, false, bestHeight)
            == if bestHeight >= POSTMINE_BLOCK && SpendsPostmine(tx) then POSTMINE_VALUE else 0
  {
    var prev, vin := Prev(o, view, tx.vin), tx.vin;
    if |vin| == 1 {
      assert InRange(prev, vin[0]);
      assert prev.Keys == {vin[0].hash};
      assert vin[..0] == [];
      assert SumIn(prev, vin) == SumIn(prev, vin[..0]) + PrevValue(prev, vin[0]);
    }
  }

  /** What one transaction adds to outputs minus inputs plus fees. */
  lemma TxMint(o: Oracle, db: IndexMap, b: CBlockIndex, bestHeight: int, k: nat)
    requires Linked(b) && k < |b.block.vtx| && TxAccepted(o, db, b, bestHeight, k)
    ensures var tx := b.block.vtx[k];
      tx.ValueOut() - TxIn(o, db, b, k) + TxFee(o, db, b, k, bestHeight) ==
        if tx.IsCoinBase() then tx.ValueOut()
        else if tx.IsCoinStake() then tx.ValueOut() - TxIn(o, db, b, k)
        else if bestHeight >= POSTMINE_BLOCK && SpendsPostmine(tx) then POSTMINE_VALUE else 0
  {
    var tx := b.block.vtx[k];
    if !tx.IsCoinBase() && !tx.IsCoinStake() {
      CreditTest(o, Before(o, db, b, k), tx, bestHeight);
    }
  }

  /** Money credited to the first k transactions. */
  function CreditsUpTo(b: Block, bestHeight: int, k: nat): int
    requires k <= |b.vtx|
  {
    if bestHeight >= POSTMINE_BLOCK then POSTMINE_VALUE * PostmineSpends(b.vtx[..k]) else 0
  }

  lemma CreditsStep(b: Block, bestHeight: int, k: nat)
    requires k < |b.vtx|
    ensures CreditsUpTo(b, bestHeight, k + 1) ==
      CreditsUpTo(b, bestHeight, k) + if bestHeight >= POSTMINE_BLOCK && SpendsPostmine(b.vtx[k]) then POSTMINE_VALUE
        else 0
    ensures CreditsUpTo(b, bestHeight, 0) == 0
  {
    assert b.vtx[..k + 1][..k] == b.vtx[..k];
  }

  /** What the coinstakes among the first k transactions pay beyond their inputs. */
  ghost function StakeMints(o: Oracle, db: IndexMap, b: CBlockIndex, k: nat): int
    requires k <= |b.block.vtx|
  {
    if k == 0 then 0
    else
      var tx := b.block.vtx[k - 1];
      StakeMints(o, db, b, k - 1)
      + if tx.IsCoinStake() && !tx.IsCoinBase() then tx.ValueOut() - TxIn(o, db, b, k - 1) else 0
  }

  /** Outputs minus inputs, with the fees added back and the credits taken out, are what
      the coinbase and the coinstakes pay. */
  lemma {:induction false} MintAccount(o: Oracle, db: IndexMap, b: CBlockIndex, bestHeight: int, k: nat)
    requires Linked(b) && BlockAccepted(o, db, b, bestHeight) && k <= |b.block.vtx|
    ensures TotalOut(b, k) - TotalIn(o, db, b, k) + Fees(o, db, b, bestHeight, k) ==
      (if k == 0 then 0 else b.block.vtx[0].ValueOut()) + StakeMints(o, db, b, k) + CreditsUpTo(b.block, bestHeight, k)
  {
    if k > 0 {
      MintAccount(o, db, b, bestHeight, k - 1);
      var tx := b.block.vtx[k - 1];
      assert TxAccepted(o, db, b, bestHeight, k - 1);
      assert tx.IsCoinBase() <==> k == 1;
      TxMint(o, db, b, bestHeight, k - 1);
      CreditsStep(b.block, bestHeight, k - 1);
      hide POSTMINE_VALUE, TxFee, TxIn, CreditsUpTo, TxAccepted, BlockAccepted;
      hide Tx.IsCoinBase, Tx.IsCoinStake, Tx.ValueOut, SpendsPostmine;
    }
  }

  /** The reward a block may pay: the subsidy, and in a proof-of-work block also whatever its
      coinstakes pay, which no check limits. */
  ghost function MostReward(o: Oracle, db: IndexMap, b: CBlockIndex, bestHeight: int): int
    requires b.block.IsProofOfStake() ==> o.coinAge(b.block.vtx[1], db).Some?
  {
    if b.block.IsProofOfStake() then StakeSubsidy(o.coinAge(b.block.vtx[1], db).value)
    else WorkSubsidy(bestHeight) + StakeMints(o, db, b, |b.block.vtx|)
  }

  /** A block raises the money supply by at most this reward and the post-mine credits. */
  lemma MintBound(o: Oracle, db: IndexMap, b: CBlockIndex, bestHeight: int)
    requires Linked(b) && BlockAccepted(o, db, b, bestHeight)
    ensures b.block.IsProofOfStake() ==> o.coinAge(b.block.vtx[1], db).Some?
    ensures var t := TotalsAt(o, db, b, bestHeight, |b.block.vtx|);
      t.valueOut - t.valueIn <= MostReward(o, db, b, bestHeight) + POSTMINE_VALUE * Credits(b.block, bestHeight)
    ensures (forall i :: 0 <= i < |b.block.vtx| ==> !b.block.vtx[i].IsCoinStake()) ==>
      MostReward(o, db, b, bestHeight) == WorkSubsidy(bestHeight)
  {
    hide WellFormedTx, TxAccepted, SigOps, Linked;
    var n := |b.block.vtx|;
    MintAccount(o, db, b, bestHeight, n);
    assert b.block.vtx[..n] == b.block.vtx;
    if b.block.IsProofOfStake() {
      var vout := b.block.vtx[0].vout;
      assert vout[..0] == [] && SumOut(vout) == SumOut(vout[..0]) + vout[0].value;
      OneCoinstake(o, db, b, n);
    }
    if forall i :: 0 <= i < n ==> !b.block.vtx[i].IsCoinStake() {
      NoCoinstake(o, db, b, n);
    }
  }

  /** A proof-of-work block stays within subsidy and credits exactly when what its coinbase and
      its coinstakes pay does not exceed subsidy and fees; the code checks the coinbase alone. */
  lemma WorkBound(o: Oracle, db: IndexMap, b: CBlockIndex, bestHeight: int)
    requires Linked(b) && BlockAccepted(o, db, b, bestHeight) && !b.block.IsProofOfStake()
    ensures var n := |b.block.vtx|;
      var t := TotalsAt(o, db, b, bestHeight, n);
      t.valueOut - t.valueIn <= WorkSubsidy(bestHeight) + POSTMINE_VALUE * Credits(b.block, bestHeight) <==>
      b.block.vtx[0].ValueOut() + StakeMints(o, db, b, n) <= WorkSubsidy(bestHeight) + t.fees
  {
    var n := |b.block.vtx|;
    MintAccount(o, db, b, bestHeight, n);
    assert b.block.vtx[..n] == b.block.vtx;
  }

  lemma {:induction false} OneCoinstake(o: Oracle, db: IndexMap, b: CBlockIndex, k: nat)
    requires k <= |b.block.vtx| && b.block.vtx != [] && b.block.vtx[0].IsCoinBase()
    requires forall i :: 2 <= i < |b.block.vtx| ==> !b.block.vtx[i].IsCoinStake()
    ensures StakeMints(o, db, b, k) == StakeReward(o, db, b, k) && (k <= 1 ==> StakeReward(o, db, b, k) == 0)
  {
    if k > 0 {
      OneCoinstake(o, db, b, k - 1);
    }
  }

  lemma {:induction false} NoCoinstake(o: Oracle, db: IndexMap, b: CBlockIndex, k: nat)
    requires k <= |b.block.vtx|
    requires forall i :: 0 <= i < |b.block.vtx| ==> !b.block.vtx[i].IsCoinStake()
    ensures StakeMints(o, db, b, k) == 0
  {
    if k > 0 {
      NoCoinstake(o, db, b, k - 1);
    }
  }
}
