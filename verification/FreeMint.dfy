/**
 No check limits what a coinstake pays in a proof-of-work block: for every amount there is
 an accepted block with a coinstake in third place that pays it out of nothing.
 */
module FreeMint {
  import opened Wrappers
  import opened Transactions
  import opened Ledger
  import opened Blocks
  import opened Inputs
  import opened Spend
  import opened Connect

  /** A transaction with one input and one output. */
  function Plain(hash: Hash, from: OutPoint, value: int): Tx {
    Tx(hash, 0, [from], [TxOut(value, [1])])
  }

  const FEE_SOURCE: Tx := Plain(11, OutPoint(1, 0), MIN_TX_FEE)
  const EMPTY_SOURCE: Tx := Plain(12, OutPoint(2, 0), 0)
  const COINBASE: Tx := Plain(21, OutPoint(0, NO_INDEX), 0)
  const PAYMENT: Tx := Plain(22, OutPoint(11, 0), 0)

  function Stake(x: int): Tx {
    Tx(23, 0, [OutPoint(12, 0)], [TxOut(0, []), TxOut(x, [1])])
  }

  function TheBlock(x: int): Block {
    Block(31, 30, 0, [COINBASE, PAYMENT, Stake(x)])
  }

  /** The block files hold the two transactions that are spent, and the block at place 100. */
  function World(x: int): Oracle {
    Oracle(
      (p: DiskTxPos) =>
        if p == Pos(0, 11, 0) then Some(FEE_SOURCE)
        else if p == Pos(0, 12, 0) then Some(EMPTY_SOURCE)
        else if p == Pos(0, 100, 181) then Some(COINBASE)
        else if p == Pos(0, 100, 182) then Some(PAYMENT)
        else if p == Pos(0, 100, 183) then Some(Stake(x))
        else None,
      (tx: Tx) => 1,
      (b: Block) => true,
      (from: Tx, to: Tx, n: nat) => true,
      (tx: Tx) => 0,
      (tx: Tx, inputs: PrevTxs) => 0,
      (tx: Tx, idx: IndexMap) => None,
      0)
  }

  const INDEX: IndexMap := map[11 := TxIndex(Pos(0, 11, 0), [NullPos]), 12 := TxIndex(Pos(0, 12, 0), [NullPos])]

  lemma OneOutput(value: int)
    ensures SumOut([TxOut(value, [1])]) == value
  {
    var v := [TxOut(value, [1])];
    assert v[..0] == [] && SumOut(v[..0]) == 0;
  }

  lemma PlainChecks(hash: Hash, from: OutPoint, value: int)
    requires MoneyRange(value)
    ensures WellFormedTx(Plain(hash, from, value)) && Plain(hash, from, value).ValueOut() == value
    ensures !Plain(hash, from, value).IsCoinStake() && (Plain(hash, from, value).IsCoinBase() <==> from.IsNull())
  {
    var tx := Plain(hash, from, value);
    OneOutput(value);
    forall k | 0 <= k <= |tx.vout| ensures MoneyRange(SumOut(tx.vout[..k])) {
      assert k == 0 ==> tx.vout[..k] == [];
      assert k == 1 ==> tx.vout[..k] == tx.vout;
    }
  }

  lemma StakeChecks(x: int)
    requires MoneyRange(x)
    ensures WellFormedTx(Stake(x)) && Stake(x).ValueOut() == x && Stake(x).IsCoinStake() && !Stake(x).IsCoinBase()
  {
    var v := Stake(x).vout;
    assert v[..0] == [] && v[..1] == [TxOut(0, [])] && v[..2] == v;
    assert SumOut(v[..1]) == 0 by {
      assert v[..1][..0] == [] && v[..1][0].value == 0;
    }
    assert SumOut(v) == x;
    forall k | 0 <= k <= |v| ensures MoneyRange(SumOut(v[..k])) {
      assert k == 0 || k == 1 || k == 2;
    }
  }

  lemma BlockChecks(x: int)
    requires MoneyRange(x)
    ensures WellFormedBlock(World(x), TheBlock(x)) && !TheBlock(x).IsProofOfStake()
  {
    PlainChecks(21, OutPoint(0, NO_INDEX), 0);
    PlainChecks(22, OutPoint(11, 0), 0);
    StakeChecks(x);
  }

  /** One input that is in the index, unspent and from a plain transaction. */
  lemma InputPasses(x: int, view: IndexMap, from: Tx, tx: Tx, b: CBlockIndex, h: int)
    requires Linked(b) && |tx.vin| == 1 && tx.vin[0] == OutPoint(from.hash, 0) && tx.time == 0
    requires from == FEE_SOURCE || from == EMPTY_SOURCE
    requires from.hash in view && view[from.hash] == TxIndex(Pos(0, from.hash, 0), [NullPos])
    requires !tx.IsCoinBase() && (tx.IsCoinStake() || (from == FEE_SOURCE && tx.ValueOut() == 0))
    ensures Available(World(x), view, tx.vin) &&
      InputsAccepted(World(x), Prev(World(x), view, tx.vin), tx, b, ForBlock, h)
    ensures SumIn(Prev(World(x), view, tx.vin), tx.vin) == from.vout[0].value
  {
    var o, prev, op := World(x), Prev(World(x), view, tx.vin), tx.vin[0];
    assert o.disk(view[from.hash].pos) == Some(from);
    assert op.hash in prev && prev[op.hash] == (view[from.hash], from);
    assert InRange(prev, op) && tx.vin[..0] == [] && tx.vin[..1] == tx.vin;
    assert SumIn(prev, tx.vin[..0]) == 0 && RunningIn(prev, tx.vin[..0]) == 0;
    assert PrevValue(prev, op) == from.vout[0].value;
    assert RunningIn(prev, tx.vin) == from.vout[0].value;
    assert InputOk(prev, tx, 0, b);
    assert CanSpend(Entries(prev), tx.vin);
  }

  lemma SourcesStay(b: CBlockIndex, x: int)
    requires b.block == TheBlock(x)
    ensures var view := Before(World(x), INDEX, b, 1);
      11 in view && view[11] == INDEX[11] && 12 in view && view[12] == INDEX[12]
    ensures var view := Before(World(x), INDEX, b, 2); 12 in view && view[12] == INDEX[12]
  {
    var o := World(x);
    BeforeStep(o, INDEX, b, 0);
    BeforeStep(o, INDEX, b, 1);
    assert Before(o, INDEX, b, 0) == INDEX;
    var view := Before(o, INDEX, b, 1);
    MarkAllEffect(view, PAYMENT.vin, TxPos(o, b, 1));
    var later := Before(o, INDEX, b, 2);
    assert later[12].vSpent == [NullPos] && later[12] == INDEX[12];
  }

  lemma Accepted(b: CBlockIndex, x: int, h: int)
    requires Linked(b) && b.block == TheBlock(x) && MoneyRange(x)
    ensures forall k | 0 <= k < 3 :: TxAccepted(World(x), INDEX, b, h, k)
    ensures TxIn(World(x), INDEX, b, 1) == MIN_TX_FEE && TxIn(World(x), INDEX, b, 2) == 0
    ensures TxIn(World(x), INDEX, b, 0) == 0 && TxFee(World(x), INDEX, b, 1, h) >= 0
  {
    var o := World(x);
    BlockChecks(x);
    StakeChecks(x);
    PlainChecks(21, OutPoint(0, NO_INDEX), 0);
    PlainChecks(22, OutPoint(11, 0), 0);
    SourcesStay(b, x);
    InputPasses(x, Before(o, INDEX, b, 1), FEE_SOURCE, PAYMENT, b, h);
    InputPasses(x, Before(o, INDEX, b, 2), EMPTY_SOURCE, Stake(x), b, h);
  }

  /** The index that the block spends from names what the block files hold. */
  lemma IndexSound(x: int)
    ensures Sound(World(x), INDEX)
  {
    assert SoundEntry(World(x), 11, INDEX[11]) && SoundEntry(World(x), 12, INDEX[12]);
  }

  lemma BlockStored(b: CBlockIndex, x: int)
    requires b.block == TheBlock(x) && b.nFile == 0 && b.nBlockPos == 100
    ensures Stored(World(x), b)
  {
    var o := World(x);
    assert TxOffset(o, b, 0) == 181;
    assert TxOffset(o, b, 1) == 182;
    assert TxOffset(o, b, 2) == 183;
    forall i | 0 <= i < |b.block.vtx| ensures o.disk(TxPos(o, b, i)) == Some(b.block.vtx[i]) {
      assert i == 0 || i == 1 || i == 2;
    }
  }

  /** For every amount, and on top of every block, there is a block that ConnectBlock accepts and
      that raises the money supply by the amount, less the fee another of its transactions pays. */
  method AnyAmount(prev: CBlockIndex, x: int, h: int) returns (b: CBlockIndex)
    requires MoneyRange(x) && Linked(prev)
    ensures fresh(b) && Linked(b) && b.pprev == prev && Stored(World(x), b) && Sound(World(x), INDEX)
    ensures !b.block.IsProofOfStake() && BlockAccepted(World(x), INDEX, b, h)
    ensures var t := TotalsAt(World(x), INDEX, b, h, |b.block.vtx|); t.valueOut - t.valueIn == x - MIN_TX_FEE
  {
    b := new CBlockIndex(TheBlock(x), prev, 1, 0, 100);
    BlockStored(b, x);
    IndexSound(x);
    Accepts(b, x, h);
  }

  lemma Accepts(b: CBlockIndex, x: int, h: int)
    requires Linked(b) && b.block == TheBlock(x) && MoneyRange(x)
    ensures BlockAccepted(World(x), INDEX, b, h)
    ensures var t := TotalsAt(World(x), INDEX, b, h, |b.block.vtx|); t.valueOut - t.valueIn == x - MIN_TX_FEE
  {
    var o := World(x);
    BlockChecks(x);
    StakeChecks(x);
    Accepted(b, x, h);
    PlainChecks(21, OutPoint(0, NO_INDEX), 0);
    PlainChecks(22, OutPoint(11, 0), 0);
    hide TxAccepted, TxIn, WellFormedBlock;
    assert SigOps(o, INDEX, b, 0) == 0;
    assert SigOps(o, INDEX, b, 1) == 0;
    assert SigOps(o, INDEX, b, 2) == 0;
    assert SigOps(o, INDEX, b, 3) == 0;
    assert TotalIn(o, INDEX, b, 1) == 0;
    assert TotalIn(o, INDEX, b, 2) == MIN_TX_FEE;
    assert TotalIn(o, INDEX, b, 3) == MIN_TX_FEE;
    assert TotalOut(b, 1) == 0;
    assert TotalOut(b, 2) == 0;
    assert TotalOut(b, 3) == x;
    assert Fees(o, INDEX, b, h, 1) == 0;
    assert Fees(o, INDEX, b, h, 2) >= 0;
    assert Fees(o, INDEX, b, h, 3) >= 0;
  }
}
