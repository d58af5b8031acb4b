/**
 Transactions, outpoints and transaction-index entries (src/main.h).

 Hashes are numbers.  A transaction carries its own hash: no property below needs
 the hash function to be injective unless it says so.
 */
module Transactions {
  import opened Wrappers

  type Hash = nat

  const COIN: int := 100_000_000
  const CENT: int := 1_000_000
  const MAX_MONEY: int := 1_000_000_000 * COIN
  const MIN_TX_FEE: int := 10_000
  const MAX_BLOCK_SIZE: int := 20_000_000
  const MAX_BLOCK_SIZE_GEN: int := MAX_BLOCK_SIZE / 2
  const MAX_BLOCK_SIGOPS: int := MAX_BLOCK_SIZE / 50
  const POSTMINE_BLOCK: int := 574_000
  const HASH_POSTMINE: Hash := 0x55f1b31a88b58552056188aa94ac7de1aa84bac13943902e243c9397b20d4d28
  const POSTMINE_VALUE: int := 389_000_000 * COIN
  const COIN_YEAR_REWARD: int := 4 * CENT
  const COINBASE_MATURITY: int := 10
  const NO_INDEX: nat := 0xFFFF_FFFF

  predicate MoneyRange(value: int) {
    0 <= value <= MAX_MONEY
  }

  datatype OutPoint = OutPoint(hash: Hash, n: nat) {
    predicate IsNull() {
      hash == 0 && n == NO_INDEX
    }
  }

  datatype TxOut = TxOut(value: int, script: seq<nat>) {
    predicate IsEmpty() {
      value == 0 && script == []
    }
  }

  /** `vin` lists the outpoints the inputs spend; what a signature check reads besides
      them is hidden in the predicate that stands for it. */
  datatype Tx = Tx(hash: Hash, time: int, vin: seq<OutPoint>, vout: seq<TxOut>) {
    predicate IsCoinBase() {
      |vin| == 1 && vin[0].IsNull() && |vout| >= 1
    }

    predicate IsCoinStake() {
      |vin| > 0 && !vin[0].IsNull() && |vout| >= 2 && vout[0].IsEmpty()
    }

    function ValueOut(): int {
      SumOut(vout)
    }
  }

  function SumOut(vout: seq<TxOut>): int {
    if vout == [] then 0 else SumOut(vout[..|vout| - 1]) + vout[|vout| - 1].value
  }

  /** What CheckTransaction asks for, but for sizes. */
  ghost predicate WellFormedTx(tx: Tx) {
    && tx.vin != [] && tx.vout != []
    && (forall i :: 0 <= i < |tx.vout| ==> OutputFine(tx, tx.vout[i]))
    && (forall k :: 0 <= k <= |tx.vout| ==> MoneyRange(SumOut(tx.vout[..k])))
    && Distinct(tx.vin)
    && (!tx.IsCoinBase() ==> forall i :: 0 <= i < |tx.vin| ==> !tx.vin[i].IsNull())
  }

  /** Only a coinbase or a coinstake has empty outputs, and no value is out of range. */
  ghost predicate OutputFine(tx: Tx, out: TxOut) {
    (out.IsEmpty() ==> tx.IsCoinBase() || tx.IsCoinStake()) && MoneyRange(out.value)
  }

  /** CheckTransaction. */
  method CheckTransaction(tx: Tx) returns (ok: bool)
    ensures ok <==> WellFormedTx(tx)
  {
    if tx.vin == [] || tx.vout == [] {
      return false;
    }
    ok := CheckOutputs(tx);
    if !ok {
      return;
    }
    ok := CheckPrevouts(tx);
  }

  /** The loop over the outputs. */
  method CheckOutputs(tx: Tx) returns (ok: bool)
    ensures ok <==>
      && (forall i :: 0 <= i < |tx.vout| ==> OutputFine(tx, tx.vout[i]))
      && (forall k :: 0 <= k <= |tx.vout| ==> MoneyRange(SumOut(tx.vout[..k])))
  {
    ok := false;
    var nValueOut := 0;
    var i := 0;
    while i < |tx.vout|
      invariant 0 <= i <= |tx.vout| && nValueOut == SumOut(tx.vout[..i])
      invariant forall j :: 0 <= j < i ==> OutputFine(tx, tx.vout[j])
      invariant forall k :: 0 <= k <= i ==> MoneyRange(SumOut(tx.vout[..k]))
    {
      assert tx.vout[..i + 1][..i] == tx.vout[..i];
      var txout := tx.vout[i];
      if txout.IsEmpty() && !tx.IsCoinBase() && !tx.IsCoinStake() {
        return;
      }
      if txout.value < 0 || txout.value > MAX_MONEY {
        return;
      }
      nValueOut := nValueOut + txout.value;
      if !MoneyRange(nValueOut) {
        return;
      }
      i := i + 1;
    }
    ok := true;
  }

  /** The loops over the inputs. */
  method CheckPrevouts(tx: Tx) returns (ok: bool)
    ensures ok <==>
      Distinct(tx.vin) && (!tx.IsCoinBase() ==> forall i :: 0 <= i < |tx.vin| ==> !tx.vin[i].IsNull())
  {
    ok := false;
    var vInOutPoints := {};
    var i := 0;
    while i < |tx.vin|
      invariant 0 <= i <= |tx.vin| && Distinct(tx.vin[..i])
      invariant forall op :: op in vInOutPoints <==> op in tx.vin[..i]
    {
      if tx.vin[i] in vInOutPoints {
        return;
      }
      vInOutPoints := vInOutPoints + {tx.vin[i]};
      assert tx.vin[..i + 1] == tx.vin[..i] + [tx.vin[i]];
      i := i + 1;
    }
    assert tx.vin[..i] == tx.vin;
    if !tx.IsCoinBase() {
      i := 0;
      while i < |tx.vin|
        invariant 0 <= i <= |tx.vin| && forall j :: 0 <= j < i ==> !tx.vin[j].IsNull()
      {
        if tx.vin[i].IsNull() {
          return;
        }
        i := i + 1;
      }
    }
    ok := true;
  }

  /** A transaction that passes is a coinbase, whose one input is null, a coinstake, which starts
      with an empty output and has another, or another one, without null inputs and empty
      outputs; and it pays out no more than there is. */
  lemma KindsOfTx(tx: Tx)
    requires WellFormedTx(tx)
    ensures tx.IsCoinBase() <==> exists i :: 0 <= i < |tx.vin| && tx.vin[i] == OutPoint(0, 4_294_967_295)
    ensures tx.IsCoinBase() ==> |tx.vin| == 1 && !tx.IsCoinStake()
    ensures tx.IsCoinStake() <==> !tx.IsCoinBase() && |tx.vout| >= 2 && tx.vout[0] == TxOut(0, [])
    ensures !tx.IsCoinBase() && !tx.IsCoinStake() ==>
      forall i :: 0 <= i < |tx.vout| ==> tx.vout[i] != TxOut(0, [])
    ensures forall i :: 0 <= i < |tx.vout| ==> 0 <= tx.vout[i].value <= 100_000_000_000_000_000
    ensures 0 <= tx.ValueOut() <= 100_000_000_000_000_000
  {
    assert tx.vout[..|tx.vout|] == tx.vout;
    assert tx.vout[0] == TxOut(tx.vout[0].value, tx.vout[0].script);
    if tx.IsCoinBase() {
      assert tx.vin[0] == OutPoint(0, 4_294_967_295);
    }
  }

  /** Position of a transaction in the block files; NullPos marks an unspent output. */
  datatype DiskTxPos = NullPos | Pos(file: nat, blockPos: nat, txPos: nat)

  /** FetchInputs reads this position as "look in the memory pool". */
  const MEMPOOL_POS: DiskTxPos := Pos(1, 1, 1)

  /** Index entry of a transaction: where it is, and for each output the position of
      its spender. */
  datatype TxIndex = TxIndex(pos: DiskTxPos, vSpent: seq<DiskTxPos>)

  function FreshIndex(pos: DiskTxPos, outputs: nat): (r: TxIndex)
    ensures r.pos == pos && |r.vSpent| == outputs
    ensures forall n :: 0 <= n < outputs ==> r.vSpent[n] == NullPos
  {
    TxIndex(pos, seq(outputs, _ => NullPos))
  }

  type IndexMap = map<Hash, TxIndex>

  ghost predicate IsUnspent(idx: IndexMap, op: OutPoint) {
    op.hash in idx && op.n < |idx[op.hash].vSpent| && idx[op.hash].vSpent[op.n] == NullPos
  }

  ghost predicate FullySpent(entry: TxIndex) {
    forall n :: 0 <= n < |entry.vSpent| ==> entry.vSpent[n] != NullPos
  }
}
