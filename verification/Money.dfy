/** The money an index map holds: the sum of its unspent outputs. */
module Money {
  import opened Wrappers
  import opened Transactions
  import opened Ledger

  type Disk = DiskTxPos -> Option<Tx>

  function OutputValue(disk: Disk, entry: TxIndex, n: nat): int {
    match disk(entry.pos)
    case None => 0
    case Some(tx) => if n < |tx.vout| then tx.vout[n].value else 0
  }

  ghost function UnspentIn(disk: Disk, entry: TxIndex, k: nat): int
    requires k <= |entry.vSpent|
  {
    if k == 0 then 0
    else UnspentIn(disk, entry, k - 1)
         + if entry.vSpent[k - 1] == NullPos then OutputValue(disk, entry, k - 1) else 0
  }

  ghost function EntrySupply(disk: Disk, entry: TxIndex): int {
    UnspentIn(disk, entry, |entry.vSpent|)
  }

  ghost function Supply(disk: Disk, idx: IndexMap): int
    decreases |idx|
  {
    if idx == map[] then 0
    else
      var h :| h in idx;
      EntrySupply(disk, idx[h]) + Supply(disk, idx - {h})
  }

  lemma {:induction false} SupplyAt(disk: Disk, idx: IndexMap, h: Hash)
    requires h in idx
    ensures Supply(disk, idx) == EntrySupply(disk, idx[h]) + Supply(disk, idx - {h})
    decreases |idx|
  {
    var g :| g in idx && Supply(disk, idx) == EntrySupply(disk, idx[g]) + Supply(disk, idx - {g});
    if g != h {
      SupplyAt(disk, idx - {g}, h);
      SupplyAt(disk, idx - {h}, g);
      assert idx - {g} - {h} == idx - {h} - {g};
    }
  }

  lemma SupplyUpdate(disk: Disk, idx: IndexMap, h: Hash, entry: TxIndex)
    ensures Supply(disk, idx[h := entry]) ==
            Supply(disk, idx) + EntrySupply(disk, entry) - if h in idx then EntrySupply(disk, idx[h]) else 0
  {
    SupplyAt(disk, idx[h := entry], h);
    assert idx[h := entry] - {h} == idx - {h};
    if h in idx {
      SupplyAt(disk, idx, h);
    } else {
      assert idx - {h} == idx;
    }
  }

  lemma {:induction false} UnspentInMarked(disk: Disk, e: TxIndex, n: nat, pos: DiskTxPos, k: nat)
    requires n < |e.vSpent| && e.vSpent[n] == NullPos && pos != NullPos && k <= |e.vSpent|
    ensures UnspentIn(disk, e.(vSpent := e.vSpent[n := pos]), k) ==
            UnspentIn(disk, e, k) - if n < k then OutputValue(disk, e, n) else 0
  {
    if k > 0 {
      UnspentInMarked(disk, e, n, pos, k - 1);
    }
  }

  lemma {:induction false} FullySpentEmpty(disk: Disk, e: TxIndex, k: nat)
    requires FullySpent(e) && k <= |e.vSpent|
    ensures UnspentIn(disk, e, k) == 0
  {
    if k > 0 {
      FullySpentEmpty(disk, e, k - 1);
    }
  }

  lemma {:induction false} FreshSupply(disk: Disk, pos: DiskTxPos, tx: Tx, k: nat)
    requires disk(pos) == Some(tx) && k <= |tx.vout|
    ensures UnspentIn(disk, FreshIndex(pos, |tx.vout|), k) == SumOut(tx.vout[..k])
  {
    if k > 0 {
      FreshSupply(disk, pos, tx, k - 1);
      assert tx.vout[..k][..k - 1] == tx.vout[..k - 1];
    }
  }

  /** Value of the outputs the inputs name. */
  ghost function ValueOfInputs(disk: Disk, idx: IndexMap, vin: seq<OutPoint>): int
    requires forall i :: 0 <= i < |vin| ==> vin[i].hash in idx
  {
    if vin == [] then 0
    else ValueOfInputs(disk, idx, vin[..|vin| - 1])
         + OutputValue(disk, idx[vin[|vin| - 1].hash], vin[|vin| - 1].n)
  }

  /** Spending takes exactly the value of the inputs out of circulation. */
  lemma {:induction false} SpendingSupply(disk: Disk, idx: IndexMap, vin: seq<OutPoint>, pos: DiskTxPos)
    requires CanSpend(idx, vin) && pos != NullPos
    ensures forall i :: 0 <= i < |vin| ==> vin[i].hash in idx
    ensures Supply(disk, MarkAll(idx, vin, pos)) == Supply(disk, idx) - ValueOfInputs(disk, idx, vin)
  {
    assert forall i :: 0 <= i < |vin| ==> IsUnspent(idx, vin[i]);
    if vin != [] {
      var rest, op := vin[..|vin| - 1], vin[|vin| - 1];
      assert CanSpend(idx, rest);
      SpendingSupply(disk, idx, rest, pos);
      MarkAllEffect(idx, rest, pos);
      var m := MarkAll(idx, rest, pos);
      assert OutPoint(op.hash, op.n) == op && op !in rest;
      var e := m[op.hash];
      SupplyUpdate(disk, m, op.hash, e.(vSpent := e.vSpent[op.n := pos]));
      UnspentInMarked(disk, e, op.n, pos, |e.vSpent|);
    }
  }

  /** Connecting a transaction changes the supply by its outputs minus its inputs. */
  lemma ApplyTxSupply(disk: Disk, idx: IndexMap, tx: Tx, pos: DiskTxPos)
    requires CanApplyTx(idx, tx) && pos != NullPos && disk(pos) == Some(tx)
    ensures !tx.IsCoinBase() ==> forall i :: 0 <= i < |tx.vin| ==> tx.vin[i].hash in idx
    ensures Supply(disk, ApplyTx(idx, tx, pos)) ==
            Supply(disk, idx) + tx.ValueOut() - if tx.IsCoinBase() then 0 else ValueOfInputs(disk, idx, tx.vin)
  {
    var m := if tx.IsCoinBase() then idx else MarkAll(idx, tx.vin, pos);
    if !tx.IsCoinBase() {
      SpendingSupply(disk, idx, tx.vin, pos);
      MarkAllEffect(idx, tx.vin, pos);
      InputsAreElsewhere(idx, tx);
    }
    SupplyUpdate(disk, m, tx.hash, FreshIndex(pos, |tx.vout|));
    FreshSupply(disk, pos, tx, |tx.vout|);
    assert tx.vout[..|tx.vout|] == tx.vout;
    if tx.hash in m {
      FullySpentEmpty(disk, m[tx.hash], |m[tx.hash].vSpent|);
    }
  }

  /** Leaving out fully spent entries does not change the supply. */
  lemma {:induction false} TrimsSupply(disk: Disk, a: IndexMap, r: IndexMap)
    requires Trims(a, r)
    ensures Supply(disk, a) == Supply(disk, r)
    decreases |r|
  {
    if a != map[] {
      var h :| h in a;
      SupplyAt(disk, a, h);
      SupplyAt(disk, r, h);
      TrimsSupply(disk, a - {h}, r - {h});
    } else if r != map[] {
      var h :| h in r;
      SupplyAt(disk, r, h);
      FullySpentEmpty(disk, r[h], |r[h].vSpent|);
      assert Trims(map[], r - {h});
      TrimsSupply(disk, a, r - {h});
    }
  }
}
