/**
 What connecting and disconnecting transactions does to the transaction index, as
 functions on index maps, and the laws the chain relies on: undoing a block gives back
 the unspent outputs it started from, on the index itself and on every index that only
 lacks fully spent entries.
 */
module Ledger {
  import opened Wrappers
  import opened Transactions

  /** A block as far as the index is concerned: its transactions and where they lie. */
  datatype Batch = Batch(txs: seq<Tx>, pos: seq<DiskTxPos>) {
    ghost predicate Valid() {
      && |pos| == |txs|
      && (forall i :: 0 <= i < |pos| ==> pos[i] != NullPos)
      && (forall i, j :: 0 <= i < j < |txs| ==> txs[i].hash != txs[j].hash)
    }
  }

  // ---------------------------------------------------------------- marking outputs

  function Mark(idx: IndexMap, op: OutPoint, pos: DiskTxPos): IndexMap {
    if op.hash in idx && op.n < |idx[op.hash].vSpent| then
      idx[op.hash := idx[op.hash].(vSpent := idx[op.hash].vSpent[op.n := pos])]
    else idx
  }

  function MarkAll(idx: IndexMap, vin: seq<OutPoint>, pos: DiskTxPos): IndexMap {
    if vin == [] then idx
    else Mark(MarkAll(idx, vin[..|vin| - 1], pos), vin[|vin| - 1], pos)
  }

  lemma MarkAllStep(idx: IndexMap, vin: seq<OutPoint>, i: nat, pos: DiskTxPos)
    requires i < |vin|
    ensures MarkAll(idx, vin[..i + 1], pos) == Mark(MarkAll(idx, vin[..i], pos), vin[i], pos)
  {
    assert vin[..i + 1][..i] == vin[..i];
  }

  /** MarkAll changes exactly the marks the outpoints name. */
  lemma {:induction false} MarkAllEffect(idx: IndexMap, vin: seq<OutPoint>, pos: DiskTxPos)
    ensures MarkAll(idx, vin, pos).Keys == idx.Keys
    ensures forall h :: h in idx ==>
      && MarkAll(idx, vin, pos)[h].pos == idx[h].pos
      && |MarkAll(idx, vin, pos)[h].vSpent| == |idx[h].vSpent|
    ensures forall h, n :: h in idx && 0 <= n < |idx[h].vSpent| ==>
      MarkAll(idx, vin, pos)[h].vSpent[n] == if OutPoint(h, n) in vin then pos else idx[h].vSpent[n]
  {
    if vin != [] {
      var last := vin[|vin| - 1];
      var rest := vin[..|vin| - 1];
      MarkAllEffect(idx, rest, pos);
      assert vin == rest + [last];
    }
  }

  ghost predicate CanSpend(idx: IndexMap, vin: seq<OutPoint>) {
    Distinct(vin) && forall i :: 0 <= i < |vin| ==> IsUnspent(idx, vin[i])
  }

  /** The check-then-mark loop of ConnectInputs never finds a spent mark exactly when the
      inputs are distinct and all unspent beforehand. */
  lemma {:induction false} MarkLoopSpends(idx: IndexMap, vin: seq<OutPoint>, pos: DiskTxPos)
    requires pos != NullPos
    ensures CanSpend(idx, vin) <==>
      forall i :: 0 <= i < |vin| ==> IsUnspent(MarkAll(idx, vin[..i], pos), vin[i])
  {
    forall i | 0 <= i < |vin|
      ensures IsUnspent(MarkAll(idx, vin[..i], pos), vin[i]) <==> IsUnspent(idx, vin[i]) && vin[i] !in vin[..i]
    {
      MarkAllEffect(idx, vin[..i], pos);
      assert OutPoint(vin[i].hash, vin[i].n) == vin[i];
    }
    if forall i :: 0 <= i < |vin| ==> IsUnspent(MarkAll(idx, vin[..i], pos), vin[i]) {
      forall i, j | 0 <= i < j < |vin| ensures vin[i] != vin[j] {
        assert IsUnspent(MarkAll(idx, vin[..j], pos), vin[j]);
        assert vin[..j][i] == vin[i];
      }
    }
  }

  // -------------------------------------------------------- connecting a transaction

  function ApplyTx(idx: IndexMap, tx: Tx, pos: DiskTxPos): IndexMap {
    (if tx.IsCoinBase() then idx else MarkAll(idx, tx.vin, pos))[tx.hash := FreshIndex(pos, |tx.vout|)]
  }

  ghost predicate CanApplyTx(idx: IndexMap, tx: Tx) {
    && (tx.hash in idx ==> FullySpent(idx[tx.hash]))
    && (!tx.IsCoinBase() ==> CanSpend(idx, tx.vin))
  }

  function ApplyTxs(idx: IndexMap, b: Batch, k: nat): IndexMap
    requires k <= |b.txs| && |b.pos| == |b.txs|
  {
    if k == 0 then idx else ApplyTx(ApplyTxs(idx, b, k - 1), b.txs[k - 1], b.pos[k - 1])
  }

  function Apply(idx: IndexMap, b: Batch): IndexMap
    requires |b.pos| == |b.txs|
  {
    ApplyTxs(idx, b, |b.txs|)
  }

  /** No transaction of the block may overwrite an entry that still has unspent outputs;
      entries are looked up in the index as it was before the block. */
  ghost predicate NoOverwrite(idx: IndexMap, b: Batch) {
    forall i :: 0 <= i < |b.txs| && b.txs[i].hash in idx ==> FullySpent(idx[b.txs[i].hash])
  }

  /** The inputs of the i-th transaction are unspent when its turn comes. */
  ghost predicate CanSpendAt(idx: IndexMap, b: Batch, i: nat)
    requires i < |b.txs| && |b.pos| == |b.txs|
  {
    !b.txs[i].IsCoinBase() ==> CanSpend(ApplyTxs(idx, b, i), b.txs[i].vin)
  }

  ghost predicate CanApplyTxs(idx: IndexMap, b: Batch, k: nat)
    requires k <= |b.txs| && |b.pos| == |b.txs|
  {
    && NoOverwrite(idx, b)
    && forall i :: 0 <= i < k ==> CanSpendAt(idx, b, i)
  }

  ghost predicate CanApply(idx: IndexMap, b: Batch)
    requires |b.pos| == |b.txs|
  {
    CanApplyTxs(idx, b, |b.txs|)
  }

  /** Part-way through a block, an entry about to be overwritten is still fully spent:
      no transaction in between could have spent from it. */
  lemma {:induction false} OwnEntrySpent(idx: IndexMap, b: Batch, k: nat, i: nat)
    requires k <= i < |b.txs| && b.Valid() && CanApplyTxs(idx, b, k)
    ensures b.txs[i].hash in ApplyTxs(idx, b, k) ==> FullySpent(ApplyTxs(idx, b, k)[b.txs[i].hash])
  {
    if k > 0 {
      OwnEntrySpent(idx, b, k - 1, i);
      MarkAllEffect(ApplyTxs(idx, b, k - 1), b.txs[k - 1].vin, b.pos[k - 1]);
    }
  }

  // ----------------------------------------------------- disconnecting a transaction

  /** Unmarking the inputs fails when an entry is missing or too short. */
  ghost predicate CanUnmark(idx: IndexMap, vin: seq<OutPoint>) {
    forall i :: 0 <= i < |vin| ==> vin[i].hash in idx && vin[i].n < |idx[vin[i].hash].vSpent|
  }

  ghost function UndoTx(idx: IndexMap, tx: Tx): Option<IndexMap> {
    if tx.IsCoinBase() then Some(idx - {tx.hash})
    else if CanUnmark(idx, tx.vin) then Some(MarkAll(idx, tx.vin, NullPos) - {tx.hash})
    else None
  }

  /** Last transaction first. */
  ghost function UndoTxs(idx: IndexMap, txs: seq<Tx>): Option<IndexMap>
    decreases |txs|
  {
    if txs == [] then Some(idx)
    else
      match UndoTx(idx, txs[|txs| - 1])
      case None => None
      case Some(before) => UndoTxs(before, txs[..|txs| - 1])
  }

  // ----------------------------------------- an index that lacks only spent entries

  /** `a` is `r` except that entries with no unspent output may be missing. */
  ghost predicate Trims(a: IndexMap, r: IndexMap) {
    && (forall h :: h in a ==> h in r && a[h] == r[h])
    && (forall h :: h in r && h !in a ==> FullySpent(r[h]))
  }

  lemma TrimsSameUnspent(a: IndexMap, r: IndexMap)
    requires Trims(a, r)
    ensures forall op :: IsUnspent(a, op) <==> IsUnspent(r, op)
  {
    forall op ensures IsUnspent(a, op) <==> IsUnspent(r, op) {
      if op.hash in r && op.hash !in a {
        assert FullySpent(r[op.hash]);
      }
    }
  }

  /** A trimmed index accepts what the full one accepts, with the same effect. */
  lemma ApplyTxTrims(a: IndexMap, r: IndexMap, tx: Tx, pos: DiskTxPos)
    requires Trims(a, r) && CanApplyTx(a, tx)
    ensures CanApplyTx(r, tx) && Trims(ApplyTx(a, tx, pos), ApplyTx(r, tx, pos))
  {
    TrimsSameUnspent(a, r);
    if tx.hash in r && tx.hash !in a {
      assert FullySpent(r[tx.hash]);
    }
    if !tx.IsCoinBase() {
      MarkAllEffect(a, tx.vin, pos);
      MarkAllEffect(r, tx.vin, pos);
      var a', r' := MarkAll(a, tx.vin, pos), MarkAll(r, tx.vin, pos);
      forall h | h in a ensures a'[h] == r'[h] {
        assert a'[h].vSpent == r'[h].vSpent;
      }
      forall op | op in tx.vin ensures op.hash in a {
        assert IsUnspent(a, op);
      }
      forall h | h in r && h !in a ensures FullySpent(r'[h]) {
        assert FullySpent(r[h]);
      }
    }
  }

  lemma NoOverwriteTrims(a: IndexMap, r: IndexMap, b: Batch)
    requires Trims(a, r) && NoOverwrite(a, b)
    ensures NoOverwrite(r, b)
  {
    forall i | 0 <= i < |b.txs| && b.txs[i].hash in r ensures FullySpent(r[b.txs[i].hash]) {
      if b.txs[i].hash in a {
        assert FullySpent(a[b.txs[i].hash]);
      }
    }
  }

  lemma CanApplySplit(idx: IndexMap, b: Batch, k: nat)
    requires 0 < k <= |b.txs| && b.Valid()
    ensures CanApplyTxs(idx, b, k) <==>
      CanApplyTxs(idx, b, k - 1) && CanApplyTx(ApplyTxs(idx, b, k - 1), b.txs[k - 1])
  {
    if CanApplyTxs(idx, b, k - 1) {
      OwnEntrySpent(idx, b, k - 1, k - 1);
    }
    assert CanApplyTxs(idx, b, k) ==> CanSpendAt(idx, b, k - 1);
  }

  lemma {:induction false} ApplyTxsTrims(a: IndexMap, r: IndexMap, b: Batch, k: nat)
    requires k <= |b.txs| && b.Valid()
    requires Trims(a, r) && CanApplyTxs(a, b, k)
    ensures CanApplyTxs(r, b, k)
    ensures Trims(ApplyTxs(a, b, k), ApplyTxs(r, b, k))
  {
    if k == 0 {
      NoOverwriteTrims(a, r, b);
    } else {
      CanApplySplit(a, b, k);
      ApplyTxsTrims(a, r, b, k - 1);
      var a0, r0 := ApplyTxs(a, b, k - 1), ApplyTxs(r, b, k - 1);
      assert CanApplyTx(a0, b.txs[k - 1]);
      ApplyTxTrims(a0, r0, b.txs[k - 1], b.pos[k - 1]);
      CanApplySplit(r, b, k);
    }
  }

  // ------------------------------------------------------------- undo after connect

  /** Spent inputs are never the transaction's own, nor a fully spent entry's. */
  lemma InputsAreElsewhere(idx: IndexMap, tx: Tx)
    requires CanApplyTx(idx, tx) && !tx.IsCoinBase()
    ensures forall i :: 0 <= i < |tx.vin| ==> tx.vin[i].hash != tx.hash
  {
    forall i | 0 <= i < |tx.vin| ensures tx.vin[i].hash != tx.hash {
      assert IsUnspent(idx, tx.vin[i]);
    }
  }

  /** Clearing the marks of a transaction gives back the entries it started from, on any
      map that agrees with the marked index away from the transaction's own entry. */
  lemma UnmarkRestores(r: IndexMap, vin: seq<OutPoint>, pos: DiskTxPos, m: IndexMap, own: Hash)
    requires CanSpend(r, vin)
    requires forall op :: op in vin ==> op.hash != own
    requires forall h :: h in m && h != own ==> h in r && h in MarkAll(r, vin, pos) && m[h] == MarkAll(r, vin, pos)[h]
    ensures MarkAll(m, vin, NullPos).Keys == m.Keys
    ensures forall h :: h in m && h != own ==> MarkAll(m, vin, NullPos)[h] == r[h]
  {
    MarkAllEffect(r, vin, pos);
    MarkAllEffect(m, vin, NullPos);
    forall h | h in m && h != own ensures MarkAll(m, vin, NullPos)[h] == r[h] {
      forall n | 0 <= n < |r[h].vSpent| && OutPoint(h, n) in vin ensures r[h].vSpent[n] == NullPos {
        assert IsUnspent(r, OutPoint(h, n));
      }
      assert MarkAll(m, vin, NullPos)[h].vSpent == r[h].vSpent;
    }
  }

  /** If a trimmed index can undo the transaction just applied to `r`, it trims `r`. */
  lemma UndoTxTrims(a: IndexMap, r: IndexMap, tx: Tx, pos: DiskTxPos)
    requires CanApplyTx(r, tx) && pos != NullPos
    requires Trims(a, ApplyTx(r, tx, pos))
    requires UndoTx(a, tx).Some?
    ensures Trims(UndoTx(a, tx).value, r)
  {
    if !tx.IsCoinBase() {
      InputsAreElsewhere(r, tx);
      MarkAllEffect(r, tx.vin, pos);
      UnmarkRestores(r, tx.vin, pos, a, tx.hash);
      forall op | op in tx.vin ensures op.hash in a {
        var i :| 0 <= i < |tx.vin| && tx.vin[i] == op;
      }
      forall h | h in r && h !in a && h != tx.hash ensures FullySpent(r[h]) {
        assert FullySpent(ApplyTx(r, tx, pos)[h]);
        assert forall n :: 0 <= n < |r[h].vSpent| ==> OutPoint(h, n) !in tx.vin;
      }
    }
  }

  lemma SpentCanUnmark(a: IndexMap, tx: Tx, pos: DiskTxPos, gone: set<Hash>)
    requires CanApplyTx(a, tx) && !tx.IsCoinBase()
    requires forall i :: 0 <= i < |tx.vin| ==> tx.vin[i].hash !in gone
    ensures CanUnmark(ApplyTx(a, tx, pos) - gone, tx.vin)
  {
    InputsAreElsewhere(a, tx);
    MarkAllEffect(a, tx.vin, pos);
    var m := ApplyTx(a, tx, pos) - gone;
    forall i | 0 <= i < |tx.vin| ensures tx.vin[i].hash in m && tx.vin[i].n < |m[tx.vin[i].hash].vSpent| {
      assert IsUnspent(a, tx.vin[i]);
    }
  }

  /** Applying a transaction and undoing it removes its own entry and nothing else. */
  lemma UndoTxExact(a: IndexMap, tx: Tx, pos: DiskTxPos, gone: set<Hash>)
    requires CanApplyTx(a, tx) && pos != NullPos
    requires !tx.IsCoinBase() ==> forall i :: 0 <= i < |tx.vin| ==> tx.vin[i].hash !in gone
    ensures UndoTx(ApplyTx(a, tx, pos) - gone, tx) == Some(a - (gone + {tx.hash}))
  {
    var a1 := ApplyTx(a, tx, pos) - gone;
    if tx.IsCoinBase() {
      assert a1 - {tx.hash} == a - (gone + {tx.hash});
    } else {
      InputsAreElsewhere(a, tx);
      MarkAllEffect(a, tx.vin, pos);
      UnmarkRestores(a, tx.vin, pos, a1, tx.hash);
      SpentCanUnmark(a, tx, pos, gone);
      assert MarkAll(a1, tx.vin, NullPos) - {tx.hash} == a - (gone + {tx.hash});
    }
  }

  lemma {:induction false} UndoTxsTrims(a: IndexMap, r: IndexMap, b: Batch, k: nat)
    requires k <= |b.txs| && b.Valid()
    requires CanApplyTxs(r, b, k) && Trims(a, ApplyTxs(r, b, k))
    requires UndoTxs(a, b.txs[..k]).Some?
    ensures Trims(UndoTxs(a, b.txs[..k]).value, r)
    decreases k
  {
    if k > 0 {
      assert b.txs[..k][..k - 1] == b.txs[..k - 1];
      CanApplySplit(r, b, k);
      UndoTxTrims(a, ApplyTxs(r, b, k - 1), b.txs[k - 1], b.pos[k - 1]);
      UndoTxsTrims(UndoTx(a, b.txs[k - 1]).value, r, b, k - 1);
    }
  }

  ghost function HashesFrom(b: Batch, k: nat): set<Hash>
    requires k <= |b.txs|
  {
    set i | k <= i < |b.txs| :: b.txs[i].hash
  }

  lemma {:induction false} UndoTxsExact(idx: IndexMap, b: Batch, k: nat)
    requires k <= |b.txs| && b.Valid() && CanApply(idx, b)
    ensures UndoTxs(ApplyTxs(idx, b, k) - HashesFrom(b, k), b.txs[..k]) == Some(idx - HashesFrom(b, 0))
  {
    if k > 0 {
      assert b.txs[..k][..k - 1] == b.txs[..k - 1];
      var m, tx := ApplyTxs(idx, b, k - 1), b.txs[k - 1];
      OwnEntrySpent(idx, b, k - 1, k - 1);
      assert CanSpendAt(idx, b, k - 1);
      if !tx.IsCoinBase() {
        forall i | 0 <= i < |tx.vin| ensures tx.vin[i].hash !in HashesFrom(b, k) {
          assert IsUnspent(m, tx.vin[i]);
          if j :| k <= j < |b.txs| && b.txs[j].hash == tx.vin[i].hash {
            OwnEntrySpent(idx, b, k - 1, j);
          }
        }
      }
      UndoTxExact(m, tx, b.pos[k - 1], HashesFrom(b, k));
      assert HashesFrom(b, k - 1) == HashesFrom(b, k) + {tx.hash};
      UndoTxsExact(idx, b, k - 1);
    }
  }

  /** Disconnecting a block right after connecting it succeeds, restores exactly the
      unspent outputs, and restores the whole index if and only if the index had no entry
      for any of the block's transactions. */
  lemma ConnectThenDisconnect(idx: IndexMap, b: Batch)
    requires b.Valid() && CanApply(idx, b)
    ensures UndoTxs(Apply(idx, b), b.txs).Some?
    ensures forall op :: IsUnspent(UndoTxs(Apply(idx, b), b.txs).value, op) <==> IsUnspent(idx, op)
    ensures UndoTxs(Apply(idx, b), b.txs).value == idx <==> forall i :: 0 <= i < |b.txs| ==> b.txs[i].hash !in idx
  {
    var n := |b.txs|;
    assert HashesFrom(b, n) == {} && b.txs[..n] == b.txs;
    assert Apply(idx, b) - {} == Apply(idx, b);
    UndoTxsExact(idx, b, n);
    var u := idx - HashesFrom(b, 0);
    forall op ensures IsUnspent(u, op) <==> IsUnspent(idx, op) {
      if op.hash in idx && op.hash in HashesFrom(b, 0) {
        assert FullySpent(idx[op.hash]);
      }
    }
    if u == idx {
      forall i | 0 <= i < n ensures b.txs[i].hash !in idx {
        assert b.txs[i].hash in HashesFrom(b, 0);
      }
    }
  }
}
