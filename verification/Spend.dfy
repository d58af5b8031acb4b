/** GetValueIn, ConnectInputs and DisconnectInputs of src/main.cpp. */
module Spend {
  import opened Wrappers
  import opened Transactions
  import opened Ledger
  import opened Blocks
  import opened TxDatabase
  import opened Inputs

  /** Value of the output an input names; callers have checked that it is in range. */
  function PrevValue(inputs: PrevTxs, op: OutPoint): int {
    if InRange(inputs, op) then inputs[op.hash].1.vout[op.n].value else 0
  }

  function SumIn(inputs: PrevTxs, vin: seq<OutPoint>): int {
    if vin == [] then 0 else SumIn(inputs, vin[..|vin| - 1]) + PrevValue(inputs, vin[|vin| - 1])
  }

  /** The post-mine test: one input, one previous transaction, and it is the post-mine one. */
  predicate Postmine(inputs: PrevTxs, tx: Tx, bestHeight: int) {
    bestHeight >= POSTMINE_BLOCK && HASH_POSTMINE in inputs && |tx.vin| == 1 && |inputs| == 1
  }

  /** GetValueIn. */
  function ValueIn(inputs: PrevTxs, tx: Tx, observePostmine: bool, bestHeight: int): int {
    if tx.IsCoinBase() then 0
    else if observePostmine && Postmine(inputs, tx, bestHeight) then POSTMINE_VALUE + PrevValue(inputs, tx.vin[0])
    else SumIn(inputs, tx.vin)
  }

  method GetValueIn(inputs: PrevTxs, tx: Tx, observePostmine: bool, bestHeight: int) returns (result: int)
    ensures result == ValueIn(inputs, tx, observePostmine, bestHeight)
  {
    if tx.IsCoinBase() {
      return 0;
    }
    result := 0;
    if observePostmine && bestHeight >= POSTMINE_BLOCK && HASH_POSTMINE in inputs && |tx.vin| == 1 && |inputs| == 1 {
      result := POSTMINE_VALUE + PrevValue(inputs, tx.vin[0]);
    } else {
      var i := 0;
      while i < |tx.vin|
        invariant 0 <= i <= |tx.vin|
        invariant result == SumIn(inputs, tx.vin[..i])
      {
        assert tx.vin[..i + 1][..i] == tx.vin[..i];
        result := result + PrevValue(inputs, tx.vin[i]);
        i := i + 1;
      }
      assert tx.vin[..i] == tx.vin;
    }
  }

  // ------------------------------------------------------------------- ConnectInputs

  /** The running total of ConnectInputs: an output of the post-mine transaction replaces
      what was added before it. */
  function RunningIn(inputs: PrevTxs, vin: seq<OutPoint>): int {
    if vin == [] then 0
    else
      var op := vin[|vin| - 1];
      PrevValue(inputs, op) + if op.hash == HASH_POSTMINE then POSTMINE_VALUE else RunningIn(inputs, vin[..|vin| - 1])
  }

  /** The block at `pos` is one of the last COINBASE_MATURITY blocks ending in `b`. */
  predicate Recent(b: CBlockIndex?, top: int, pos: DiskTxPos)
    requires b != null ==> Linked(b)
    decreases if b == null then 0 else b.nHeight + 1
  {
    b != null && top - b.nHeight < COINBASE_MATURITY
    && ((pos.Pos? && b.nBlockPos == pos.blockPos && b.nFile == pos.file) || Recent(b.pprev, top, pos))
  }

  /** The i-th input passes the inexpensive checks, given that it and those before it are
      in range. */
  ghost predicate InputOk(inputs: PrevTxs, tx: Tx, i: nat, b: CBlockIndex)
    requires i < |tx.vin| && Linked(b)
  {
    var op, upTo := tx.vin[i], tx.vin[..i + 1];
    AllInRange(inputs, upTo) && InRange(inputs, op) &&
    var prev := inputs[op.hash].1;
    && (prev.IsCoinBase() || prev.IsCoinStake() ==> !Recent(b, b.nHeight, inputs[op.hash].0.pos))
    && prev.time <= tx.time
    && MoneyRange(PrevValue(inputs, op))
    && MoneyRange(RunningIn(inputs, upTo))
  }

  ghost predicate InputsOk(inputs: PrevTxs, tx: Tx, b: CBlockIndex)
    requires Linked(b)
  {
    AllInRange(inputs, tx.vin) && forall i :: 0 <= i < |tx.vin| ==> InputOk(inputs, tx, i, b)
  }

  predicate SkipSignatures(o: Oracle, mode: Mode, bestHeight: int) {
    mode.ForBlock? && bestHeight < o.totalBlocksEstimate
  }

  ghost predicate Signed(o: Oracle, inputs: PrevTxs, tx: Tx, mode: Mode, bestHeight: int)
    requires AllInRange(inputs, tx.vin)
  {
    !SkipSignatures(o, mode, bestHeight) ==>
      forall i :: 0 <= i < |tx.vin| ==> InRange(inputs, tx.vin[i]) && o.verifySignature(inputs[tx.vin[i].hash].1, tx, i)
  }

  /** Signatures are left out for blocks far down only; the pool and the template check them. */
  lemma SignaturesChecked(o: Oracle, inputs: PrevTxs, tx: Tx, b: CBlockIndex, mode: Mode, bestHeight: int, i: nat)
    requires Linked(b) && InputsAccepted(o, inputs, tx, b, mode, bestHeight) && i < |tx.vin|
    ensures mode != ForBlock || bestHeight >= o.totalBlocksEstimate ==>
      tx.vin[i].hash in inputs && o.verifySignature(inputs[tx.vin[i].hash].1, tx, i)
  {
    assert InputOk(inputs, tx, i, b);
  }

  function Entries(inputs: PrevTxs): IndexMap {
    map h | h in inputs :: inputs[h].0
  }

  /** When ConnectInputs accepts a transaction that is not a coinbase. */
  ghost predicate InputsAccepted(o: Oracle, inputs: PrevTxs, tx: Tx, b: CBlockIndex, mode: Mode, bestHeight: int)
    requires Linked(b)
  {
    && InputsOk(inputs, tx, b)
    && CanSpend(Entries(inputs), tx.vin)
    && Signed(o, inputs, tx, mode, bestHeight)
    && (!tx.IsCoinStake() ==>
          var fee := RunningIn(inputs, tx.vin) - tx.ValueOut();
          fee >= MIN_TX_FEE && MoneyRange(fee))
  }

  method CheckMaturity(b: CBlockIndex, pos: DiskTxPos) returns (recent: bool)
    requires Linked(b)
    ensures recent == Recent(b, b.nHeight, pos)
  {
    var p: CBlockIndex? := b;
    while p != null && b.nHeight - p.nHeight < COINBASE_MATURITY
      invariant p != null ==> Linked(p)
      invariant Recent(p, b.nHeight, pos) == Recent(b, b.nHeight, pos)
      decreases if p == null then 0 else p.nHeight + 1
    {
      if pos.Pos? && p.nBlockPos == pos.blockPos && p.nFile == pos.file {
        return true;
      }
      p := p.pprev;
    }
    recent := false;
  }

  /** One round of the first loop of ConnectInputs. */
  method CheckInput(inputs: PrevTxs, tx: Tx, i: nat, before: int, b: CBlockIndex) returns (ok: bool, valueIn: int)
    requires Linked(b) && i < |tx.vin| && tx.vin[i].hash in inputs
    requires AllInRange(inputs, tx.vin[..i]) && before == RunningIn(inputs, tx.vin[..i])
    ensures ok <==> InputOk(inputs, tx, i, b)
    ensures ok ==> valueIn == RunningIn(inputs, tx.vin[..i + 1])
  {
    var op := tx.vin[i];
    ghost var upTo := tx.vin[..i + 1];
    assert upTo[i] == op && upTo[..i] == tx.vin[..i];
    ok, valueIn := false, before;
    var entry, prev := inputs[op.hash].0, inputs[op.hash].1;
    if op.n >= |prev.vout| || op.n >= |entry.vSpent| {
      return;
    }
    assert AllInRange(inputs, upTo) by {
      forall j | 0 <= j < |upTo| ensures InRange(inputs, upTo[j]) {
        if j < i { assert upTo[j] == tx.vin[..i][j]; }
      }
    }
    if prev.IsCoinBase() || prev.IsCoinStake() {
      var recent := CheckMaturity(b, entry.pos);
      if recent {
        return;
      }
    }
    if prev.time > tx.time {
      return;
    }
    if op.hash == HASH_POSTMINE {
      valueIn := POSTMINE_VALUE + prev.vout[op.n].value;
    } else {
      valueIn := valueIn + prev.vout[op.n].value;
    }
    if !MoneyRange(prev.vout[op.n].value) || !MoneyRange(valueIn) {
      return;
    }
    ok := true;
  }

  /** The first loop of ConnectInputs: the inexpensive checks and the value total. */
  method CheckInputs(inputs: PrevTxs, tx: Tx, b: CBlockIndex) returns (ok: bool, valueIn: int)
    requires Linked(b) && forall i :: 0 <= i < |tx.vin| ==> tx.vin[i].hash in inputs
    ensures ok <==> InputsOk(inputs, tx, b)
    ensures ok ==> valueIn == RunningIn(inputs, tx.vin)
  {
    valueIn := 0;
    var i := 0;
    while i < |tx.vin|
      invariant 0 <= i <= |tx.vin| && AllInRange(inputs, tx.vin[..i])
      invariant forall j :: 0 <= j < i ==> InputOk(inputs, tx, j, b)
      invariant valueIn == RunningIn(inputs, tx.vin[..i])
    {
      ok, valueIn := CheckInput(inputs, tx, i, valueIn, b);
      if !ok {
        return;
      }
      i := i + 1;
    }
    assert tx.vin[..i] == tx.vin;
    ok := true;
  }

  /** The entries of the hashes `hs`. */
  ghost function Pick(m: IndexMap, hs: set<Hash>): IndexMap {
    map h | h in hs && h in m :: m[h]
  }

  lemma PickStep(queue: IndexMap, m: IndexMap, vin: seq<OutPoint>, i: nat, pos: DiskTxPos)
    requires i < |vin| && vin[i].hash in m && Hashes(vin[..i]) <= m.Keys
    ensures Hashes(vin[..i + 1]) == Hashes(vin[..i]) + {vin[i].hash}
    ensures Mark(m, vin[i], pos).Keys == m.Keys
    ensures (queue + Pick(m, Hashes(vin[..i])))[vin[i].hash := Mark(m, vin[i], pos)[vin[i].hash]] ==
            queue + Pick(Mark(m, vin[i], pos), Hashes(vin[..i + 1]))
  {
    assert vin[..i + 1] == vin[..i] + [vin[i]];
  }

  /** The check of the second loop at the i-th input. */
  ghost predicate Spends(o: Oracle, inputs: PrevTxs, tx: Tx, pos: DiskTxPos, skip: bool, i: nat)
    requires i < |tx.vin|
  {
    && InRange(inputs, tx.vin[i])
    && IsUnspent(MarkAll(Entries(inputs), tx.vin[..i], pos), tx.vin[i])
    && (!skip ==> o.verifySignature(inputs[tx.vin[i].hash].1, tx, i))
  }

  lemma SpendsAll(o: Oracle, inputs: PrevTxs, tx: Tx, pos: DiskTxPos, mode: Mode, bestHeight: int)
    requires AllInRange(inputs, tx.vin) && pos != NullPos
    ensures (forall i :: 0 <= i < |tx.vin| ==> Spends(o, inputs, tx, pos, SkipSignatures(o, mode, bestHeight), i)) <==>
            CanSpend(Entries(inputs), tx.vin) && Signed(o, inputs, tx, mode, bestHeight)
  {
    var e, vin, skip := Entries(inputs), tx.vin, SkipSignatures(o, mode, bestHeight);
    MarkLoopSpends(e, vin, pos);
    forall i | 0 <= i < |vin|
      ensures Spends(o, inputs, tx, pos, skip, i) <==>
        IsUnspent(MarkAll(e, vin[..i], pos), vin[i]) && (!skip ==> o.verifySignature(inputs[vin[i].hash].1, tx, i))
    {
      assert InRange(inputs, vin[i]);
    }
  }

  /** The queued changes once the inputs `vin` are spent. */
  ghost function QueueWith(queue: IndexMap, inputs: PrevTxs, vin: seq<OutPoint>, pos: DiskTxPos, mode: Mode): IndexMap {
    if mode.ForPool? then queue else queue + Pick(MarkAll(Entries(inputs), vin, pos), Hashes(vin))
  }

  /** One round of the second loop of ConnectInputs: double spend, signature, mark. */
  method SpendInput(o: Oracle, inputs: PrevTxs, tx: Tx, i: nat, entries: IndexMap, ghost before: IndexMap,
                    queue: IndexMap, pos: DiskTxPos, mode: Mode, skip: bool)
    returns (ok: bool, newEntries: IndexMap, newQueue: IndexMap)
    requires i < |tx.vin| && AllInRange(inputs, tx.vin)
    requires entries == MarkAll(Entries(inputs), tx.vin[..i], pos)
    requires queue == QueueWith(before, inputs, tx.vin[..i], pos, mode)
    ensures ok <==> Spends(o, inputs, tx, pos, skip, i)
    ensures newEntries == MarkAll(Entries(inputs), tx.vin[..i + 1], pos)
    ensures ok ==> newQueue == QueueWith(before, inputs, tx.vin[..i + 1], pos, mode)
  {
    var op := tx.vin[i];
    assert InRange(inputs, op);
    MarkAllEffect(Entries(inputs), tx.vin[..i], pos);
    MarkAllStep(Entries(inputs), tx.vin, i, pos);
    assert Hashes(tx.vin[..i]) <= entries.Keys by {
      assert forall p :: p in tx.vin[..i] ==> p in tx.vin;
    }
    PickStep(before, entries, tx.vin, i, pos);
    newEntries, newQueue := Mark(entries, op, pos), queue;
    if entries[op.hash].vSpent[op.n] != NullPos {
      return false, newEntries, newQueue;
    }
    if !skip && !o.verifySignature(inputs[op.hash].1, tx, i) {
      return false, newEntries, newQueue;
    }
    if !mode.ForPool? {
      newQueue := newQueue[op.hash := newEntries[op.hash]];
    }
    ok := true;
  }

  method SpendInputs(o: Oracle, inputs: PrevTxs, tx: Tx, queue: IndexMap, pos: DiskTxPos, mode: Mode, skip: bool)
    returns (ok: bool, newQueue: IndexMap)
    requires AllInRange(inputs, tx.vin)
    ensures ok <==> forall i :: 0 <= i < |tx.vin| ==> Spends(o, inputs, tx, pos, skip, i)
    ensures ok ==> newQueue == QueueWith(queue, inputs, tx.vin, pos, mode)
  {
    var entries := Entries(inputs);
    newQueue := queue;
    var i := 0;
    while i < |tx.vin|
      invariant 0 <= i <= |tx.vin|
      invariant entries == MarkAll(Entries(inputs), tx.vin[..i], pos)
      invariant forall j :: 0 <= j < i ==> Spends(o, inputs, tx, pos, skip, j)
      invariant newQueue == QueueWith(queue, inputs, tx.vin[..i], pos, mode)
    {
      ok, entries, newQueue := SpendInput(o, inputs, tx, i, entries, queue, newQueue, pos, mode, skip);
      if !ok {
        return;
      }
      i := i + 1;
    }
    assert tx.vin[..i] == tx.vin;
    ok := true;
  }

  lemma {:induction false} MarkAllLocal(part: IndexMap, whole: IndexMap, vin: seq<OutPoint>, pos: DiskTxPos, h: Hash)
    requires h in part && h in whole && part[h] == whole[h]
    ensures h in MarkAll(part, vin, pos) && h in MarkAll(whole, vin, pos)
    ensures MarkAll(part, vin, pos)[h] == MarkAll(whole, vin, pos)[h]
    ensures h !in Hashes(vin) ==> MarkAll(whole, vin, pos)[h] == whole[h]
  {
    if vin != [] {
      assert vin == vin[..|vin| - 1] + [vin[|vin| - 1]];
      MarkAllLocal(part, whole, vin[..|vin| - 1], pos, h);
    }
  }

  /** After the inputs are spent in the queue, the queue over the database shows the
      marked index. */
  lemma QueueShowsMarks(db: IndexMap, queue: IndexMap, inputs: PrevTxs, vin: seq<OutPoint>, pos: DiskTxPos)
    requires forall h :: h in inputs ==> h in db + queue && inputs[h].0 == (db + queue)[h]
    requires inputs.Keys == Hashes(vin)
    ensures db + (queue + Pick(MarkAll(Entries(inputs), vin, pos), Hashes(vin))) == MarkAll(db + queue, vin, pos)
    ensures CanSpend(Entries(inputs), vin) <==> CanSpend(db + queue, vin)
  {
    QueueShowsUnspent(db, queue, inputs, vin);
    hide CanSpend, MarkAll;
    var view, e := db + queue, Entries(inputs);
    var m, rhs := MarkAll(e, vin, pos), MarkAll(view, vin, pos);
    assert m.Keys == e.Keys && rhs.Keys == view.Keys by {
      MarkAllEffect(e, vin, pos);
      MarkAllEffect(view, vin, pos);
    }
    forall h | h in view ensures rhs[h] == if h in m then m[h] else view[h] {
      MarkAllLocal(view, view, vin, pos, h);
      if h in e {
        MarkAllLocal(e, view, vin, pos, h);
      }
    }
    Overlaid(db, queue, m, rhs);
    assert Pick(m, Hashes(vin)) == m;
  }

  lemma Overlaid(db: IndexMap, queue: IndexMap, m: IndexMap, all: IndexMap)
    requires all.Keys == (db + queue).Keys && m.Keys <= all.Keys
    requires forall h :: h in all ==> all[h] == if h in m then m[h] else (db + queue)[h]
    ensures db + (queue + m) == all
  {
    assert (db + (queue + m)).Keys == all.Keys;
  }

  lemma QueueShowsUnspent(db: IndexMap, queue: IndexMap, inputs: PrevTxs, vin: seq<OutPoint>)
    requires forall h :: h in inputs ==> h in db + queue && inputs[h].0 == (db + queue)[h]
    requires inputs.Keys == Hashes(vin)
    ensures CanSpend(Entries(inputs), vin) <==> CanSpend(db + queue, vin)
  {
    forall i | 0 <= i < |vin| ensures IsUnspent(Entries(inputs), vin[i]) <==> IsUnspent(db + queue, vin[i]) {
      assert vin[i].hash in Hashes(vin);
    }
  }

  method ConnectInputs(o: Oracle, inputs: PrevTxs, tx: Tx, queue: IndexMap, pos: DiskTxPos, b: CBlockIndex,
                       mode: Mode, bestHeight: int)
    returns (ok: bool, newQueue: IndexMap)
    requires Linked(b) && pos != NullPos
    requires !tx.IsCoinBase() ==> forall i :: 0 <= i < |tx.vin| ==> tx.vin[i].hash in inputs
    ensures ok <==> tx.IsCoinBase() || InputsAccepted(o, inputs, tx, b, mode, bestHeight)
    ensures ok ==> newQueue == if tx.IsCoinBase() then queue else QueueWith(queue, inputs, tx.vin, pos, mode)
  {
    newQueue := queue;
    if tx.IsCoinBase() {
      return true, newQueue;
    }
    var valueIn;
    ok, valueIn := CheckInputs(inputs, tx, b);
    if !ok {
      return;
    }
    SpendsAll(o, inputs, tx, pos, mode, bestHeight);
    ok, newQueue := SpendInputs(o, inputs, tx, queue, pos, mode, SkipSignatures(o, mode, bestHeight));
    if !ok {
      return;
    }
    if !tx.IsCoinStake() {
      if valueIn < tx.ValueOut() {
        return false, newQueue;
      }
      var txFee := valueIn - tx.ValueOut();
      if txFee < MIN_TX_FEE {
        return false, newQueue;
      }
      if !MoneyRange(txFee) {
        return false, newQueue;
      }
    }
  }

  // ---------------------------------------------------------------- DisconnectInputs

  /** One round of DisconnectInputs. */
  method DisconnectInput(txdb: CTxDB, op: OutPoint) returns (ok: bool)
    modifies txdb
    ensures ok <==> op.hash in old(txdb.View()) && op.n < |old(txdb.View())[op.hash].vSpent|
    ensures txdb.View() == if ok then Mark(old(txdb.View()), op, NullPos) else old(txdb.View())
    ensures txdb.StaysInTxn()
  {
    var read := txdb.ReadTxIndex(op.hash);
    if read == None {
      return false;
    }
    var entry := read.value;
    if op.n >= |entry.vSpent| {
      return false;
    }
    txdb.UpdateTxIndex(op.hash, entry.(vSpent := entry.vSpent[op.n := NullPos]));
    ok := true;
  }

  method DisconnectInputs(txdb: CTxDB, tx: Tx) returns (ok: bool)
    modifies txdb
    ensures ok == UndoTx(old(txdb.View()), tx).Some?
    ensures ok ==> txdb.View() == UndoTx(old(txdb.View()), tx).value
    ensures txdb.StaysInTxn()
  {
    if !tx.IsCoinBase() {
      ok := UnmarkInputs(txdb, tx.vin);
      if !ok {
        return;
      }
    }
    txdb.EraseTxIndex(tx.hash);
    ok := true;
  }

  lemma NothingUnmarked(idx: IndexMap, vin: seq<OutPoint>)
    ensures CanUnmark(idx, vin[..0]) && MarkAll(idx, vin[..0], NullPos) == idx
  {
  }

  lemma UnmarkStep(idx: IndexMap, vin: seq<OutPoint>, i: nat)
    requires i < |vin| && CanUnmark(idx, vin[..i])
    ensures var m, op := MarkAll(idx, vin[..i], NullPos), vin[i];
      && MarkAll(idx, vin[..i + 1], NullPos) == Mark(m, op, NullPos)
      && (if op.hash in m && op.n < |m[op.hash].vSpent| then CanUnmark(idx, vin[..i + 1]) else !CanUnmark(idx, vin))
  {
    MarkAllStep(idx, vin, i, NullPos);
    MarkAllEffect(idx, vin[..i], NullPos);
  }

  /** The loop of DisconnectInputs. */
  method UnmarkInputs(txdb: CTxDB, vin: seq<OutPoint>) returns (ok: bool)
    modifies txdb
    ensures ok == CanUnmark(old(txdb.View()), vin)
    ensures ok ==> txdb.View() == MarkAll(old(txdb.View()), vin, NullPos)
    ensures txdb.StaysInTxn()
  {
    hide MarkAll, Mark, CanUnmark;
    ghost var start := txdb.View();
    NothingUnmarked(start, vin);
    var i := 0;
    while i < |vin|
      invariant 0 <= i <= |vin| && CanUnmark(start, vin[..i])
      invariant txdb.View() == MarkAll(start, vin[..i], NullPos)
      invariant txdb.StaysInTxn()
    {
      UnmarkStep(start, vin, i);
      ok := DisconnectInput(txdb, vin[i]);
      if !ok {
        return;
      }
      i := i + 1;
    }
    assert vin[..i] == vin;
    ok := true;
  }
}
