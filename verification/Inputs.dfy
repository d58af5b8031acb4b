/**
 Fetching, checking and spending the inputs of a transaction: FetchInputs, GetValueIn,
 ConnectInputs and DisconnectInputs of src/main.cpp.
 */
module Inputs {
  import opened Wrappers
  import opened Transactions
  import opened Blocks
  import opened TxDatabase

  /** Who is asking: the flags fBlock and fMiner of the source, never both set. */
  datatype Mode = ForBlock | ForMiner | ForPool

  type PrevTxs = map<Hash, (TxIndex, Tx)>

  type Pool = map<Hash, Tx>

  /** The entry and the transaction an input's hash stands for. */
  function FetchOne(o: Oracle, pool: Pool, db: IndexMap, queue: IndexMap, mode: Mode, h: Hash): Option<(TxIndex, Tx)> {
    var entry := if !mode.ForPool? && h in queue then Some(queue[h]) else if h in db then Some(db[h]) else None;
    match entry
    case None =>
      if !mode.ForPool? || h !in pool then None
      else Some((FreshIndex(NullPos, |pool[h].vout|), pool[h]))
    case Some(e) =>
      if e.pos == MEMPOOL_POS then
        if h in pool then Some((e, pool[h])) else None
      else
        match o.disk(e.pos)
        case None => None
        case Some(tx) => Some((e, tx))
  }

  ghost predicate CanFetch(o: Oracle, pool: Pool, db: IndexMap, queue: IndexMap, mode: Mode, vin: seq<OutPoint>) {
    forall i :: 0 <= i < |vin| ==> FetchOne(o, pool, db, queue, mode, vin[i].hash).Some?
  }

  function Hashes(vin: seq<OutPoint>): set<Hash> {
    set op | op in vin :: op.hash
  }

  /** What FetchInputs collects: one pair for each hash the inputs name. */
  ghost function Fetched(o: Oracle, pool: Pool, db: IndexMap, queue: IndexMap, mode: Mode, vin: seq<OutPoint>): PrevTxs
    requires CanFetch(o, pool, db, queue, mode, vin)
  {
    map h | h in Hashes(vin) :: FetchOne(o, pool, db, queue, mode, h).value
  }

  predicate InRange(inputs: PrevTxs, op: OutPoint) {
    op.hash in inputs && op.n < |inputs[op.hash].1.vout| && op.n < |inputs[op.hash].0.vSpent|
  }

  predicate AllInRange(inputs: PrevTxs, vin: seq<OutPoint>) {
    forall i :: 0 <= i < |vin| ==> InRange(inputs, vin[i])
  }

  /** One round of the first loop of FetchInputs. */
  method FetchInput(o: Oracle, pool: Pool, txdb: CTxDB, queue: IndexMap, mode: Mode, h: Hash)
    returns (r: Option<(TxIndex, Tx)>)
    ensures r == FetchOne(o, pool, txdb.View(), queue, mode, h)
  {
    var found := true;
    var entry;
    if !mode.ForPool? && h in queue {
      entry := queue[h];
    } else {
      var read := txdb.ReadTxIndex(h);
      found := read.Some?;
      entry := if found then read.value else TxIndex(NullPos, []);
    }
    if !found && !mode.ForPool? {
      return None;
    }
    if !found || entry.pos == MEMPOOL_POS {
      if h !in pool {
        return None;
      }
      if !found {
        entry := FreshIndex(NullPos, |pool[h].vout|);
      }
      return Some((entry, pool[h]));
    }
    var txPrev := o.disk(entry.pos);
    r := if txPrev == None then None else Some((entry, txPrev.value));
  }

  /** The second loop of FetchInputs. */
  method CheckRanges(inputs: PrevTxs, vin: seq<OutPoint>) returns (ok: bool)
    requires forall i :: 0 <= i < |vin| ==> vin[i].hash in inputs
    ensures ok == AllInRange(inputs, vin)
  {
    var i := 0;
    while i < |vin|
      invariant 0 <= i <= |vin|
      invariant forall j :: 0 <= j < i ==> InRange(inputs, vin[j])
    {
      if vin[i].n >= |inputs[vin[i].hash].1.vout| || vin[i].n >= |inputs[vin[i].hash].0.vSpent| {
        return false;
      }
      i := i + 1;
    }
    ok := true;
  }

  lemma NothingFetched(o: Oracle, pool: Pool, db: IndexMap, queue: IndexMap, mode: Mode, vin: seq<OutPoint>)
    ensures CanFetch(o, pool, db, queue, mode, vin[..0]) && Fetched(o, pool, db, queue, mode, vin[..0]) == map[]
  {
  }

  lemma FetchedStep(o: Oracle, pool: Pool, db: IndexMap, queue: IndexMap, mode: Mode, vin: seq<OutPoint>, i: nat)
    requires i < |vin| && CanFetch(o, pool, db, queue, mode, vin[..i])
    ensures var h, found := vin[i].hash, Fetched(o, pool, db, queue, mode, vin[..i]);
      if h in found then
        CanFetch(o, pool, db, queue, mode, vin[..i + 1]) && Fetched(o, pool, db, queue, mode, vin[..i + 1]) == found
      else match FetchOne(o, pool, db, queue, mode, h)
        case None => !CanFetch(o, pool, db, queue, mode, vin)
        case Some(p) =>
          CanFetch(o, pool, db, queue, mode, vin[..i + 1]) &&
            Fetched(o, pool, db, queue, mode, vin[..i + 1]) == found[h := p]
  {
    hide FetchOne;
    assert vin[..i + 1] == vin[..i] + [vin[i]];
    assert Hashes(vin[..i + 1]) == Hashes(vin[..i]) + {vin[i].hash};
  }

  /** The first loop of FetchInputs. */
  method FetchEntries(o: Oracle, pool: Pool, txdb: CTxDB, queue: IndexMap, mode: Mode, vin: seq<OutPoint>)
    returns (ok: bool, inputs: PrevTxs)
    ensures ok == CanFetch(o, pool, txdb.View(), queue, mode, vin)
    ensures ok ==> inputs == Fetched(o, pool, txdb.View(), queue, mode, vin)
  {
    hide CanFetch, Fetched, FetchOne;
    inputs := map[];
    NothingFetched(o, pool, txdb.View(), queue, mode, vin);
    var i := 0;
    while i < |vin|
      invariant 0 <= i <= |vin|
      invariant CanFetch(o, pool, txdb.View(), queue, mode, vin[..i])
      invariant inputs == Fetched(o, pool, txdb.View(), queue, mode, vin[..i])
    {
      FetchedStep(o, pool, txdb.View(), queue, mode, vin, i);
      if vin[i].hash !in inputs {
        var r := FetchInput(o, pool, txdb, queue, mode, vin[i].hash);
        if r == None {
          return false, inputs;
        }
        inputs := inputs[vin[i].hash := r.value];
      }
      i := i + 1;
    }
    assert vin[..i] == vin;
    ok := true;
  }

  method FetchInputs(o: Oracle, pool: Pool, txdb: CTxDB, queue: IndexMap, mode: Mode, tx: Tx)
    returns (ok: bool, inputs: PrevTxs, invalid: bool)
    ensures tx.IsCoinBase() ==> ok && inputs == map[] && !invalid
    ensures !tx.IsCoinBase() ==>
      && (CanFetch(o, pool, txdb.View(), queue, mode, tx.vin) ==>
            && inputs == Fetched(o, pool, txdb.View(), queue, mode, tx.vin)
            && ok == AllInRange(inputs, tx.vin) && invalid == !ok)
      && (!CanFetch(o, pool, txdb.View(), queue, mode, tx.vin) ==> !ok && !invalid)
  {
    ok, inputs, invalid := true, map[], false;
    if !tx.IsCoinBase() {
      ok, inputs := FetchEntries(o, pool, txdb, queue, mode, tx.vin);
      if ok {
        assert forall i :: 0 <= i < |tx.vin| ==> tx.vin[i] in tx.vin;
        ok := CheckRanges(inputs, tx.vin);
        invalid := !ok;
      }
    }
  }
}
