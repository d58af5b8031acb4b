/**
 The transaction database (src/txdb-leveldb.h, src/txdb-leveldb.cpp): a committed
 store and, inside a transaction, a batch of puts and deletes that reads consult first.
 */
module TxDatabase {
  import opened Wrappers
  import opened Transactions

  datatype Write = Put(hash: Hash, entry: TxIndex) | Delete(hash: Hash)

  function ApplyWrite(m: IndexMap, w: Write): IndexMap {
    match w
    case Put(h, e) => m[h := e]
    case Delete(h) => m - {h}
  }

  function ApplyBatch(m: IndexMap, batch: seq<Write>): IndexMap {
    if batch == [] then m
    else ApplyWrite(ApplyBatch(m, batch[..|batch| - 1]), batch[|batch| - 1])
  }

  datatype Scan = NotFound | Deleted | Found(entry: TxIndex)

  class CTxDB {
    var committed: IndexMap
    var committedBest: Hash
    var active: bool
    var batch: seq<Write>
    var batchBest: Option<Hash>

    constructor ()
      ensures committed == map[] && !active && committedBest == 0
      ensures View() == map[]
    {
      committed, committedBest, active, batch, batchBest := map[], 0, false, [], None;
    }

    /** What reads see: the committed store with the active batch applied. */
    ghost function View(): IndexMap
      reads this
    {
      if active then ApplyBatch(committed, batch) else committed
    }

    ghost function BestView(): Hash
      reads this
    {
      if active && batchBest.Some? then batchBest.value else committedBest
    }

    /** A write stays inside the transaction: the committed store does not change while
        one is active, and the best chain is not touched. */
    twostate predicate StaysInTxn()
      reads this
    {
      && active == old(active) && BestView() == old(BestView())
      && (active ==> committed == old(committed) && committedBest == old(committedBest))
    }

    method TxnBegin()
      requires !active
      modifies this
      ensures active && committed == old(committed) && committedBest == old(committedBest)
      ensures View() == old(View()) && BestView() == old(BestView())
    {
      active, batch, batchBest := true, [], None;
    }

    method TxnCommit()
      requires active
      modifies this
      ensures !active && committed == old(View()) == View()
      ensures committedBest == old(BestView()) == BestView()
    {
      // the store applies the batch in order
      var i := 0;
      ghost var start := committed;
      while i < |batch|
        invariant 0 <= i <= |batch| && batch == old(batch) && active
        invariant batchBest == old(batchBest) && committedBest == old(committedBest)
        invariant committed == ApplyBatch(start, batch[..i])
      {
        assert batch[..i + 1][..i] == batch[..i];
        committed := ApplyWrite(committed, batch[i]);
        i := i + 1;
      }
      assert batch[..i] == batch;
      if batchBest.Some? {
        committedBest := batchBest.value;
      }
      active, batch, batchBest := false, [], None;
    }

    method TxnAbort()
      modifies this
      ensures !active && committed == old(committed) == View()
      ensures committedBest == old(committedBest) == BestView()
    {
      active, batch, batchBest := false, [], None;
    }

    /** Runs over the whole batch, as the batch handler does: the last write wins. */
    method ScanBatch(hash: Hash) returns (r: Scan)
      ensures r.Found? ==> hash in ApplyBatch(committed, batch) && r.entry == ApplyBatch(committed, batch)[hash]
      ensures r.Deleted? ==> hash !in ApplyBatch(committed, batch)
      ensures r.NotFound? ==>
        (hash in committed <==> hash in ApplyBatch(committed, batch))
        && (hash in committed ==> committed[hash] == ApplyBatch(committed, batch)[hash])
    {
      r := NotFound;
      var i := 0;
      while i < |batch|
        invariant 0 <= i <= |batch|
        invariant r.Found? ==>
          hash in ApplyBatch(committed, batch[..i]) && r.entry == ApplyBatch(committed, batch[..i])[hash]
        invariant r.Deleted? ==> hash !in ApplyBatch(committed, batch[..i])
        invariant r.NotFound? ==>
          (hash in committed <==> hash in ApplyBatch(committed, batch[..i]))
          && (hash in committed ==> committed[hash] == ApplyBatch(committed, batch[..i])[hash])
      {
        assert batch[..i + 1][..i] == batch[..i];
        match batch[i] {
          case Put(h, e) => if h == hash { r := Found(e); }
          case Delete(h) => if h == hash { r := Deleted; }
        }
        i := i + 1;
      }
      assert batch[..i] == batch;
    }

    method ReadTxIndex(hash: Hash) returns (r: Option<TxIndex>)
      ensures r == if hash in View() then Some(View()[hash]) else None
    {
      if active {
        var s := ScanBatch(hash);
        match s {
          case Deleted => return None;
          case Found(e) => return Some(e);
          case NotFound =>
        }
      }
      r := if hash in committed then Some(committed[hash]) else None;
    }

    method UpdateTxIndex(hash: Hash, entry: TxIndex)
      modifies this
      ensures View() == old(View())[hash := entry]
      ensures StaysInTxn()
    {
      if active {
        assert (batch + [Put(hash, entry)])[..|batch|] == batch;
        batch := batch + [Put(hash, entry)];
      } else {
        committed := committed[hash := entry];
      }
    }

    method EraseTxIndex(hash: Hash)
      modifies this
      ensures View() == old(View()) - {hash}
      ensures StaysInTxn()
    {
      if active {
        assert (batch + [Delete(hash)])[..|batch|] == batch;
        batch := batch + [Delete(hash)];
      } else {
        committed := committed - {hash};
      }
    }

    method WriteHashBestChain(hash: Hash)
      modifies this
      ensures View() == old(View()) && BestView() == hash && active == old(active)
      ensures active ==> committed == old(committed) && committedBest == old(committedBest)
    {
      if active {
        batchBest := Some(hash);
      } else {
        committedBest := hash;
      }
    }
  }
}
