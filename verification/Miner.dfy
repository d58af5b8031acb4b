/** Filling a block from the memory pool (CreateNewBlock in src/miner.cpp): transactions wait
    for the pooled ones they spend, and ready ones are tried by priority. */
module Miner {
  import opened Wrappers
  import opened Transactions
  import opened Ledger
  import opened Blocks
  import opened TxDatabase
  import opened Inputs
  import opened Spend
  import MemPool

  /** What the block template builder is told: options, clock and the priorities. */
  datatype Setup = Setup(
    o: Oracle,
    pool: Pool,
    prev: CBlockIndex,
    nBlockMaxSize: nat,
    nBlockPrioritySize: nat,
    nBlockMinSize: nat,
    nMinTxFee: real,
    adjustedTime: int,
    fProofOfStake: bool,
    coinbaseTime: int,
    isFinal: Tx -> bool,
    minFee: (Tx, nat) -> int,
    priority: Hash -> real,
    feePerKb: Hash -> real)

  const PRIORITY_THRESHOLD: real := (COIN * 144 / 250) as real

  // --------------------------------------------------------------------- dependencies

  /** The output an input names can be read through the transaction database. */
  function OnDisk(o: Oracle, db: IndexMap, op: OutPoint): bool {
    op.hash in db && o.disk(db[op.hash].pos).Some? && op.n < |o.disk(db[op.hash].pos).value.vout|
  }

  /** The pooled transactions that have to come first. */
  function Needs(o: Oracle, db: IndexMap, tx: Tx, k: nat): set<Hash>
    requires k <= |tx.vin|
  {
    set i | 0 <= i < k && !OnDisk(o, db, tx.vin[i]) :: tx.vin[i].hash
  }

  predicate Eligible(s: Setup, h: Hash) {
    h in s.pool && !s.pool[h].IsCoinBase() && !s.pool[h].IsCoinStake() && s.isFinal(s.pool[h])
  }

  function NeedsOf(s: Setup, db: IndexMap, h: Hash): set<Hash>
    requires h in s.pool
  {
    Needs(s.o, db, s.pool[h], |s.pool[h].vin|)
  }

  /** Every input of a pooled transaction is in the database or in the pool. */
  ghost predicate InputsKnown(s: Setup, db: IndexMap) {
    && (forall h :: h in s.pool ==> s.pool[h].hash == h)
    && forall h, i :: h in s.pool && 0 <= i < |s.pool[h].vin| ==>
      OnDisk(s.o, db, s.pool[h].vin[i]) || s.pool[h].vin[i].hash in s.pool
  }

  // ------------------------------------------------------------------ the chosen list

  /** The index after the chosen transactions; in the template all of them are at one place. */
  ghost function ViewAfter(db: IndexMap, txs: seq<Tx>): IndexMap {
    if txs == [] then db else ApplyTx(ViewAfter(db, txs[..|txs| - 1]), txs[|txs| - 1], MEMPOOL_POS)
  }

  /** Transaction k can be connected after those before it. */
  ghost predicate ConnectsAt(s: Setup, db: IndexMap, txs: seq<Tx>, k: nat)
    requires k < |txs| && Linked(s.prev)
  {
    Connects(s, ViewAfter(db, txs[..k]), txs[k])
  }

  ghost predicate Connects(s: Setup, view: IndexMap, tx: Tx)
    requires Linked(s.prev)
  {
    && CanFetch(s.o, s.pool, view, map[], ForMiner, tx.vin)
    && InputsAccepted(s.o, InputsFrom(s, view, tx), tx, s.prev, ForMiner, s.prev.nHeight)
    && CanSpend(view, tx.vin)
  }

  ghost function InputsFrom(s: Setup, view: IndexMap, tx: Tx): PrevTxs
    requires CanFetch(s.o, s.pool, view, map[], ForMiner, tx.vin)
  {
    Fetched(s.o, s.pool, view, map[], ForMiner, tx.vin)
  }

  ghost function Fee(s: Setup, view: IndexMap, tx: Tx): int {
    if CanFetch(s.o, s.pool, view, map[], ForMiner, tx.vin) then
      ValueIn(InputsFrom(s, view, tx), tx, true, s.prev.nHeight) - tx.ValueOut()
    else 0
  }

  ghost function SigOps(s: Setup, view: IndexMap, tx: Tx): nat {
    s.o.legacySigOps(tx)
    + if CanFetch(s.o, s.pool, view, map[], ForMiner, tx.vin) then s.o.p2shSigOps(tx, InputsFrom(s, view, tx)) else 0
  }

  ghost function TotalFees(s: Setup, db: IndexMap, txs: seq<Tx>): int {
    if txs == [] then 0
    else TotalFees(s, db, txs[..|txs| - 1]) + Fee(s, ViewAfter(db, txs[..|txs| - 1]), txs[|txs| - 1])
  }

  ghost function TotalSigOps(s: Setup, db: IndexMap, txs: seq<Tx>): nat {
    if txs == [] then 0
    else TotalSigOps(s, db, txs[..|txs| - 1]) + SigOps(s, ViewAfter(db, txs[..|txs| - 1]), txs[|txs| - 1])
  }

  ghost function TotalSize(s: Setup, txs: seq<Tx>): nat {
    if txs == [] then 0 else TotalSize(s, txs[..|txs| - 1]) + s.o.txSize(txs[|txs| - 1])
  }

  ghost function HashesOf(txs: seq<Tx>): set<Hash> {
    set i | 0 <= i < |txs| :: txs[i].hash
  }

  /** What the list of a template is: pooled transactions, each once, parents before children,
      connectable in order and within the limits. */
  ghost predicate GoodList(s: Setup, db: IndexMap, txs: seq<Tx>)
    requires Linked(s.prev)
  {
    FromPool(s, txs) && ParentsFirst(s, db, txs) && InOrder(s, db, txs) && WithinLimits(s, db, txs)
  }

  ghost predicate FromPool(s: Setup, txs: seq<Tx>) {
    && (forall i :: 0 <= i < |txs| ==> Eligible(s, txs[i].hash) && s.pool[txs[i].hash] == txs[i])
    && (forall i, j :: 0 <= i < j < |txs| ==> txs[i].hash != txs[j].hash)
  }

  ghost predicate ParentsFirst(s: Setup, db: IndexMap, txs: seq<Tx>) {
    forall i :: 0 <= i < |txs| ==> NeedsBefore(s, db, txs, i)
  }

  ghost predicate InOrder(s: Setup, db: IndexMap, txs: seq<Tx>)
    requires Linked(s.prev)
  {
    forall k: nat {:trigger ConnectsAt(s, db, txs, k)} :: k < |txs| ==> ConnectsAt(s, db, txs, k)
  }

  ghost predicate WithinLimits(s: Setup, db: IndexMap, txs: seq<Tx>) {
    && (txs != [] ==> 1000 + TotalSize(s, txs) < s.nBlockMaxSize)
    && (txs != [] ==> 100 + TotalSigOps(s, db, txs) < MAX_BLOCK_SIGOPS)
  }

  ghost predicate NeedsBefore(s: Setup, db: IndexMap, txs: seq<Tx>, i: nat) {
    i < |txs| && txs[i].hash in s.pool && NeedsOf(s, db, txs[i].hash) <= HashesOf(txs[..i])
  }

  /** With the pool's own invariant no outpoint is spent twice. */
  lemma SpendsOnce(s: Setup, db: IndexMap, txs: seq<Tx>, next: map<OutPoint, MemPool.InPoint>, i: nat, j: nat, p: nat,
                   q: nat)
    requires Linked(s.prev) && GoodList(s, db, txs) && MemPool.Inverse(s.pool, next)
    requires i < |txs| && j < |txs| && p < |txs[i].vin| && q < |txs[j].vin| && txs[i].vin[p] == txs[j].vin[q]
    ensures i == j && p == q
  {
    MemPool.NoDoubleSpend(s.pool, next, txs[i].hash, p, txs[j].hash, q);
  }

  // --------------------------------------------------------------------- one candidate

  /** When a transaction is added to the list `txs`. */
  ghost predicate Includable(s: Setup, db: IndexMap, txs: seq<Tx>, tx: Tx, byFee: bool)
    requires Linked(s.prev)
  {
    var view, size := ViewAfter(db, txs), 1000 + TotalSize(s, txs);
    && size + s.o.txSize(tx) < s.nBlockMaxSize
    && !(tx.time > s.adjustedTime || (s.fProofOfStake && tx.time > s.coinbaseTime))
    && !(byFee && s.feePerKb(tx.hash) < s.nMinTxFee && size + s.o.txSize(tx) >= s.nBlockMinSize)
    && Worthwhile(s, view, tx, size, 100 + TotalSigOps(s, db, txs))
  }

  /** It connects, pays the minimum fee and keeps the signature operations in the limit. */
  ghost predicate Worthwhile(s: Setup, view: IndexMap, tx: Tx, size: nat, sigOps: nat)
    requires Linked(s.prev)
  {
    Connects(s, view, tx) && Fee(s, view, tx) >= s.minFee(tx, size) && sigOps + SigOps(s, view, tx) < MAX_BLOCK_SIGOPS
  }

  lemma ConnectsInRange(s: Setup, view: IndexMap, tx: Tx)
    requires Linked(s.prev)
    ensures Connects(s, view, tx) ==> AllInRange(InputsFrom(s, view, tx), tx.vin)
  {
  }

  // ------------------------------------------------------------------------ the turns

  /** A transaction that was tried, and whether the order was by fee then. */
  datatype Turn = Turn(h: Hash, byFee: bool)

  ghost predicate Pooled(s: Setup, turns: seq<Turn>) {
    forall k :: 0 <= k < |turns| ==> turns[k].h in s.pool
  }

  ghost function TakenIn(turns: seq<Turn>): set<Hash> {
    set k | 0 <= k < |turns| :: turns[k].h
  }

  /** The list after these turns: those that could be included, in their order. */
  ghost function ListAfter(s: Setup, db: IndexMap, turns: seq<Turn>): seq<Tx>
    requires Linked(s.prev) && Pooled(s, turns)
  {
    if turns == [] then []
    else
      var txs, last := ListAfter(s, db, turns[..|turns| - 1]), turns[|turns| - 1];
      if Includable(s, db, txs, s.pool[last.h], last.byFee) then txs + [s.pool[last.h]] else txs
  }

  /** A transaction within the limits after which the order is by fee: the priority size is
      reached, or the priority is low. */
  ghost predicate EndsPriority(s: Setup, db: IndexMap, txs: seq<Tx>, tx: Tx) {
    var size := 1000 + TotalSize(s, txs) + s.o.txSize(tx);
    && size < s.nBlockMaxSize && 100 + TotalSigOps(s, db, txs) + s.o.legacySigOps(tx) < MAX_BLOCK_SIGOPS
    && tx.time <= s.adjustedTime && (s.fProofOfStake ==> tx.time <= s.coinbaseTime)
    && (size >= s.nBlockPrioritySize || s.priority(tx.hash) < 57_600_000.0)
  }

  /** Whether the order is by fee after these turns. */
  ghost predicate ByFee(s: Setup, db: IndexMap, turns: seq<Turn>)
    requires Linked(s.prev) && Pooled(s, turns)
  {
    if turns == [] then s.nBlockPrioritySize == 0
    else
      var before := turns[..|turns| - 1];
      ByFee(s, db, before) || EndsPriority(s, db, ListAfter(s, db, before), s.pool[turns[|turns| - 1].h])
  }

  /** By fee a higher fee comes first, and of equal ones the higher priority; otherwise the
      other way round. */
  ghost predicate Before(s: Setup, byFee: bool, g: Hash, h: Hash) {
    if byFee then s.feePerKb(g) > s.feePerKb(h) || (s.feePerKb(g) == s.feePerKb(h) && s.priority(g) > s.priority(h))
    else s.priority(g) > s.priority(h) || (s.priority(g) == s.priority(h) && s.feePerKb(g) > s.feePerKb(h))
  }

  /** The next turn after these is that of a ready transaction that has not had one, and no
      other such comes before it in the order in force. */
  ghost predicate NextTurn(s: Setup, db: IndexMap, turns: seq<Turn>, t: Turn)
    requires Linked(s.prev) && Pooled(s, turns)
  {
    var chosen := HashesOf(ListAfter(s, db, turns));
    && t.byFee == ByFee(s, db, turns) && t.h !in TakenIn(turns) && IsReady(s, db, chosen, t.h)
    && forall g :: IsReady(s, db, chosen, g) && g !in TakenIn(turns) ==> !Before(s, t.byFee, g, t.h)
  }

  ghost predicate TurnsOk(s: Setup, db: IndexMap, turns: seq<Turn>)
    requires Linked(s.prev)
  {
    Pooled(s, turns) && forall k: nat {:trigger turns[..k]} :: k < |turns| ==> NextTurn(s, db, turns[..k], turns[k])
  }

  lemma TurnsAppend(s: Setup, db: IndexMap, turns: seq<Turn>, t: Turn)
    requires Linked(s.prev) && TurnsOk(s, db, turns) && t.h in s.pool && NextTurn(s, db, turns, t)
    ensures var more, txs := turns + [t], ListAfter(s, db, turns);
      && TurnsOk(s, db, more) && TakenIn(more) == TakenIn(turns) + {t.h}
      && ListAfter(s, db, more) == (if Includable(s, db, txs, s.pool[t.h], t.byFee) then txs + [s.pool[t.h]] else txs)
      && (ByFee(s, db, more) <==> t.byFee || EndsPriority(s, db, txs, s.pool[t.h]))
  {
    hide NextTurn, Includable, EndsPriority, TakenIn, Linked;
    var more := turns + [t];
    assert more[..|turns|] == turns;
    TakenAppend(turns, t);
    OneTurnMore(s, db, turns, t);
    TurnByFee(s, db, turns, t);
    hide ListAfter, ByFee;
    forall k: nat | k < |more| ensures NextTurn(s, db, more[..k], more[k]) {
      if k < |turns| {
        assert more[..k] == turns[..k];
      }
    }
  }

  lemma OneTurnMore(s: Setup, db: IndexMap, turns: seq<Turn>, t: Turn)
    requires Linked(s.prev) && Pooled(s, turns) && t.h in s.pool
    ensures var more, txs := turns + [t], ListAfter(s, db, turns);
      && Pooled(s, more)
      && ListAfter(s, db, more) == (if Includable(s, db, txs, s.pool[t.h], t.byFee) then txs + [s.pool[t.h]] else txs)
      && (ByFee(s, db, more) <==> ByFee(s, db, turns) || EndsPriority(s, db, txs, s.pool[t.h]))
  {
    hide Includable, EndsPriority, Linked;
    assert (turns + [t])[..|turns|] == turns;
  }

  lemma TurnByFee(s: Setup, db: IndexMap, turns: seq<Turn>, t: Turn)
    requires Linked(s.prev) && Pooled(s, turns) && NextTurn(s, db, turns, t)
    ensures t.byFee <==> ByFee(s, db, turns)
  {
  }

  lemma TakenAppend(turns: seq<Turn>, t: Turn)
    ensures TakenIn(turns + [t]) == TakenIn(turns) + {t.h}
  {
    var more := turns + [t];
    forall h | h in TakenIn(turns) + {t.h} ensures h in TakenIn(more) {
      if h == t.h {
        assert more[|turns|].h == h;
      } else {
        var k :| 0 <= k < |turns| && turns[k].h == h;
        assert more[k].h == h;
      }
    }
  }

  /** It had its turn, and could not be included then. */
  ghost predicate Refused(s: Setup, db: IndexMap, turns: seq<Turn>, h: Hash)
    requires Linked(s.prev) && Pooled(s, turns)
  {
    exists k: nat :: RefusedAt(s, db, turns, h, k)
  }

  ghost predicate RefusedAt(s: Setup, db: IndexMap, turns: seq<Turn>, h: Hash, k: nat)
    requires Linked(s.prev) && Pooled(s, turns)
  {
    k < |turns| && turns[k].h == h && h in s.pool &&
      !Includable(s, db, ListAfter(s, db, turns[..k]), s.pool[h], turns[k].byFee)
  }

  /** A transaction that had its turn is in the list, or was refused. */
  lemma {:induction false} ListedOrRefused(s: Setup, db: IndexMap, turns: seq<Turn>, h: Hash)
    requires Linked(s.prev) && Pooled(s, turns) && (forall g :: g in s.pool ==> s.pool[g].hash == g)
    requires h in TakenIn(turns) && h !in HashesOf(ListAfter(s, db, turns))
    ensures Refused(s, db, turns, h)
  {
    var n := |turns| - 1;
    var less, last := turns[..n], turns[n];
    var txs := ListAfter(s, db, less);
    HashesAppend(txs, s.pool[last.h]);
    hide Includable, HashesOf, Linked;
    if last.h == h {
      assert RefusedAt(s, db, turns, h, n);
    } else {
      var k :| 0 <= k < |turns| && turns[k].h == h;
      assert less[k].h == h;
      hide TakenIn;
      ListedOrRefused(s, db, less, h);
      hide ListAfter;
      var m: nat :| RefusedAt(s, db, less, h, m);
      assert less[..m] == turns[..m];
      assert RefusedAt(s, db, turns, h, m);
    }
  }

  /** Reading through the changes is reading the index with the changes made. */
  lemma FetchThrough(s: Setup, db: IndexMap, queue: IndexMap, vin: seq<OutPoint>)
    ensures CanFetch(s.o, s.pool, db, queue, ForMiner, vin) == CanFetch(s.o, s.pool, db + queue, map[], ForMiner, vin)
    ensures CanFetch(s.o, s.pool, db, queue, ForMiner, vin) ==>
      Fetched(s.o, s.pool, db, queue, ForMiner, vin) == Fetched(s.o, s.pool, db + queue, map[], ForMiner, vin)
  {
    forall h ensures FetchOne(s.o, s.pool, db, queue, ForMiner, h) ==
      FetchOne(s.o, s.pool, db + queue, map[], ForMiner, h) {
    }
  }

  /** What is fetched is in the index. */
  lemma FetchedEntries(s: Setup, view: IndexMap, vin: seq<OutPoint>)
    requires CanFetch(s.o, s.pool, view, map[], ForMiner, vin)
    ensures var inputs := Fetched(s.o, s.pool, view, map[], ForMiner, vin);
      inputs.Keys == Hashes(vin) && forall h :: h in inputs ==> h in view && inputs[h].0 == view[h]
  {
    forall h | h in Hashes(vin) ensures FetchOne(s.o, s.pool, view, map[], ForMiner, h).Some? {
      var i :| 0 <= i < |vin| && vin[i].hash == h;
    }
  }

  /** Accepted inputs are unspent in the index, and the changes with them spent are the index
      with the transaction applied. */
  lemma AcceptedConnects(s: Setup, db: IndexMap, queue: IndexMap, tx: Tx)
    requires Linked(s.prev) && CanFetch(s.o, s.pool, db + queue, map[], ForMiner, tx.vin) && !tx.IsCoinBase()
    ensures var inputs := InputsFrom(s, db + queue, tx);
      && (InputsAccepted(s.o, inputs, tx, s.prev, ForMiner, s.prev.nHeight) <==> Connects(s, db + queue, tx))
      && db + QueueWith(queue, inputs, tx.vin, MEMPOOL_POS, ForMiner)[tx.hash := FreshIndex(MEMPOOL_POS, |tx.vout|)]
         == ApplyTx(db + queue, tx, MEMPOOL_POS)
  {
    hide MarkAll, FetchOne, CanFetch, Fetched, CanSpend;
    var inputs := InputsFrom(s, db + queue, tx);
    FetchedEntries(s, db + queue, tx.vin);
    QueueShowsMarks(db, queue, inputs, tx.vin, MEMPOOL_POS);
  }

  // ------------------------------------------------------------------ waiting and ready

  type DependsOn = map<Hash, set<Hash>>
  type Dependers = map<Hash, seq<Hash>>

  ghost predicate DependsOnIt(dependers: Dependers, parent: Hash, c: Hash) {
    parent in dependers && c in dependers[parent]
  }

  /** The tables for the pooled transactions in `visited`, none of them chosen yet. */
  ghost predicate Built(s: Setup, db: IndexMap, visited: set<Hash>, depends: DependsOn, dependers: Dependers,
                        queue: seq<Hash>) {
    && (forall c :: c in depends <==> c in visited && Eligible(s, c) && NeedsOf(s, db, c) != {})
    && (forall c :: c in depends ==> depends[c] == NeedsOf(s, db, c))
    && (forall p, c :: DependsOnIt(dependers, p, c) <==> c in visited && Eligible(s, c) && p in NeedsOf(s, db, c))
    && Distinct(queue) && (forall h :: h in queue <==> h in visited && Eligible(s, h) && NeedsOf(s, db, h) == {})
  }

  /** A transaction that cannot be in the block changes nothing. */
  lemma BuiltSkip(s: Setup, db: IndexMap, visited: set<Hash>, depends: DependsOn, dependers: Dependers,
                  queue: seq<Hash>, h: Hash)
    requires Built(s, db, visited, depends, dependers, queue) && !Eligible(s, h)
    ensures Built(s, db, visited + {h}, depends, dependers, queue)
  {
    hide NeedsOf, DependsOnIt;
  }

  /** The tables with one more transaction visited. */
  lemma BuiltOneMore(s: Setup, db: IndexMap, visited: set<Hash>, depends: DependsOn, dependers: Dependers,
                     queue: seq<Hash>, h: Hash,
                     more: Dependers)
    requires Built(s, db, visited, depends, dependers, queue) && Eligible(s, h) && h !in visited
    requires forall p, c :: DependsOnIt(more, p, c) <==>
      DependsOnIt(dependers, p, c) || (c == h && p in NeedsOf(s, db, h))
    ensures NeedsOf(s, db, h) != {} ==> Built(s, db, visited + {h}, depends[h := NeedsOf(s, db, h)], more, queue)
    ensures NeedsOf(s, db, h) == {} ==> Built(s, db, visited + {h}, depends, more, queue + [h])
  {
    hide NeedsOf, DependsOnIt;
  }

  /** Each waiting transaction depends on what it needs and is not chosen; for those in `late`
      the last chosen one has been taken into account. */
  ghost predicate Waiting(s: Setup, db: IndexMap, chosen: set<Hash>, last: set<Hash>, late: set<Hash>,
                          depends: DependsOn) {
    && (forall c :: c in depends <==> Eligible(s, c) && NeedsOf(s, db, c) != {})
    && (forall c :: c in depends ==> depends[c] == NeedsOf(s, db, c) - Seen(chosen, last, late, c))
  }

  /** What is chosen, as far as `c` has been told. */
  ghost function Seen(chosen: set<Hash>, last: set<Hash>, late: set<Hash>, c: Hash): set<Hash> {
    if c in late then chosen + last else chosen
  }

  /** The queue and what was taken from it are the transactions whose needs are met: none is
      queued twice. */
  ghost predicate Ready(s: Setup, db: IndexMap, chosen: set<Hash>, last: set<Hash>, late: set<Hash>,
                        popped: set<Hash>, queue: seq<Hash>) {
    && Distinct(queue) && (forall h :: h in queue ==> h !in popped) && chosen + last <= popped
    && (forall h :: h in queue || h in popped ==> IsReady(s, db, Seen(chosen, last, late, h), h))
    && (forall h :: IsReady(s, db, Seen(chosen, last, late, h), h) ==> h in queue || h in popped)
  }

  ghost predicate IsReady(s: Setup, db: IndexMap, seen: set<Hash>, h: Hash) {
    Eligible(s, h) && NeedsOf(s, db, h) <= seen
  }

  ghost predicate Linkage(s: Setup, db: IndexMap, dependers: Dependers) {
    forall p, c :: DependsOnIt(dependers, p, c) <==> Eligible(s, c) && p in NeedsOf(s, db, c)
  }

  /** The queue and the waiting transactions, when `txs` are in the block and `popped` have been
      taken off the queue. */
  ghost predicate Queues(s: Setup, db: IndexMap, txs: seq<Tx>, popped: set<Hash>, depends: DependsOn, queue: seq<Hash>)
    requires Linked(s.prev)
  {
    && popped <= s.pool.Keys && (forall h :: h in s.pool ==> s.pool[h].hash == h)
    && Waiting(s, db, HashesOf(txs), {}, {}, depends) && Ready(s, db, HashesOf(txs), {}, {}, popped, queue)
  }

  lemma AllBuilt(s: Setup, db: IndexMap, depends: DependsOn, dependers: Dependers, queue: seq<Hash>)
    requires Built(s, db, s.pool.Keys, depends, dependers, queue)
    ensures Waiting(s, db, {}, {}, {}, depends) && Ready(s, db, {}, {}, {}, {}, queue) && Linkage(s, db, dependers)
  {
    hide NeedsOf;
  }

  /** When all dependers of x have been told, everyone has. */
  lemma AllTold(s: Setup, db: IndexMap, chosen: set<Hash>, x: Hash, late: set<Hash>, depends: DependsOn,
                dependers: Dependers,
                popped: set<Hash>, queue: seq<Hash>)
    requires Waiting(s, db, chosen, {x}, late, depends) && Ready(s, db, chosen, {x}, late, popped, queue) &&
      Linkage(s, db, dependers)
    requires forall c :: c in late <==> DependsOnIt(dependers, x, c)
    ensures Waiting(s, db, chosen + {x}, {}, {}, depends) && Ready(s, db, chosen + {x}, {}, {}, popped, queue)
  {
    hide Needs;
    forall c | Eligible(s, c)
      ensures NeedsOf(s, db, c) - Seen(chosen, {x}, late, c) == NeedsOf(s, db, c) - (chosen + {x})
      ensures NeedsOf(s, db, c) <= Seen(chosen, {x}, late, c) <==> NeedsOf(s, db, c) <= chosen + {x}
    {
      assert c in late <==> x in NeedsOf(s, db, c);
    }
    hide NeedsOf;
    forall h ensures IsReady(s, db, chosen + {x}, h) <==> IsReady(s, db, Seen(chosen, {x}, late, h), h) {
    }
    forall h ensures Seen(chosen + {x}, {}, {}, h) == chosen + {x} {
    }
  }

  /** One depender is told of x: it waits for one less, and is queued when it waits for none. */
  lemma ToldOne(s: Setup, db: IndexMap, chosen: set<Hash>, x: Hash, late: set<Hash>, depends: DependsOn,
                popped: set<Hash>,
                queue: seq<Hash>, c: Hash)
    requires Waiting(s, db, chosen, {x}, late, depends) && Ready(s, db, chosen, {x}, late, popped, queue)
    requires x !in chosen && Eligible(s, c) && x in NeedsOf(s, db, c)
    ensures c in depends
    ensures depends[c] == {} ==>
      Waiting(s, db, chosen, {x}, late + {c}, depends) && Ready(s, db, chosen, {x}, late + {c}, popped, queue)
    ensures depends[c] != {} ==>
      var left := depends[c] - {x};
      && Waiting(s, db, chosen, {x}, late + {c}, depends[c := left])
      && Ready(s, db, chosen, {x}, late + {c}, popped, if left == {} then queue + [c] else queue)
  {
    hide Ready, NeedsOf, Seen;
    SeenLater(chosen, x, late, c);
    WaitsFor(NeedsOf(s, db, c), chosen, x, c in late, depends[c]);
    ToldReady(s, db, chosen, x, late, depends[c], popped, queue, c);
  }

  lemma ToldReady(s: Setup, db: IndexMap, chosen: set<Hash>, x: Hash, late: set<Hash>, waits: set<Hash>,
                  popped: set<Hash>,
                  queue: seq<Hash>, c: Hash)
    requires Ready(s, db, chosen, {x}, late, popped, queue)
    requires x !in chosen && Eligible(s, c) && x in NeedsOf(s, db, c)
    requires waits == NeedsOf(s, db, c) - if c in late then chosen + {x} else chosen
    ensures Ready(s, db, chosen, {x}, late + {c}, popped, if waits != {} && waits - {x} == {} then queue + [c]
      else queue)
  {
    hide NeedsOf, Seen;
    WaitsFor(NeedsOf(s, db, c), chosen, x, c in late, waits);
    SeenLater(chosen, x, late, c);
    assert IsReady(s, db, Seen(chosen, {x}, late, c), c) <==> waits == {};
    assert IsReady(s, db, chosen + {x}, c) <==> waits - {x} == {};
    hide IsReady;
  }

  lemma SeenLater(chosen: set<Hash>, x: Hash, late: set<Hash>, c: Hash)
    ensures forall h :: h != c ==> Seen(chosen, {x}, late + {c}, h) == Seen(chosen, {x}, late, h)
    ensures Seen(chosen, {x}, late + {c}, c) == chosen + {x}
    ensures Seen(chosen, {x}, late, c) == if c in late then chosen + {x} else chosen
  {
  }

  /** What a transaction with these needs still waits for, before and after it is told of x. */
  lemma WaitsFor(needs: set<Hash>, chosen: set<Hash>, x: Hash, told: bool, waits: set<Hash>)
    requires x in needs && x !in chosen && waits == needs - if told then chosen + {x} else chosen
    ensures waits - {x} == needs - (chosen + {x})
    ensures waits == {} <==> needs <= if told then chosen + {x} else chosen
    ensures waits - {x} == {} <==> needs <= chosen + {x}
    ensures waits == {} ==> told
    ensures told ==> waits - {x} == waits
    ensures !told ==> !(needs <= chosen)
  {
  }

  // ----------------------------------------------------------------------- the template

  class CBlockTemplate {
    const s: Setup
    const txdb: CTxDB
    var vtx: seq<Tx>
    var mapTestPool: IndexMap
    var nBlockSize: nat
    var nBlockSigOps: nat
    var nFees: int
    var fSortedByFee: bool
    var vecPriority: seq<Hash>
    var setDependsOn: map<Hash, set<Hash>>
    var mapDependers: map<Hash, seq<Hash>>

    constructor (s: Setup, txdb: CTxDB)
      requires Linked(s.prev)
      ensures this.s == s && this.txdb == txdb && ListOk() && vtx == []
      ensures vecPriority == [] && setDependsOn == map[] && mapDependers == map[]
      ensures fSortedByFee <==> s.nBlockPrioritySize == 0
    {
      this.s, this.txdb := s, txdb;
      vtx, mapTestPool, nBlockSize, nBlockSigOps, nFees := [], map[], 1000, 100, 0;
      fSortedByFee := s.nBlockPrioritySize <= 0;
      vecPriority, setDependsOn, mapDependers := [], map[], map[];
      new;
      assert txdb.View() + map[] == txdb.View();
    }

    /** The list is good, and the running totals and changes are those of the list. */
    ghost predicate ListOk()
      reads this`vtx, this`mapTestPool, this`nBlockSize, this`nBlockSigOps, this`nFees, txdb
    {
      Linked(s.prev) && Listed(s, txdb.View(), vtx, mapTestPool, nBlockSize, nBlockSigOps, nFees)
    }

    /** The limits a transaction has to meet before its inputs are looked at. */
    ghost predicate PassesLimits(tx: Tx, size: nat, sigOps: nat, byFee: bool) {
      && size + s.o.txSize(tx) < s.nBlockMaxSize
      && sigOps + s.o.legacySigOps(tx) < MAX_BLOCK_SIGOPS
      && !(tx.time > s.adjustedTime || (s.fProofOfStake && tx.time > s.coinbaseTime))
      && !(byFee && s.feePerKb(tx.hash) < s.nMinTxFee && size + s.o.txSize(tx) >= s.nBlockMinSize)
    }

    method CheckLimits(tx: Tx) returns (pass: bool)
      modifies this`fSortedByFee
      ensures pass <==> PassesLimits(tx, nBlockSize, nBlockSigOps, old(fSortedByFee))
      ensures fSortedByFee == (old(fSortedByFee)
        || (pass && (nBlockSize + s.o.txSize(tx) >= s.nBlockPrioritySize || s.priority(tx.hash) < PRIORITY_THRESHOLD)))
    {
      pass := false;
      var nTxSize := s.o.txSize(tx);
      if nBlockSize + nTxSize >= s.nBlockMaxSize {
        return;
      }
      var nTxSigOps := s.o.legacySigOps(tx);
      if nBlockSigOps + nTxSigOps >= MAX_BLOCK_SIGOPS {
        return;
      }
      if tx.time > s.adjustedTime || (s.fProofOfStake && tx.time > s.coinbaseTime) {
        return;
      }
      if fSortedByFee && s.feePerKb(tx.hash) < s.nMinTxFee && nBlockSize + nTxSize >= s.nBlockMinSize {
        return;
      }
      // past the priority size, or out of high-priority transactions: by fee from now on
      if !fSortedByFee && (nBlockSize + nTxSize >= s.nBlockPrioritySize || s.priority(tx.hash) < PRIORITY_THRESHOLD) {
        fSortedByFee := true;
      }
      pass := true;
    }

    /** Fetches, checks fee and signature operations, and connects on a copy of the changes. */
    method TryConnect(tx: Tx) returns (ok: bool, newPool: IndexMap, nTxSigOps: nat, nTxFees: int)
      requires Linked(s.prev) && !tx.IsCoinBase()
      ensures ok <==> Worthwhile(s, txdb.View() + mapTestPool, tx, nBlockSize, nBlockSigOps)
      ensures ok ==> txdb.View() + newPool == ApplyTx(txdb.View() + mapTestPool, tx, MEMPOOL_POS)
      ensures ok ==>
        nTxSigOps == SigOps(s, txdb.View() + mapTestPool, tx) && nTxFees == Fee(s, txdb.View() + mapTestPool, tx)
    {
      hide ApplyTx, CanSpend, InputsOk, Signed, MarkAll, Pick, ValueIn, FetchOne, Linked, CTxDB.View;
      ghost var db := txdb.View();
      newPool, nTxSigOps, nTxFees := mapTestPool, s.o.legacySigOps(tx), 0;
      FetchThrough(s, db, mapTestPool, tx.vin);
      ConnectsInRange(s, db + mapTestPool, tx);
      var mapInputs, fInvalid;
      ok, mapInputs, fInvalid := FetchInputs(s.o, s.pool, txdb, mapTestPool, ForMiner, tx);
      if !ok {
        return;
      }
      var valueIn := GetValueIn(mapInputs, tx, true, s.prev.nHeight);
      nTxFees := valueIn - tx.ValueOut();
      if nTxFees < s.minFee(tx, nBlockSize) {
        return false, newPool, nTxSigOps, nTxFees;
      }
      nTxSigOps := nTxSigOps + s.o.p2shSigOps(tx, mapInputs);
      if nBlockSigOps + nTxSigOps >= MAX_BLOCK_SIGOPS {
        return false, newPool, nTxSigOps, nTxFees;
      }
      AcceptedConnects(s, db, mapTestPool, tx);
      ok, newPool := ConnectInputs(s.o, mapInputs, tx, mapTestPool, MEMPOOL_POS, s.prev, ForMiner, s.prev.nHeight);
      if !ok {
        return;
      }
      newPool := newPool[tx.hash := FreshIndex(MEMPOOL_POS, |tx.vout|)];
    }

    /** The body of the main loop up to the releasing of dependers. */
    method TryInclude(tx: Tx) returns (included: bool)
      requires ListOk() && Eligible(s, tx.hash) && s.pool[tx.hash] == tx
      requires tx.hash !in HashesOf(vtx) && NeedsOf(s, txdb.View(), tx.hash) <= HashesOf(vtx)
      modifies this`vtx, this`mapTestPool, this`nBlockSize, this`nBlockSigOps, this`nFees, this`fSortedByFee
      ensures ListOk()
      ensures included <==> Includable(s, txdb.View(), old(vtx), tx, old(fSortedByFee))
      ensures fSortedByFee <==> old(fSortedByFee) || EndsPriority(s, txdb.View(), old(vtx), tx)
      ensures vtx == if included then old(vtx) + [tx] else old(vtx)
    {
      hide GoodList, TotalSize, TotalSigOps, TotalFees, ViewAfter, Connects, Fee, ApplyTx, Linked, NeedsOf;
      included := false;
      ghost var size, sigOps, byFee := nBlockSize, nBlockSigOps, fSortedByFee;
      var pass := CheckLimits(tx);
      if !pass {
        return;
      }
      var ok, newPool, nTxSigOps, nTxFees := TryConnect(tx);
      if !ok {
        return;
      }
      AddToList(tx, newPool, s.o.txSize(tx), nTxSigOps, nTxFees);
      included := true;
    }

    /** A transaction that connects is added to the list and to the totals. */
    method AddToList(tx: Tx, newPool: IndexMap, nTxSize: nat, nTxSigOps: nat, nTxFees: int)
      requires ListOk() && Eligible(s, tx.hash) && s.pool[tx.hash] == tx
      requires tx.hash !in HashesOf(vtx) && NeedsOf(s, txdb.View(), tx.hash) <= HashesOf(vtx)
      requires Connects(s, ViewAfter(txdb.View(), vtx), tx)
      requires txdb.View() + newPool == ApplyTx(ViewAfter(txdb.View(), vtx), tx, MEMPOOL_POS)
      requires nTxSize == s.o.txSize(tx) && nBlockSize + nTxSize < s.nBlockMaxSize
      requires nTxSigOps == SigOps(s, ViewAfter(txdb.View(), vtx), tx) && nBlockSigOps + nTxSigOps < MAX_BLOCK_SIGOPS
      requires nTxFees == Fee(s, ViewAfter(txdb.View(), vtx), tx)
      modifies this`vtx, this`mapTestPool, this`nBlockSize, this`nBlockSigOps, this`nFees
      ensures ListOk() && vtx == old(vtx) + [tx]
    {
      hide Listed, Linked, Eligible, NeedsOf, HashesOf, Connects, ViewAfter, ApplyTx, SigOps, Fee, CTxDB.View;
      ListedAppend(s, txdb.View(), vtx, mapTestPool, nBlockSize, nBlockSigOps, nFees, tx, newPool);
      mapTestPool := newPool;
      vtx := vtx + [tx];
      nBlockSize := nBlockSize + nTxSize;
      nBlockSigOps := nBlockSigOps + nTxSigOps;
      nFees := nFees + nTxFees;
    }

    // -------------------------------------------------------------------- collecting

    /** One pooled transaction: it waits for the pooled ones it spends, or is ready. */
    method AddCandidate(h: Hash, ghost visited: set<Hash>)
      requires h in s.pool && h !in visited && InputsKnown(s, txdb.View())
      requires Built(s, txdb.View(), visited, setDependsOn, mapDependers, vecPriority)
      modifies this`setDependsOn, this`mapDependers, this`vecPriority
      ensures Built(s, txdb.View(), visited + {h}, setDependsOn, mapDependers, vecPriority)
    {
      hide Built, NeedsOf, DependsOnIt;
      var tx := s.pool[h];
      if tx.IsCoinBase() || tx.IsCoinStake() || !s.isFinal(tx) {
        BuiltSkip(s, txdb.View(), visited, setDependsOn, mapDependers, vecPriority, h);
        return;
      }
      ghost var db := txdb.View();
      ghost var before := mapDependers;
      ghost var depends0, queue0 := setDependsOn, vecPriority;
      var depends := CollectNeeds(h);
      BuiltOneMore(s, db, visited, depends0, before, queue0, h, mapDependers);
      if depends != {} {
        setDependsOn := setDependsOn[h := depends];
      } else {
        vecPriority := vecPriority + [h];
      }
    }

    /** The loop over the inputs. */
    method CollectNeeds(h: Hash) returns (depends: set<Hash>)
      requires h in s.pool && InputsKnown(s, txdb.View())
      modifies this`mapDependers
      ensures depends == NeedsOf(s, txdb.View(), h)
      ensures forall p, c :: DependsOnIt(mapDependers, p, c) <==>
        DependsOnIt(old(mapDependers), p, c) || (c == h && p in depends)
    {
      var tx := s.pool[h];
      ghost var db := txdb.View();
      depends := {};
      var i := 0;
      while i < |tx.vin|
        invariant 0 <= i <= |tx.vin| && depends == Needs(s.o, db, tx, i)
        invariant forall p, c :: DependsOnIt(mapDependers, p, c) <==>
          DependsOnIt(old(mapDependers), p, c) || (c == h && p in depends)
      {
        NeedsStep(s.o, db, tx, i);
        var onDisk := ReadPrev(tx.vin[i]);
        if !onDisk {
          // has to wait for dependencies
          var parent := tx.vin[i].hash;
          var list := if parent in mapDependers then mapDependers[parent] else [];
          DependerAdded(mapDependers, parent, list, h);
          OneMoreNeed(old(mapDependers), mapDependers, mapDependers[parent := list + [h]], h, depends, parent);
          mapDependers := mapDependers[parent := list + [h]];
          depends := depends + {parent};
        }
        i := i + 1;
      }
    }

    /** ReadFromDisk of a previous output. */
    method ReadPrev(op: OutPoint) returns (onDisk: bool)
      ensures onDisk == OnDisk(s.o, txdb.View(), op)
    {
      var entry := txdb.ReadTxIndex(op.hash);
      if entry.None? {
        return false;
      }
      var txPrev := s.o.disk(entry.value.pos);
      if txPrev.None? {
        return false;
      }
      onDisk := op.n < |txPrev.value.vout|;
    }

    /** The loop over the pool. */
    method CollectCandidates()
      requires InputsKnown(s, txdb.View()) && vecPriority == [] && setDependsOn == map[] && mapDependers == map[]
      modifies this`setDependsOn, this`mapDependers, this`vecPriority
      ensures Built(s, txdb.View(), s.pool.Keys, setDependsOn, mapDependers, vecPriority)
    {
      var rest := s.pool.Keys;
      assert s.pool.Keys - rest == {};
      while rest != {}
        invariant rest <= s.pool.Keys
        invariant Built(s, txdb.View(), s.pool.Keys - rest, setDependsOn, mapDependers, vecPriority)
        decreases rest
      {
        var h: Hash :| h in rest;
        AddCandidate(h, s.pool.Keys - rest);
        assert s.pool.Keys - (rest - {h}) == (s.pool.Keys - rest) + {h};
        rest := rest - {h};
      }
      assert s.pool.Keys - rest == s.pool.Keys;
    }

    // -------------------------------------------------------------- the priority queue

    /** The keys of TxPriorityCompare: priority and fee, or fee and priority. */
    function Key(byFee: bool, h: Hash): (real, real) {
      if byFee then (s.feePerKb(h), s.priority(h)) else (s.priority(h), s.feePerKb(h))
    }

    /** Takes a transaction off the queue that none beats. */
    method PopBest() returns (h: Hash, ghost at: nat)
      requires vecPriority != []
      modifies this`vecPriority
      ensures at < |old(vecPriority)| && h == old(vecPriority)[at]
      ensures vecPriority == old(vecPriority)[..at] + old(vecPriority)[at + 1..]
      ensures forall i :: 0 <= i < |old(vecPriority)| ==>
        !KeyLess(Key(fSortedByFee, h), Key(fSortedByFee, old(vecPriority)[i]))
    {
      hide KeyLess, Key;
      var best := 0;
      var i := 1;
      KeyLessTotal(Key(fSortedByFee, vecPriority[0]), Key(fSortedByFee, vecPriority[0]),
        Key(fSortedByFee, vecPriority[0]));
      while i < |vecPriority|
        invariant 0 <= best < i <= |vecPriority| && vecPriority == old(vecPriority)
        invariant forall j :: 0 <= j < i ==>
          !KeyLess(Key(fSortedByFee, vecPriority[best]), Key(fSortedByFee, vecPriority[j]))
      {
        var a, b := Key(fSortedByFee, vecPriority[best]), Key(fSortedByFee, vecPriority[i]);
        KeyLessTotal(b, b, b);
        if KeyLess(a, b) {
          forall j | 0 <= j < i ensures !KeyLess(b, Key(fSortedByFee, vecPriority[j])) {
            KeyLessTotal(a, b, Key(fSortedByFee, vecPriority[j]));
          }
          best := i;
        }
        i := i + 1;
      }
      h, at := vecPriority[best], best;
      vecPriority := vecPriority[..best] + vecPriority[best + 1..];
    }

    // --------------------------------------------------------------------- the main loop

    /** Tells one transaction that x is in the block. */
    method Tell(c: Hash, x: Hash, ghost chosen: set<Hash>, ghost late: set<Hash>, ghost popped: set<Hash>)
      requires x !in chosen && Eligible(s, c) && x in NeedsOf(s, txdb.View(), c)
      requires Waiting(s, txdb.View(), chosen, {x}, late, setDependsOn)
      requires Ready(s, txdb.View(), chosen, {x}, late, popped, vecPriority)
      modifies this`setDependsOn, this`vecPriority
      ensures Waiting(s, txdb.View(), chosen, {x}, late + {c}, setDependsOn)
      ensures Ready(s, txdb.View(), chosen, {x}, late + {c}, popped, vecPriority)
    {
      hide Waiting, Ready, NeedsOf;
      ToldOne(s, txdb.View(), chosen, x, late, setDependsOn, popped, vecPriority, c);
      if setDependsOn[c] != {} {
        setDependsOn := setDependsOn[c := setDependsOn[c] - {x}];
        if setDependsOn[c] == {} {
          vecPriority := vecPriority + [c];
        }
      }
    }

    /** The loop over the dependers of x. */
    method TellAll(list: seq<Hash>, x: Hash, ghost chosen: set<Hash>, ghost popped: set<Hash>)
      returns (ghost late: set<Hash>)
      requires x !in chosen && forall i :: 0 <= i < |list| ==>
        Eligible(s, list[i]) && x in NeedsOf(s, txdb.View(), list[i])
      requires Waiting(s, txdb.View(), chosen, {x}, {}, setDependsOn)
      requires Ready(s, txdb.View(), chosen, {x}, {}, popped, vecPriority)
      modifies this`setDependsOn, this`vecPriority
      ensures forall c :: c in late <==> c in list
      ensures Waiting(s, txdb.View(), chosen, {x}, late, setDependsOn)
      ensures Ready(s, txdb.View(), chosen, {x}, late, popped, vecPriority)
    {
      late := {};
      var i := 0;
      hide *;
      while i < |list|
        invariant 0 <= i <= |list| && forall c :: c in late <==> c in list[..i]
        invariant Waiting(s, txdb.View(), chosen, {x}, late, setDependsOn)
        invariant Ready(s, txdb.View(), chosen, {x}, late, popped, vecPriority)
      {
        Tell(list[i], x, chosen, late, popped);
        late := late + {list[i]};
        assert list[..i + 1] == list[..i] + [list[i]];
        i := i + 1;
      }
      assert list[..i] == list;
    }

    /** Tells the transactions that depend on x that it is in the block. */
    method Release(x: Hash, ghost chosen: set<Hash>, ghost popped: set<Hash>)
      requires x !in chosen && x in popped && Linkage(s, txdb.View(), mapDependers)
      requires Waiting(s, txdb.View(), chosen, {}, {}, setDependsOn) &&
        Ready(s, txdb.View(), chosen, {}, {}, popped, vecPriority)
      modifies this`setDependsOn, this`vecPriority
      ensures Waiting(s, txdb.View(), chosen + {x}, {}, {}, setDependsOn)
      ensures Ready(s, txdb.View(), chosen + {x}, {}, {}, popped, vecPriority)
    {
      ghost var db := txdb.View();
      ghost var late: set<Hash> := {};
      NobodyTold(s, db, chosen, x, setDependsOn, popped, vecPriority);
      if x in mapDependers {
        DependersOf(s, db, mapDependers, x);
      }
      hide Waiting, Ready, Linkage, NeedsOf;
      if x in mapDependers {
        late := TellAll(mapDependers[x], x, chosen, popped);
      }
      AllTold(s, db, chosen, x, late, setDependsOn, mapDependers, popped, vecPriority);
    }

    /** The state between the rounds of the main loop. */
    ghost predicate Between(turns: seq<Turn>)
      reads this, txdb
    {
      && ListOk() && Linkage(s, txdb.View(), mapDependers) && TurnsOk(s, txdb.View(), turns)
      && vtx == ListAfter(s, txdb.View(), turns) && (fSortedByFee <==> ByFee(s, txdb.View(), turns))
      && Queues(s, txdb.View(), vtx, TakenIn(turns), setDependsOn, vecPriority)
    }

    /** One round of the main loop. */
    method Round(ghost turns: seq<Turn>) returns (ghost more: seq<Turn>)
      requires Between(turns) && vecPriority != []
      modifies this
      ensures Between(more) && |more| == |turns| + 1 && more[..|turns|] == turns
    {
      hide Waiting, Ready, Linkage, Listed, NeedsOf, HashesOf, Includable, Linked, IsReady, Eligible, KeyLess,
        Key, TurnsOk, ListAfter, ByFee, NextTurn, TakenIn, EndsPriority, Pooled;
      ghost var txs, byFee, queue := vtx, fSortedByFee, vecPriority;
      var h;
      ghost var at;
      h, at := PopBest();
      ghost var t := Turn(h, byFee);
      more := turns + [t];
      TurnTaken(turns, t, queue, at);
      var tx := s.pool[h];
      var included := TryInclude(tx);
      FinishRound(tx, included, txs, TakenIn(turns));
    }

    /** What taking a transaction off the queue means for the turns and the tables. */
    lemma TurnTaken(turns: seq<Turn>, t: Turn, queue: seq<Hash>, at: nat)
      requires Linked(s.prev) && TurnsOk(s, txdb.View(), turns) && (t.byFee <==> ByFee(s, txdb.View(), turns))
      requires (forall h :: h in s.pool ==> s.pool[h].hash == h) && TakenIn(turns) <= s.pool.Keys
      requires Ready(s, txdb.View(), HashesOf(ListAfter(s, txdb.View(), turns)), {}, {}, TakenIn(turns), queue)
      requires at < |queue| && t.h == queue[at]
      requires forall i :: 0 <= i < |queue| ==> !KeyLess(Key(t.byFee, t.h), Key(t.byFee, queue[i]))
      ensures var db, more, txs := txdb.View(), turns + [t], ListAfter(s, txdb.View(), turns);
        && t.h in s.pool && s.pool[t.h].hash == t.h && Eligible(s, t.h) && t.h !in HashesOf(txs)
        && NeedsOf(s, db, t.h) <= HashesOf(txs)
        && TurnsOk(s, db, more) && TakenIn(more) == TakenIn(turns) + {t.h} && TakenIn(more) <= s.pool.Keys
        && ListAfter(s, db, more) ==
           (if Includable(s, db, txs, s.pool[t.h], t.byFee) then txs + [s.pool[t.h]] else txs)
        && (ByFee(s, db, more) <==> t.byFee || EndsPriority(s, db, txs, s.pool[t.h]))
        && Ready(s, db, HashesOf(txs), {}, {}, TakenIn(more), queue[..at] + queue[at + 1..])
    {
      hide Ready, HashesOf, TakenIn, ListAfter, ByFee, NextTurn, Includable, EndsPriority, KeyLess, Key, NeedsOf;
      Popped(s, txdb.View(), HashesOf(ListAfter(s, txdb.View(), turns)), TakenIn(turns), queue, at);
      BestIsNext(turns, t, queue, at);
      TurnsAppend(s, txdb.View(), turns, t);
    }

    /** What is taken off the queue has the next turn. */
    lemma BestIsNext(turns: seq<Turn>, t: Turn, queue: seq<Hash>, at: nat)
      requires Linked(s.prev) && Pooled(s, turns) && (t.byFee <==> ByFee(s, txdb.View(), turns))
      requires Ready(s, txdb.View(), HashesOf(ListAfter(s, txdb.View(), turns)), {}, {}, TakenIn(turns), queue)
      requires at < |queue| && t.h == queue[at]
      requires forall i :: 0 <= i < |queue| ==> !KeyLess(Key(t.byFee, t.h), Key(t.byFee, queue[i]))
      ensures t.h in s.pool && NextTurn(s, txdb.View(), turns, t)
    {
      var chosen := HashesOf(ListAfter(s, txdb.View(), turns));
      hide HashesOf, ListAfter, ByFee, TakenIn, NeedsOf;
      assert forall h :: Seen(chosen, {}, {}, h) == chosen;
      assert t.h in queue;
      forall g | IsReady(s, txdb.View(), chosen, g) && g !in TakenIn(turns) ensures !Before(s, t.byFee, g, t.h) {
        assert IsReady(s, txdb.View(), Seen(chosen, {}, {}, g), g);
        var i :| 0 <= i < |queue| && queue[i] == g;
      }
    }

    /** The rest of the round, when the list was `txs` before it. */
    method FinishRound(tx: Tx, included: bool, ghost txs: seq<Tx>, ghost before: set<Hash>)
      requires Linked(s.prev) && Linkage(s, txdb.View(), mapDependers) && before + {tx.hash} <= s.pool.Keys
      requires (forall h :: h in s.pool ==> s.pool[h].hash == h) && tx.hash in s.pool && s.pool[tx.hash] == tx
      requires Waiting(s, txdb.View(), HashesOf(txs), {}, {}, setDependsOn)
      requires Ready(s, txdb.View(), HashesOf(txs), {}, {}, before + {tx.hash}, vecPriority)
      requires tx.hash !in HashesOf(txs) && vtx == (if included then txs + [tx] else txs)
      modifies this`setDependsOn, this`vecPriority
      ensures Queues(s, txdb.View(), vtx, before + {tx.hash}, setDependsOn, vecPriority)
    {
      HashesAppend(txs, tx);
      hide Waiting, Ready, Linkage, NeedsOf, HashesOf, Linked;
      if included {
        Release(tx.hash, HashesOf(txs), before + {tx.hash});
      }
    }

    /** The main loop: every round takes another transaction off the queue, so it ends. */
    method Fill() returns (ghost turns: seq<Turn>)
      requires Between([])
      modifies this
      ensures Between(turns) && vecPriority == []
    {
      hide Queues, Linkage, Listed, ListAfter, ByFee, Linked;
      turns := [];
      while vecPriority != []
        invariant Between(turns)
        decreases s.pool.Keys - TakenIn(turns)
      {
        ghost var before := turns;
        turns := Round(turns);
        OneMoreTaken(before, turns);
      }
    }

    /** With the candidates collected the main loop can start. */
    lemma Begins()
      requires ListOk() && vtx == [] && (fSortedByFee <==> s.nBlockPrioritySize == 0)
      requires Built(s, txdb.View(), s.pool.Keys, setDependsOn, mapDependers, vecPriority)
      requires forall h :: h in s.pool ==> s.pool[h].hash == h
      ensures Between([])
    {
      hide Built, Linkage, Waiting, Ready, Listed;
      AllBuilt(s, txdb.View(), setDependsOn, mapDependers, vecPriority);
      NoTurns(s, txdb.View());
    }

    /** And when it has ended nothing is forgotten. */
    lemma Ends(turns: seq<Turn>)
      requires Between(turns) && vecPriority == []
      ensures Linked(s.prev) && GoodList(s, txdb.View(), vtx) && nFees == TotalFees(s, txdb.View(), vtx)
      ensures TurnsOk(s, txdb.View(), turns) && vtx == ListAfter(s, txdb.View(), turns)
      ensures NothingForgotten(s, txdb.View(), turns)
      ensures vtx != [] ==> 1000 + TotalSize(s, vtx) < s.nBlockMaxSize
    {
      hide Ready, Listed, NothingForgotten, ListAfter;
      Finished(s, txdb.View(), turns);
      ListedIsGood(s, txdb.View(), vtx, mapTestPool, nBlockSize, nBlockSigOps, nFees);
    }

    lemma OneMoreTaken(before: seq<Turn>, turns: seq<Turn>)
      requires Linked(s.prev) && TurnsOk(s, txdb.View(), turns) && |turns| == |before| + 1
      requires turns[..|before|] == before
      ensures s.pool.Keys - TakenIn(turns) < s.pool.Keys - TakenIn(before)
    {
      var n := |before|;
      assert NextTurn(s, txdb.View(), turns[..n], turns[n]);
      assert turns[n].h in TakenIn(turns) && turns[n].h in s.pool.Keys - TakenIn(before);
      forall h | h in TakenIn(before) ensures h in TakenIn(turns) {
        var k :| 0 <= k < n && before[k].h == h;
        assert turns[k].h == h;
      }
    }
  }

  lemma HashesAppend(txs: seq<Tx>, tx: Tx)
    ensures HashesOf(txs + [tx]) == HashesOf(txs) + {tx.hash}
  {
    forall h | h in HashesOf(txs) + {tx.hash} ensures h in HashesOf(txs + [tx]) {
      if h == tx.hash {
        assert (txs + [tx])[|txs|].hash == h;
      } else {
        var i :| 0 <= i < |txs| && txs[i].hash == h;
        assert (txs + [tx])[i].hash == h;
      }
    }
  }

  lemma DependerAdded(m: Dependers, parent: Hash, list: seq<Hash>, h: Hash)
    requires list == if parent in m then m[parent] else []
    ensures forall p, c :: DependsOnIt(m[parent := list + [h]], p, c) <==>
      DependsOnIt(m, p, c) || (p == parent && c == h)
  {
    var more := m[parent := list + [h]];
    forall p, c ensures DependsOnIt(more, p, c) <==> DependsOnIt(m, p, c) || (p == parent && c == h) {
      if p == parent {
        assert c in more[p] <==> c in list || c == h;
      }
    }
  }

  lemma OneMoreNeed(m0: Dependers, m1: Dependers, m2: Dependers, h: Hash, depends: set<Hash>, parent: Hash)
    requires forall p, c :: DependsOnIt(m1, p, c) <==> DependsOnIt(m0, p, c) || (c == h && p in depends)
    requires forall p, c :: DependsOnIt(m2, p, c) <==> DependsOnIt(m1, p, c) || (p == parent && c == h)
    ensures forall p, c :: DependsOnIt(m2, p, c) <==> DependsOnIt(m0, p, c) || (c == h && p in depends + {parent})
  {
    hide DependsOnIt;
    forall p, c ensures DependsOnIt(m2, p, c) <==> DependsOnIt(m0, p, c) || (c == h && p in depends + {parent}) {
      assert DependsOnIt(m1, p, c) <==> DependsOnIt(m0, p, c) || (c == h && p in depends);
    }
  }

  /** The order of the queue, on pairs of a first and a second key. */
  predicate KeyLess(a: (real, real), b: (real, real)) {
    if a.0 == b.0 then a.1 < b.1 else a.0 < b.0
  }

  lemma KeyLessTotal(a: (real, real), b: (real, real), c: (real, real))
    ensures KeyLess(a, b) && !KeyLess(a, c) ==> !KeyLess(b, c)
    ensures !KeyLess(a, a) && !(KeyLess(a, b) && KeyLess(b, a))
  {
  }

  lemma NeedsStep(o: Oracle, db: IndexMap, tx: Tx, i: nat)
    requires i < |tx.vin|
    ensures Needs(o, db, tx, i + 1) == if OnDisk(o, db, tx.vin[i]) then Needs(o, db, tx, i)
      else Needs(o, db, tx, i) + {tx.vin[i].hash}
  {
  }

  lemma DependersOf(s: Setup, db: IndexMap, dependers: Dependers, x: Hash)
    requires Linkage(s, db, dependers) && x in dependers
    ensures forall i :: 0 <= i < |dependers[x]| ==> Eligible(s, dependers[x][i]) && x in NeedsOf(s, db, dependers[x][i])
  {
    forall i | 0 <= i < |dependers[x]| ensures Eligible(s, dependers[x][i]) && x in NeedsOf(s, db, dependers[x][i]) {
      assert DependsOnIt(dependers, x, dependers[x][i]);
    }
  }

  lemma NobodyTold(s: Setup, db: IndexMap, chosen: set<Hash>, x: Hash, depends: DependsOn, popped: set<Hash>,
                   queue: seq<Hash>)
    requires x in popped && Waiting(s, db, chosen, {}, {}, depends) && Ready(s, db, chosen, {}, {}, popped, queue)
    ensures Waiting(s, db, chosen, {x}, {}, depends) && Ready(s, db, chosen, {x}, {}, popped, queue)
  {
    hide NeedsOf;
    forall h ensures Seen(chosen, {x}, {}, h) == Seen(chosen, {}, {}, h) {
    }
  }

  /** A transaction taken off the queue is ready and was not chosen. */
  lemma Popped(s: Setup, db: IndexMap, chosen: set<Hash>, popped: set<Hash>, queue: seq<Hash>, at: nat)
    requires Ready(s, db, chosen, {}, {}, popped, queue) && at < |queue|
    ensures Ready(s, db, chosen, {}, {}, popped + {queue[at]}, queue[..at] + queue[at + 1..])
    ensures queue[at] !in popped && queue[at] !in chosen && IsReady(s, db, chosen, queue[at])
  {
    var h, less := queue[at], queue[..at] + queue[at + 1..];
    assert h in queue;
    assert Seen(chosen, {}, {}, h) == chosen;
    forall g ensures g in queue <==> g == h || g in less {
      if g in queue {
        var i :| 0 <= i < |queue| && queue[i] == g;
        assert i < at ==> less[i] == g;
        assert i > at ==> less[i - 1] == g;
      }
    }
    forall i | 0 <= i < |less| ensures less[i] != h {
      assert less[i] == queue[if i < at then i else i + 1];
    }
    hide IsReady;
  }

  ghost predicate Listed(s: Setup, db: IndexMap, txs: seq<Tx>, changes: IndexMap, size: nat, sigOps: nat, fees: int)
    requires Linked(s.prev)
  {
    && GoodList(s, db, txs) && db + changes == ViewAfter(db, txs)
    && size == 1000 + TotalSize(s, txs) && sigOps == 100 + TotalSigOps(s, db, txs) && fees == TotalFees(s, db, txs)
  }

  lemma ListedAppend(s: Setup, db: IndexMap, txs: seq<Tx>, changes: IndexMap, size: nat, sigOps: nat, fees: int,
                     tx: Tx, newChanges: IndexMap)
    requires Linked(s.prev) && Listed(s, db, txs, changes, size, sigOps, fees) && Eligible(s, tx.hash) &&
      s.pool[tx.hash] == tx
    requires tx.hash !in HashesOf(txs) && NeedsOf(s, db, tx.hash) <= HashesOf(txs)
    requires Connects(s, ViewAfter(db, txs), tx)
    requires db + newChanges == ApplyTx(ViewAfter(db, txs), tx, MEMPOOL_POS)
    requires size + s.o.txSize(tx) < s.nBlockMaxSize
    requires sigOps + SigOps(s, ViewAfter(db, txs), tx) < MAX_BLOCK_SIGOPS
    ensures Listed(s, db, txs + [tx], newChanges, size + s.o.txSize(tx), sigOps + SigOps(s, ViewAfter(db, txs), tx),
                   fees + Fee(s, ViewAfter(db, txs), tx))
  {
    FromPoolAppend(s, txs, tx);
    ParentsFirstAppend(s, db, txs, tx);
    InOrderAppend(s, db, txs, tx);
    TotalsAppend(s, db, txs, tx);
  }

  lemma TotalsAppend(s: Setup, db: IndexMap, txs: seq<Tx>, tx: Tx)
    ensures ViewAfter(db, txs + [tx]) == ApplyTx(ViewAfter(db, txs), tx, MEMPOOL_POS)
    ensures TotalSize(s, txs + [tx]) == TotalSize(s, txs) + s.o.txSize(tx)
    ensures TotalSigOps(s, db, txs + [tx]) == TotalSigOps(s, db, txs) + SigOps(s, ViewAfter(db, txs), tx)
    ensures TotalFees(s, db, txs + [tx]) == TotalFees(s, db, txs) + Fee(s, ViewAfter(db, txs), tx)
  {
    assert (txs + [tx])[..|txs|] == txs;
  }

  lemma FromPoolAppend(s: Setup, txs: seq<Tx>, tx: Tx)
    requires FromPool(s, txs) && Eligible(s, tx.hash) && s.pool[tx.hash] == tx && tx.hash !in HashesOf(txs)
    ensures FromPool(s, txs + [tx])
  {
    forall i | 0 <= i < |txs| ensures txs[i].hash != tx.hash {
      assert txs[i].hash in HashesOf(txs);
    }
  }

  lemma ParentsFirstAppend(s: Setup, db: IndexMap, txs: seq<Tx>, tx: Tx)
    requires ParentsFirst(s, db, txs) && Eligible(s, tx.hash) && NeedsOf(s, db, tx.hash) <= HashesOf(txs)
    ensures ParentsFirst(s, db, txs + [tx])
  {
    var more := txs + [tx];
    forall i | 0 <= i < |more| ensures NeedsBefore(s, db, more, i) {
      if i < |txs| {
        assert more[..i] == txs[..i];
        assert NeedsBefore(s, db, txs, i);
      } else {
        assert more[..i] == txs;
      }
    }
  }

  lemma InOrderAppend(s: Setup, db: IndexMap, txs: seq<Tx>, tx: Tx)
    requires Linked(s.prev) && InOrder(s, db, txs) && Connects(s, ViewAfter(db, txs), tx)
    ensures InOrder(s, db, txs + [tx])
  {
    var more := txs + [tx];
    forall k: nat | k < |more| ensures ConnectsAt(s, db, more, k) {
      if k < |txs| {
        ConnectsAtPrefix(s, db, txs, tx, k);
      } else {
        assert more[..k] == txs;
      }
    }
  }

  lemma ConnectsAtPrefix(s: Setup, db: IndexMap, txs: seq<Tx>, tx: Tx, k: nat)
    requires Linked(s.prev) && k < |txs| && ConnectsAt(s, db, txs, k)
    ensures ConnectsAt(s, db, txs + [tx], k)
  {
    hide Connects, ViewAfter;
    assert (txs + [tx])[..k] == txs[..k] && (txs + [tx])[k] == txs[k];
  }

  // --------------------------------------------------------------------- CreateNewBlock

  function Clamp(lo: int, n: int, hi: int): int {
    if n > hi then hi else if n < lo then lo else n
  }

  /** The options, brought into the range the limits allow. */
  function Clamped(s: Setup): Setup {
    var maxSize := Clamp(1000, s.nBlockMaxSize, MAX_BLOCK_SIZE - 1000);
    s.(nBlockMaxSize := maxSize, nBlockPrioritySize := Clamp(0, s.nBlockPrioritySize, maxSize),
       nBlockMinSize := Clamp(0, s.nBlockMinSize, maxSize))
  }

  /** The turns go on until nothing is left that is ready and has not had one: every transaction
      that could have been in the block is, or was refused in its turn, or needs one that is not. */
  ghost predicate NothingForgotten(s: Setup, db: IndexMap, turns: seq<Turn>)
    requires Linked(s.prev) && Pooled(s, turns)
  {
    var chosen := HashesOf(ListAfter(s, db, turns));
    && (forall h :: IsReady(s, db, chosen, h) ==> h in TakenIn(turns))
    && forall h :: Eligible(s, h) && h !in chosen ==>
      Refused(s, db, turns, h) || !(NeedsOf(s, db, h) <= chosen)
  }

  /** Options out of range are brought to the nearest limit, and others are kept. */
  lemma ClampedNearest(s: Setup)
    ensures var c := Clamped(s);
      && 1000 <= c.nBlockMaxSize <= 19_999_000 && c.nBlockPrioritySize <= c.nBlockMaxSize
      && c.nBlockMinSize <= c.nBlockMaxSize
      && (1000 <= s.nBlockMaxSize <= 19_999_000 ==> c.nBlockMaxSize == s.nBlockMaxSize)
      && (s.nBlockMaxSize < 1000 ==> c.nBlockMaxSize == 1000)
      && (s.nBlockMaxSize > 19_999_000 ==> c.nBlockMaxSize == 19_999_000)
      && (s.nBlockPrioritySize <= c.nBlockMaxSize ==> c.nBlockPrioritySize == s.nBlockPrioritySize)
      && (s.nBlockPrioritySize > c.nBlockMaxSize ==> c.nBlockPrioritySize == c.nBlockMaxSize)
      && (s.nBlockMinSize <= c.nBlockMaxSize ==> c.nBlockMinSize == s.nBlockMinSize)
      && (s.nBlockMinSize > c.nBlockMaxSize ==> c.nBlockMinSize == c.nBlockMaxSize)
  {
  }

  /** The transactions of a block template, after the coinbase, and their fees. */
  method CreateNewBlock(options: Setup, txdb: CTxDB) returns (vtx: seq<Tx>, nFees: int, ghost turns: seq<Turn>)
    requires Linked(options.prev) && InputsKnown(options, txdb.View())
    ensures var s, db := Clamped(options), txdb.View();
      && GoodList(s, db, vtx) && nFees == TotalFees(s, db, vtx)
      && TurnsOk(s, db, turns) && vtx == ListAfter(s, db, turns) && NothingForgotten(s, db, turns)
    ensures vtx != [] ==> 1000 + TotalSize(Clamped(options), vtx) < MAX_BLOCK_SIZE - 1000
  {
    hide *;
    var s := Clamped(options);
    SameNeeds(options, s, txdb.View());
    var t := new CBlockTemplate(s, txdb);
    t.CollectCandidates();
    t.Begins();
    turns := t.Fill();
    vtx, nFees := t.vtx, t.nFees;
    t.Ends(turns);
    Allowed(options);
  }

  lemma Allowed(options: Setup)
    ensures Clamped(options).nBlockMaxSize <= MAX_BLOCK_SIZE - 1000
  {
  }

  lemma NoTurns(s: Setup, db: IndexMap)
    requires Linked(s.prev)
    ensures TurnsOk(s, db, []) && ListAfter(s, db, []) == [] && (ByFee(s, db, []) <==> s.nBlockPrioritySize == 0)
    ensures TakenIn([]) == {} && HashesOf([]) == {}
  {
  }

  lemma SameNeeds(options: Setup, s: Setup, db: IndexMap)
    requires s == Clamped(options) && InputsKnown(options, db)
    ensures InputsKnown(s, db) && s.prev == options.prev && forall h :: h in s.pool ==> s.pool[h].hash == h
  {
  }

  lemma ListedIsGood(s: Setup, db: IndexMap, txs: seq<Tx>, changes: IndexMap, size: nat, sigOps: nat, fees: int)
    requires Linked(s.prev) && Listed(s, db, txs, changes, size, sigOps, fees)
    ensures GoodList(s, db, txs) && fees == TotalFees(s, db, txs)
    ensures txs != [] ==> 1000 + TotalSize(s, txs) < s.nBlockMaxSize
  {
  }

  /** With an empty queue everything that is ready has been taken. */
  lemma Finished(s: Setup, db: IndexMap, turns: seq<Turn>)
    requires Linked(s.prev) && Pooled(s, turns) && (forall h :: h in s.pool ==> s.pool[h].hash == h)
    requires Ready(s, db, HashesOf(ListAfter(s, db, turns)), {}, {}, TakenIn(turns), [])
    ensures NothingForgotten(s, db, turns)
  {
    var chosen := HashesOf(ListAfter(s, db, turns));
    hide NeedsOf, Refused, HashesOf, ListAfter, TakenIn;
    forall h | IsReady(s, db, chosen, h) ensures h in TakenIn(turns) {
      assert Seen(chosen, {}, {}, h) == chosen;
    }
    forall h | Eligible(s, h) && h !in chosen && NeedsOf(s, db, h) <= chosen ensures Refused(s, db, turns, h) {
      assert IsReady(s, db, chosen, h);
      ListedOrRefused(s, db, turns, h);
    }
  }
}
