/** The memory pool (CTxMemPool in src/main.h and src/main.cpp): transactions and, for every
    outpoint they spend, which of their inputs spends it. */
module MemPool {
  import opened Wrappers
  import opened Numbers
  import opened Transactions
  import opened Blocks
  import opened TxDatabase
  import opened Inputs
  import opened Spend

  datatype InPoint = InPoint(hash: Hash, n: nat)

  /** `mapNextTx` is exactly the inverse of the inputs of the pooled transactions. */
  ghost predicate Inverse(pool: Pool, next: map<OutPoint, InPoint>) {
    && (forall h :: h in pool ==> pool[h].hash == h)
    && (forall h, i :: h in pool && 0 <= i < |pool[h].vin| ==>
          pool[h].vin[i] in next && next[pool[h].vin[i]] == InPoint(h, i))
    && (forall op :: op in next ==> SpentAt(pool, op, next[op]))
  }

  ghost predicate SpentAt(pool: Pool, op: OutPoint, p: InPoint) {
    p.hash in pool && p.n < |pool[p.hash].vin| && pool[p.hash].vin[p.n] == op
  }

  /** No two inputs in the pool name the same outpoint. */
  lemma NoDoubleSpend(pool: Pool, next: map<OutPoint, InPoint>, g: Hash, i: nat, h: Hash, j: nat)
    requires Inverse(pool, next) && g in pool && h in pool && i < |pool[g].vin| && j < |pool[h].vin|
    requires pool[g].vin[i] == pool[h].vin[j]
    ensures g == h && i == j
  {
  }

  /** A transaction's hash covers the hashes it spends, so spending never goes in a circle:
      `rank` is smaller for the spent transaction. */
  ghost predicate Ranked(rank: Hash -> nat, tx: Tx) {
    forall i :: 0 <= i < |tx.vin| ==> rank(tx.vin[i].hash) < rank(tx.hash)
  }

  ghost predicate AllRanked(rank: Hash -> nat, pool: Pool) {
    forall h :: h in pool ==> pool[h].hash == h && Ranked(rank, pool[h])
  }

  /** The i-th input of `d` spends an output that the pooled transaction it names has. */
  ghost predicate SpendsPooled(pool: Pool, d: Hash, i: nat) {
    d in pool && i < |pool[d].vin| && pool[d].vin[i].hash in pool && pool[d].vin[i].n < |pool[pool[d].vin[i].hash].vout|
  }

  /** `d` is `a` or spends, through pooled transactions, from it. */
  ghost predicate IsDesc(rank: Hash -> nat, pool: Pool, a: Hash, d: Hash)
    requires AllRanked(rank, pool)
    decreases rank(d)
  {
    d in pool && (d == a || exists i: nat :: SpendsPooled(pool, d, i) && IsDesc(rank, pool, a, pool[d].vin[i].hash))
  }

  ghost function Descendants(rank: Hash -> nat, pool: Pool, a: Hash): set<Hash>
    requires AllRanked(rank, pool)
  {
    set d | d in pool && IsDesc(rank, pool, a, d)
  }

  lemma {:induction false} DescRank(rank: Hash -> nat, pool: Pool, a: Hash, d: Hash)
    requires AllRanked(rank, pool) && IsDesc(rank, pool, a, d)
    ensures a in pool && (d == a || rank(a) < rank(d))
    decreases rank(d)
  {
    if d != a {
      var i: nat :| SpendsPooled(pool, d, i) && IsDesc(rank, pool, a, pool[d].vin[i].hash);
      DescRank(rank, pool, a, pool[d].vin[i].hash);
    }
  }

  lemma {:induction false} DescTrans(rank: Hash -> nat, pool: Pool, a: Hash, b: Hash, c: Hash)
    requires AllRanked(rank, pool) && IsDesc(rank, pool, a, b) && IsDesc(rank, pool, b, c)
    ensures IsDesc(rank, pool, a, c)
    decreases rank(c)
  {
    if c != b {
      var i: nat :| SpendsPooled(pool, c, i) && IsDesc(rank, pool, b, pool[c].vin[i].hash);
      DescTrans(rank, pool, a, b, pool[c].vin[i].hash);
    }
  }

  /** Pooled transactions ranked no lower than `h`: what bounds the recursion of remove. */
  ghost function NotBelow(rank: Hash -> nat, pool: Pool, h: Hash): set<Hash> {
    set g | g in pool && rank(g) >= rank(h)
  }

  lemma NotBelowShrinks(rank: Hash -> nat, pool: Pool, left: Pool, h: Hash, c: Hash)
    requires left.Keys <= pool.Keys && h in pool && rank(h) < rank(c)
    ensures NotBelow(rank, left, c) < NotBelow(rank, pool, h)
  {
    assert h in NotBelow(rank, pool, h) && h !in NotBelow(rank, left, c);
  }

  /** `gone` contains the descendants of its members. */
  ghost predicate Closed(rank: Hash -> nat, pool: Pool, gone: set<Hash>)
    requires AllRanked(rank, pool)
  {
    forall a, d :: a in gone && IsDesc(rank, pool, a, d) ==> d in gone
  }

  /** Taking out a set that is closed under descendants leaves the other ancestries alone. */
  lemma {:induction false} DescWithout(rank: Hash -> nat, pool: Pool, gone: set<Hash>, a: Hash, d: Hash)
    requires AllRanked(rank, pool) && Closed(rank, pool, gone)
    ensures AllRanked(rank, pool - gone)
    ensures IsDesc(rank, pool - gone, a, d) <==> IsDesc(rank, pool, a, d) && d !in gone
    decreases rank(d)
  {
    var rest := pool - gone;
    forall i: nat | SpendsPooled(pool, d, i) && d !in gone
      ensures SpendsPooled(rest, d, i)
      ensures IsDesc(rank, rest, a, pool[d].vin[i].hash) <==> IsDesc(rank, pool, a, pool[d].vin[i].hash)
    {
      var p := pool[d].vin[i].hash;
      assert IsDesc(rank, pool, p, p);
      assert IsDesc(rank, pool, p, d);
      DescWithout(rank, pool, gone, a, p);
    }
    forall i: nat | SpendsPooled(rest, d, i)
      ensures SpendsPooled(pool, d, i)
      ensures IsDesc(rank, rest, a, pool[d].vin[i].hash) ==> IsDesc(rank, pool, a, pool[d].vin[i].hash)
    {
      DescWithout(rank, pool, gone, a, pool[d].vin[i].hash);
    }
  }

  /** The children a transaction has through its first k outputs, and their descendants. */
  ghost function Below(rank: Hash -> nat, pool: Pool, h: Hash, k: nat): set<Hash>
    requires AllRanked(rank, pool)
  {
    set d | d in pool && BelowOutput(rank, pool, h, k, d)
  }

  ghost predicate BelowOutput(rank: Hash -> nat, pool: Pool, h: Hash, k: nat, d: Hash)
    requires AllRanked(rank, pool)
  {
    exists c: Hash, i: nat :: ChildAt(pool, h, k, c, i) && IsDesc(rank, pool, c, d)
  }

  ghost predicate ChildAt(pool: Pool, h: Hash, k: nat, c: Hash, i: nat) {
    SpendsPooled(pool, c, i) && pool[c].vin[i].hash == h && pool[c].vin[i].n < k
  }

  lemma BelowNothing(rank: Hash -> nat, pool: Pool, h: Hash)
    requires AllRanked(rank, pool)
    ensures pool - Below(rank, pool, h, 0) == pool
  {
    assert Below(rank, pool, h, 0) == {};
  }

  lemma BelowClosed(rank: Hash -> nat, pool: Pool, h: Hash, k: nat)
    requires AllRanked(rank, pool)
    ensures Closed(rank, pool, Below(rank, pool, h, k))
  {
    forall a, d | a in Below(rank, pool, h, k) && IsDesc(rank, pool, a, d) ensures d in Below(rank, pool, h, k) {
      var c: Hash, i: nat :| ChildAt(pool, h, k, c, i) && IsDesc(rank, pool, c, a);
      DescTrans(rank, pool, c, a, d);
    }
  }

  lemma NotBelowItself(rank: Hash -> nat, pool: Pool, h: Hash, k: nat)
    requires AllRanked(rank, pool)
    ensures h !in Below(rank, pool, h, k)
  {
    if h in Below(rank, pool, h, k) {
      var c: Hash, i: nat :| ChildAt(pool, h, k, c, i) && IsDesc(rank, pool, c, h);
      DescRank(rank, pool, c, h);
    }
  }

  lemma {:induction false} DescIsBelow(rank: Hash -> nat, pool: Pool, h: Hash, d: Hash)
    requires AllRanked(rank, pool) && h in pool
    ensures IsDesc(rank, pool, h, d) <==> d == h || d in Below(rank, pool, h, |pool[h].vout|)
    decreases rank(d)
  {
    var k := |pool[h].vout|;
    if IsDesc(rank, pool, h, d) && d != h {
      var i: nat :| SpendsPooled(pool, d, i) && IsDesc(rank, pool, h, pool[d].vin[i].hash);
      var p := pool[d].vin[i].hash;
      DescIsBelow(rank, pool, h, p);
      if p == h {
        assert ChildAt(pool, h, k, d, i) && IsDesc(rank, pool, d, d);
      } else {
        BelowClosed(rank, pool, h, k);
        assert IsDesc(rank, pool, p, p) && IsDesc(rank, pool, p, d);
      }
    }
    if d in Below(rank, pool, h, k) {
      var c: Hash, i: nat :| ChildAt(pool, h, k, c, i) && IsDesc(rank, pool, c, d);
      assert IsDesc(rank, pool, h, h);
      assert SpendsPooled(pool, c, i) && IsDesc(rank, pool, h, pool[c].vin[i].hash);
      DescTrans(rank, pool, h, c, d);
    }
  }

  lemma BelowStep(rank: Hash -> nat, pool: Pool, next: map<OutPoint, InPoint>, h: Hash, k: nat, c: Hash)
    requires AllRanked(rank, pool) && Inverse(pool, next) && h in pool && k < |pool[h].vout|
    requires OutPoint(h, k) in next && next[OutPoint(h, k)].hash == c
    ensures Below(rank, pool, h, k + 1) == Below(rank, pool, h, k) + Descendants(rank, pool, c)
  {
    var j := next[OutPoint(h, k)].n;
    assert SpentAt(pool, OutPoint(h, k), next[OutPoint(h, k)]);
    assert ChildAt(pool, h, k + 1, c, j);
    forall d | d in Below(rank, pool, h, k + 1) ensures d in Below(rank, pool, h, k) + Descendants(rank, pool, c) {
      var e: Hash, i: nat :| ChildAt(pool, h, k + 1, e, i) && IsDesc(rank, pool, e, d);
      if pool[e].vin[i].n < k {
        assert ChildAt(pool, h, k, e, i);
      } else {
        assert pool[e].vin[i] == OutPoint(h, k);
      }
    }
    forall d | d in Below(rank, pool, h, k) ensures d in Below(rank, pool, h, k + 1) {
      var e: Hash, i: nat :| ChildAt(pool, h, k, e, i) && IsDesc(rank, pool, e, d);
      assert ChildAt(pool, h, k + 1, e, i);
    }
  }

  /** If output k has no spender left, its spender and descendants are already gone. */
  lemma BelowSkip(rank: Hash -> nat, pool: Pool, h: Hash, k: nat, next: map<OutPoint, InPoint>)
    requires AllRanked(rank, pool) && h in pool && k < |pool[h].vout|
    requires Inverse(pool - Below(rank, pool, h, k), next) && OutPoint(h, k) !in next
    ensures Below(rank, pool, h, k + 1) == Below(rank, pool, h, k)
  {
    var gone := Below(rank, pool, h, k);
    var left := pool - gone;
    assert forall e, i :: e in left && 0 <= i < |left[e].vin| ==> left[e].vin[i] != OutPoint(h, k);
    BelowClosed(rank, pool, h, k);
    forall d | d in Below(rank, pool, h, k + 1) ensures d in gone {
      var e: Hash, i: nat :| ChildAt(pool, h, k + 1, e, i) && IsDesc(rank, pool, e, d);
      if pool[e].vin[i].n < k {
        assert ChildAt(pool, h, k, e, i);
      } else {
        assert pool[e].vin[i] == OutPoint(h, k);
        assert e !in left;
      }
    }
    forall d | d in gone ensures d in Below(rank, pool, h, k + 1) {
      var e: Hash, i: nat :| ChildAt(pool, h, k, e, i) && IsDesc(rank, pool, e, d);
      assert ChildAt(pool, h, k + 1, e, i);
    }
  }

  /** Removing the spender of output k, with its descendants, from what is left. */
  lemma SpenderStep(rank: Hash -> nat, pool: Pool, next: map<OutPoint, InPoint>, h: Hash, k: nat,
                    left: Pool, leftNext: map<OutPoint, InPoint>)
    requires AllRanked(rank, pool) && Inverse(pool, next) && h in pool && k < |pool[h].vout|
    requires AllRanked(rank, left) && Inverse(left, leftNext) && left == pool - Below(rank, pool, h, k)
    requires OutPoint(h, k) in leftNext
    ensures var c := leftNext[OutPoint(h, k)].hash;
      c in left && left[c].hash == c && rank(h) < rank(c)
      && left - Descendants(rank, left, c) == pool - Below(rank, pool, h, k + 1)
  {
    hide IsDesc, Inverse, AllRanked, Closed, Below, Descendants;
    var p, gone := leftNext[OutPoint(h, k)], Below(rank, pool, h, k);
    var c := p.hash;
    SpenderLeft(pool, next, gone, left, leftNext, OutPoint(h, k));
    SpenderRanked(rank, left, leftNext, OutPoint(h, k));
    BelowClosed(rank, pool, h, k);
    DescendantsLeft(rank, pool, gone, c);
    BelowStep(rank, pool, next, h, k, c);
    LessTwice(pool, gone, Descendants(rank, pool, c));
  }

  lemma SpenderRanked(rank: Hash -> nat, left: Pool, leftNext: map<OutPoint, InPoint>, op: OutPoint)
    requires AllRanked(rank, left) && Inverse(left, leftNext) && op in leftNext
    ensures var c := leftNext[op].hash; c in left && left[c].hash == c && rank(op.hash) < rank(c)
  {
    var p := leftNext[op];
    assert SpentAt(left, op, p);
    assert Ranked(rank, left[p.hash]);
  }

  lemma LessTwice(pool: Pool, a: set<Hash>, b: set<Hash>)
    ensures (pool - a) - (b - a) == pool - (a + b)
  {
  }

  /** Of the descendants those that have not gone are left. */
  lemma DescendantsLeft(rank: Hash -> nat, pool: Pool, gone: set<Hash>, c: Hash)
    requires AllRanked(rank, pool) && AllRanked(rank, pool - gone) && Closed(rank, pool, gone)
    ensures Descendants(rank, pool - gone, c) == Descendants(rank, pool, c) - gone
  {
    forall d | d in pool ensures d in Descendants(rank, pool - gone, c) <==>
      d in Descendants(rank, pool, c) && d !in gone {
      DescWithout(rank, pool, gone, c, d);
    }
  }

  // ---------------------------------------------------------------- conflicts of a block

  /** Spender of the i-th input of `tx`, if it is another pooled transaction. */
  ghost predicate ConflictAt(next: map<OutPoint, InPoint>, tx: Tx, i: nat, c: Hash) {
    i < |tx.vin| && tx.vin[i] in next && next[tx.vin[i]].hash == c && c != tx.hash
  }

  ghost predicate BelowConflict(rank: Hash -> nat, pool: Pool, next: map<OutPoint, InPoint>, tx: Tx, k: nat, d: Hash)
    requires AllRanked(rank, pool)
  {
    exists c: Hash, i: nat :: i < k && ConflictAt(next, tx, i, c) && IsDesc(rank, pool, c, d)
  }

  /** The transactions that conflict with the first k inputs of `tx`, and what descends
      from them. */
  ghost function Conflicts(rank: Hash -> nat, pool: Pool, next: map<OutPoint, InPoint>, tx: Tx, k: nat): set<Hash>
    requires AllRanked(rank, pool)
  {
    set d | d in pool && BelowConflict(rank, pool, next, tx, k, d)
  }

  lemma ConflictsClosed(rank: Hash -> nat, pool: Pool, next: map<OutPoint, InPoint>, tx: Tx, k: nat)
    requires AllRanked(rank, pool)
    ensures Closed(rank, pool, Conflicts(rank, pool, next, tx, k))
  {
    var gone := Conflicts(rank, pool, next, tx, k);
    forall a, d | a in gone && IsDesc(rank, pool, a, d) ensures d in gone {
      var c: Hash, i: nat :| i < k && ConflictAt(next, tx, i, c) && IsDesc(rank, pool, c, a);
      DescTrans(rank, pool, c, a, d);
    }
  }

  /** One round of removeConflicts: what is left once the k-th input's conflict is gone. */
  lemma ConflictStep(rank: Hash -> nat, pool: Pool, next: map<OutPoint, InPoint>, tx: Tx, k: nat,
                     left: Pool, leftNext: map<OutPoint, InPoint>)
    requires AllRanked(rank, pool) && Inverse(pool, next) && k < |tx.vin|
    requires AllRanked(rank, left) && Inverse(left, leftNext) && left == pool - Conflicts(rank, pool, next, tx, k)
    ensures !(tx.vin[k] in leftNext && leftNext[tx.vin[k]].hash != tx.hash) ==>
      left == pool - Conflicts(rank, pool, next, tx, k + 1)
    ensures tx.vin[k] in leftNext && leftNext[tx.vin[k]].hash != tx.hash ==>
      var c := leftNext[tx.vin[k]].hash;
      c in left && left[c].hash == c &&
        left - Descendants(rank, left, c) == pool - Conflicts(rank, pool, next, tx, k + 1)
  {
    hide IsDesc, Inverse, AllRanked, Closed, Conflicts, Descendants;
    var op, gone := tx.vin[k], Conflicts(rank, pool, next, tx, k);
    ConflictsClosed(rank, pool, next, tx, k);
    MoreConflicts(rank, pool, next, tx, k);
    SpenderLeft(pool, next, gone, left, leftNext, op);
    if op in next && next[op].hash != tx.hash {
      var c := next[op].hash;
      if op in leftNext {
        SpenderRanked(rank, left, leftNext, op);
        DescendantsLeft(rank, pool, gone, c);
        LessTwice(pool, gone, Descendants(rank, pool, c));
      } else {
        DescendantsGone(rank, pool, gone, c);
      }
    }
  }

  lemma DescendantsGone(rank: Hash -> nat, pool: Pool, gone: set<Hash>, c: Hash)
    requires AllRanked(rank, pool) && Closed(rank, pool, gone) && c in gone
    ensures gone + Descendants(rank, pool, c) == gone
  {
  }

  /** What one input more adds to the conflicts. */
  lemma MoreConflicts(rank: Hash -> nat, pool: Pool, next: map<OutPoint, InPoint>, tx: Tx, k: nat)
    requires AllRanked(rank, pool) && k < |tx.vin|
    ensures var op, gone := tx.vin[k], Conflicts(rank, pool, next, tx, k);
      Conflicts(rank, pool, next, tx, k + 1) ==
        if op in next && next[op].hash != tx.hash then gone + Descendants(rank, pool, next[op].hash) else gone
  {
    var op, gone, more := tx.vin[k], Conflicts(rank, pool, next, tx, k), Conflicts(rank, pool, next, tx, k + 1);
    forall d | d in gone ensures d in more {
      var c: Hash, i: nat :| i < k && ConflictAt(next, tx, i, c) && IsDesc(rank, pool, c, d);
      assert i < k + 1 && ConflictAt(next, tx, i, c);
    }
    forall d | d in more && d !in gone
      ensures op in next && next[op].hash != tx.hash && IsDesc(rank, pool, next[op].hash, d)
    {
      var e: Hash, i: nat :| i < k + 1 && ConflictAt(next, tx, i, e) && IsDesc(rank, pool, e, d);
      assert i == k;
    }
    if op in next && next[op].hash != tx.hash {
      assert ConflictAt(next, tx, k, next[op].hash);
      forall d | d in Descendants(rank, pool, next[op].hash) ensures d in more {
      }
    }
  }

  /** The spender of an outpoint is still there, or it is one of those that went. */
  lemma SpenderLeft(pool: Pool, next: map<OutPoint, InPoint>, gone: set<Hash>, left: Pool,
                    leftNext: map<OutPoint, InPoint>, op: OutPoint)
    requires Inverse(pool, next) && Inverse(left, leftNext) && left == pool - gone
    ensures op in leftNext ==> op in next && next[op] == leftNext[op] && leftNext[op].hash in left
    ensures op in next && op !in leftNext ==> next[op].hash in gone
  {
    if op in leftNext {
      // the outpoint of a spender left is the one it has in the pool
      var p := leftNext[op];
      assert SpentAt(left, op, p);
      assert pool[p.hash].vin[p.n] == op;
    }
    if op in next {
      assert SpentAt(pool, op, next[op]);
      if next[op].hash in left {
        assert left[next[op].hash].vin[next[op].n] in leftNext;
      }
    }
  }

  lemma EraseKeepsInverse(pool: Pool, next: map<OutPoint, InPoint>, h: Hash, rest: map<OutPoint, InPoint>)
    requires Inverse(pool, next) && h in pool
    requires forall op :: op in rest <==> op in next && op !in pool[h].vin
    requires forall op :: op in rest ==> rest[op] == next[op]
    ensures Inverse(pool - {h}, rest)
  {
    var smaller := pool - {h};
    forall g, i | g in smaller && 0 <= i < |smaller[g].vin|
      ensures smaller[g].vin[i] in rest && rest[smaller[g].vin[i]] == InPoint(g, i)
    {
    }
    forall op | op in rest ensures SpentAt(smaller, op, rest[op]) {
      assert SpentAt(pool, op, next[op]);
    }
  }

  /** What accept asks of code that is not modelled: standardness with the lock-time limit,
      standardness of the inputs, and the limiter of free transactions. */
  datatype Policy = Policy(
    standard: Tx -> bool,
    inputsStandard: (Tx, PrevTxs) -> bool,
    rateLimited: Tx -> bool)

  const MIN_RELAY_TX_FEE: int := MIN_TX_FEE

  /** GetMinFee with relay fees: the base fee per kilobyte, raised as the block fills up. */
  function MinFee(blockSize: nat, bytes: nat): (fee: int)
    ensures MIN_RELAY_TX_FEE <= fee <= MAX_MONEY
  {
    var newSize := blockSize + bytes;
    var fee := (1 + bytes / 1000) * MIN_RELAY_TX_FEE;
    if blockSize != 1 && newSize >= MAX_BLOCK_SIZE_GEN then MAX_MONEY
    else
      var raised := if blockSize != 1 && newSize >= MAX_BLOCK_SIZE_GEN / 2
                    then fee * (MAX_BLOCK_SIZE_GEN / (MAX_BLOCK_SIZE_GEN - newSize)) else fee;
      FeeGrows(fee, if blockSize != 1 && newSize >= MAX_BLOCK_SIZE_GEN / 2 then MAX_BLOCK_SIZE_GEN - newSize
        else MAX_BLOCK_SIZE_GEN);
      if MoneyRange(raised) then raised else MAX_MONEY
  }

  lemma FeeGrows(fee: int, room: int)
    requires fee >= MIN_RELAY_TX_FEE && 0 < room <= MAX_BLOCK_SIZE_GEN
    ensures fee * (MAX_BLOCK_SIZE_GEN / room) >= MIN_RELAY_TX_FEE
  {
    var q := MAX_BLOCK_SIZE_GEN / room;
    assert q >= 1;
    assert fee * q >= fee * 1;
  }

  /** A fee of `fee` raised for a block of a size. */
  ghost function Raised(fee: int, newSize: nat): int {
    if newSize >= 10_000_000 then MAX_MONEY
    else
      var r := if newSize >= 5_000_000 then fee * (10_000_000 / (10_000_000 - newSize)) else fee;
      if r <= MAX_MONEY then r else MAX_MONEY
  }

  lemma RaisedGrows(fee: int, newSize: nat, more: int, bigger: nat)
    requires MIN_RELAY_TX_FEE <= fee <= more && newSize <= bigger
    ensures Raised(fee, newSize) <= Raised(more, bigger)
  {
    if 5_000_000 <= bigger < 10_000_000 {
      var p := if newSize >= 5_000_000 then 10_000_000 / (10_000_000 - newSize) else 1;
      var q := 10_000_000 / (10_000_000 - bigger);
      if newSize >= 5_000_000 {
        QuotientGrows(10_000_000, 10_000_000 - newSize, 10_000_000 - bigger);
      }
      TimesGrows(fee, more, p, q);
      RaisedAt(fee, newSize, p);
      RaisedAt(more, bigger, q);
    }
  }

  lemma RaisedAt(fee: int, size: nat, q: int)
    requires size < 10_000_000 && q == if size >= 5_000_000 then 10_000_000 / (10_000_000 - size) else 1
    ensures Raised(fee, size) == if fee * q <= MAX_MONEY then fee * q else MAX_MONEY
  {
  }

  /** The fee for each started kilobyte, in a block less than half full; more when it is fuller,
      and never less for a bigger transaction or a fuller block. */
  lemma FeeSteps(blockSize: nat, bytes: nat, fuller: nat, bigger: nat)
    requires blockSize != 1 && fuller != 1 && blockSize <= fuller && bytes <= bigger
    ensures MinFee(blockSize, bytes) == Raised((1 + bytes / 1000) * 10_000, blockSize + bytes)
    ensures MinFee(blockSize, bytes) <= MinFee(fuller, bigger)
  {
    RaisedIs(blockSize, bytes);
    RaisedIs(fuller, bigger);
    hide MinFee, Raised;
    assert bytes / 1000 <= bigger / 1000;
    RaisedGrows((1 + bytes / 1000) * 10_000, blockSize + bytes, (1 + bigger / 1000) * 10_000, fuller + bigger);
  }

  lemma RaisedIs(blockSize: nat, bytes: nat)
    requires blockSize != 1
    ensures MinFee(blockSize, bytes) == Raised((1 + bytes / 1000) * 10_000, blockSize + bytes)
  {
    var fee, size := (1 + bytes / 1000) * 10_000, blockSize + bytes;
    if 5_000_000 <= size < 10_000_000 {
      FeeGrows(fee, 10_000_000 - size);
      var raised := fee * (MAX_BLOCK_SIZE_GEN / (MAX_BLOCK_SIZE_GEN - size));
      assert MinFee(blockSize, bytes) == if raised <= MAX_MONEY then raised else MAX_MONEY;
    }
  }

  class CTxMemPool {
    ghost const rank: Hash -> nat
    var mapTx: Pool
    var mapNextTx: map<OutPoint, InPoint>

    constructor (ghost rank: Hash -> nat)
      ensures this.rank == rank && mapTx == map[] && Valid()
    {
      this.rank, mapTx, mapNextTx := rank, map[], map[];
    }

    ghost predicate Valid()
      reads this
    {
      Inverse(mapTx, mapNextTx) && AllRanked(rank, mapTx)
    }

    /** The given transaction is the pooled one of the same hash, if there is one. */
    ghost predicate Same(tx: Tx)
      reads this
    {
      tx.hash in mapTx ==> mapTx[tx.hash] == tx
    }

    /** CTxMemPool::remove: a transaction, or it with everything that descends from it. */
    method Remove(tx: Tx, recursive: bool)
      requires Valid() && Same(tx)
      modifies this
      ensures Valid()
      ensures tx.hash !in old(mapTx) ==> mapTx == old(mapTx)
      ensures tx.hash in old(mapTx) && !recursive ==> mapTx == old(mapTx) - {tx.hash}
      ensures tx.hash in old(mapTx) && recursive ==> mapTx == old(mapTx) - Descendants(rank, old(mapTx), tx.hash)
      decreases NotBelow(rank, mapTx, tx.hash)
    {
      if tx.hash !in mapTx {
        return;
      }
      ghost var pool, gone := mapTx, {};
      if recursive {
        RemoveBelow(tx);
        NotBelowItself(rank, pool, tx.hash, |tx.vout|);
        gone := Below(rank, pool, tx.hash, |tx.vout|);
        forall d | d in pool ensures d in Descendants(rank, pool, tx.hash) <==> d in gone + {tx.hash} {
          DescIsBelow(rank, pool, tx.hash, d);
        }
      }
      assert mapTx == pool - gone && tx.hash in mapTx;
      EraseOne(tx);
    }

    /** Takes one transaction out of both maps. */
    method EraseOne(tx: Tx)
      requires Valid() && tx.hash in mapTx && mapTx[tx.hash] == tx
      modifies this
      ensures Valid() && mapTx == old(mapTx) - {tx.hash}
    {
      hide Inverse, Erased;
      ghost var before, next := mapTx, mapNextTx;
      NothingErased(next);
      var i := 0;
      while i < |tx.vin|
        invariant 0 <= i <= |tx.vin| && mapTx == before && Erased(next, tx.vin[..i], mapNextTx)
      {
        EraseStep(next, tx.vin, i, mapNextTx);
        mapNextTx := mapNextTx - {tx.vin[i]};
        i := i + 1;
      }
      assert tx.vin[..i] == tx.vin;
      ErasedAll(next, tx.vin, mapNextTx);
      EraseKeepsInverse(mapTx, next, tx.hash, mapNextTx);
      mapTx := mapTx - {tx.hash};
    }

    /** `left` lacks the outpoints `ops` and no others. */
    static ghost predicate Erased(next: map<OutPoint, InPoint>, ops: seq<OutPoint>, left: map<OutPoint, InPoint>) {
      && (forall op :: op in left <==> op in next && op !in ops)
      && (forall op :: op in left ==> left[op] == next[op])
    }

    static lemma NothingErased(next: map<OutPoint, InPoint>)
      ensures Erased(next, [], next)
    {
    }

    static lemma EraseStep(next: map<OutPoint, InPoint>, ops: seq<OutPoint>, i: nat, left: map<OutPoint, InPoint>)
      requires i < |ops| && Erased(next, ops[..i], left)
      ensures Erased(next, ops[..i + 1], left - {ops[i]})
    {
      assert ops[..i + 1] == ops[..i] + [ops[i]];
    }

    static lemma ErasedAll(next: map<OutPoint, InPoint>, ops: seq<OutPoint>, left: map<OutPoint, InPoint>)
      requires Erased(next, ops, left)
      ensures forall op :: op in left <==> op in next && op !in ops
      ensures forall op :: op in left ==> left[op] == next[op]
    {
    }

    /** The recursive part of remove: the spenders of each output, one after the other. */
    method RemoveBelow(tx: Tx)
      requires Valid() && Same(tx) && tx.hash in mapTx
      modifies this
      ensures BelowGone(old(mapTx), tx.hash, |tx.vout|)
      decreases NotBelow(rank, mapTx, tx.hash), 2
    {
      BelowNothing(rank, mapTx, tx.hash);
      RemoveSpenders(tx, mapTx, mapNextTx, NotBelow(rank, mapTx, tx.hash));
    }

    /** The loop over the outputs. */
    method RemoveSpenders(tx: Tx, ghost pool: Pool, ghost next: map<OutPoint, InPoint>, ghost bound: set<Hash>)
      requires AllRanked(rank, pool) && Inverse(pool, next) && tx.hash in pool && pool[tx.hash] == tx
      requires BelowGone(pool, tx.hash, 0) && bound == NotBelow(rank, pool, tx.hash)
      modifies this
      ensures BelowGone(pool, tx.hash, |tx.vout|)
      decreases bound, 1
    {
      hide *;
      var i := 0;
      while i < |tx.vout|
        invariant 0 <= i <= |tx.vout| && BelowGone(pool, tx.hash, i)
      {
        RemoveSpender(tx, i, pool, next, bound);
        i := i + 1;
      }
    }

    /** The spenders of the first i outputs, and what descends from them, are gone. */
    ghost predicate BelowGone(pool: Pool, h: Hash, i: nat)
      reads this
    {
      Valid() && AllRanked(rank, pool) && mapTx == pool - Below(rank, pool, h, i)
    }

    method RemoveSpender(tx: Tx, i: nat, ghost pool: Pool, ghost next: map<OutPoint, InPoint>, ghost bound: set<Hash>)
      requires AllRanked(rank, pool) && Inverse(pool, next) && tx.hash in pool && pool[tx.hash] == tx && i < |tx.vout|
      requires BelowGone(pool, tx.hash, i)
      requires bound == NotBelow(rank, pool, tx.hash)
      modifies this
      ensures BelowGone(pool, tx.hash, i + 1)
      decreases bound, 0
    {
      if OutPoint(tx.hash, i) in mapNextTx {
        var c := mapNextTx[OutPoint(tx.hash, i)].hash;
        SpenderStep(rank, pool, next, tx.hash, i, mapTx, mapNextTx);
        hide Below, Inverse, AllRanked, NotBelow;
        NotBelowShrinks(rank, pool, mapTx, tx.hash, c);
        Remove(mapTx[c], true);
      } else {
        BelowSkip(rank, pool, tx.hash, i, mapNextTx);
      }
    }

    /** The pool without what conflicts with the first k inputs of `tx`. */
    ghost predicate ConflictsGone(pool: Pool, next: map<OutPoint, InPoint>, tx: Tx, k: nat)
      reads this
    {
      Valid() && AllRanked(rank, pool) && mapTx == pool - Conflicts(rank, pool, next, tx, k)
    }

    /** removeConflicts: afterwards no other pooled transaction spends an input of `tx`, and
        only the conflicting ones and their descendants were removed. */
    method RemoveConflicts(tx: Tx)
      requires Valid() && Same(tx)
      modifies this
      ensures Valid()
      ensures mapTx == old(mapTx) - Conflicts(rank, old(mapTx), old(mapNextTx), tx, |tx.vin|)
      ensures forall i :: 0 <= i < |tx.vin| && tx.vin[i] in mapNextTx ==> mapNextTx[tx.vin[i]].hash == tx.hash
    {
      ghost var pool, next := mapTx, mapNextTx;
      assert Conflicts(rank, pool, next, tx, 0) == {};
      var i := 0;
      while i < |tx.vin|
        invariant 0 <= i <= |tx.vin| && ConflictsGone(pool, next, tx, i)
      {
        RemoveConflict(tx, i, pool, next);
        i := i + 1;
      }
      NoConflictLeft(pool, next, tx);
    }

    lemma NoConflictLeft(pool: Pool, next: map<OutPoint, InPoint>, tx: Tx)
      requires Inverse(pool, next) && ConflictsGone(pool, next, tx, |tx.vin|)
      ensures forall i :: 0 <= i < |tx.vin| && tx.vin[i] in mapNextTx ==> mapNextTx[tx.vin[i]].hash == tx.hash
    {
      forall i: nat | i < |tx.vin| && tx.vin[i] in mapNextTx ensures mapNextTx[tx.vin[i]].hash == tx.hash {
        var p := mapNextTx[tx.vin[i]];
        assert SpentAt(mapTx, tx.vin[i], p);
        assert pool[p.hash].vin[p.n] == tx.vin[i];
        if p.hash != tx.hash {
          assert ConflictAt(next, tx, i, p.hash) && IsDesc(rank, pool, p.hash, p.hash);
        }
      }
    }

    method RemoveConflict(tx: Tx, i: nat, ghost pool: Pool, ghost next: map<OutPoint, InPoint>)
      requires i < |tx.vin| && Inverse(pool, next) && ConflictsGone(pool, next, tx, i)
      modifies this
      ensures ConflictsGone(pool, next, tx, i + 1)
    {
      ConflictStep(rank, pool, next, tx, i, mapTx, mapNextTx);
      hide Conflicts, Inverse, AllRanked;
      if tx.vin[i] in mapNextTx {
        var c := mapNextTx[tx.vin[i]].hash;
        // transactions are compared, which hashes decide
        if c != tx.hash {
          Remove(mapTx[c], true);
        }
      }
    }

    method Clear()
      modifies this
      ensures Valid() && mapTx == map[] && mapNextTx == map[]
    {
      mapTx, mapNextTx := map[], map[];
    }

    // ------------------------------------------------------------------------- accept

    method AddUnchecked(tx: Tx)
      requires Valid() && tx.hash !in mapTx && Ranked(rank, tx) && Distinct(tx.vin)
      requires forall i :: 0 <= i < |tx.vin| ==> tx.vin[i] !in mapNextTx
      modifies this
      ensures Valid() && mapTx == old(mapTx)[tx.hash := tx]
    {
      hide Inverse, Entered, AllRanked, Ranked;
      ghost var pool, next := mapTx, mapNextTx;
      mapTx := mapTx[tx.hash := tx];
      NothingEntered(next, tx);
      var i := 0;
      while i < |tx.vin|
        invariant 0 <= i <= |tx.vin| && mapTx == pool[tx.hash := tx] && Entered(next, tx, i, mapNextTx)
      {
        EnterStep(next, tx, i, mapNextTx);
        mapNextTx := mapNextTx[tx.vin[i] := InPoint(tx.hash, i)];
        i := i + 1;
      }
      EnteredAll(rank, pool, next, tx, mapNextTx);
    }

    /** The first i inputs of `tx` are entered. */
    static ghost predicate Entered(next: map<OutPoint, InPoint>, tx: Tx, i: nat, now: map<OutPoint, InPoint>) {
      && i <= |tx.vin|
      && (forall op :: op in now <==> op in next || op in tx.vin[..i])
      && (forall op :: op in next ==> now[op] == next[op])
      && (forall j :: 0 <= j < i ==> now[tx.vin[j]] == InPoint(tx.hash, j))
    }

    static lemma NothingEntered(next: map<OutPoint, InPoint>, tx: Tx)
      ensures Entered(next, tx, 0, next)
    {
    }

    static lemma EnterStep(next: map<OutPoint, InPoint>, tx: Tx, i: nat, now: map<OutPoint, InPoint>)
      requires i < |tx.vin| && Entered(next, tx, i, now) && Distinct(tx.vin) && tx.vin[i] !in next
      ensures Entered(next, tx, i + 1, now[tx.vin[i] := InPoint(tx.hash, i)])
    {
      assert tx.vin[..i + 1] == tx.vin[..i] + [tx.vin[i]];
    }

    static lemma EnteredAll(rank: Hash -> nat, pool: Pool, next: map<OutPoint, InPoint>, tx: Tx,
                            now: map<OutPoint, InPoint>)
      requires Inverse(pool, next) && AllRanked(rank, pool) && Ranked(rank, tx) && tx.hash !in pool
      requires Entered(next, tx, |tx.vin|, now)
      ensures Inverse(pool[tx.hash := tx], now) && AllRanked(rank, pool[tx.hash := tx])
    {
      assert tx.vin[..|tx.vin|] == tx.vin;
      forall op | op in now ensures SpentAt(pool[tx.hash := tx], op, now[op]) {
        if op in next {
          assert SpentAt(pool, op, next[op]);
        }
      }
    }

    /** The checks of accept against the chain, made when fCheckInputs is set. */
    ghost predicate InputsFit(o: Oracle, p: Policy, db: IndexMap, tx: Tx, b: CBlockIndex, bestHeight: int)
      requires Linked(b)
      reads this
    {
      && tx.hash !in db
      && CanFetch(o, mapTx, db, map[], ForPool, tx.vin)
      && var prev := Fetched(o, mapTx, db, map[], ForPool, tx.vin);
         var fee := ValueIn(prev, tx, true, bestHeight) - tx.ValueOut();
         && AllInRange(prev, tx.vin)
         && p.inputsStandard(tx, prev)
         && fee >= MinFee(1000, o.txSize(tx))
         && (fee < MIN_RELAY_TX_FEE ==> !p.rateLimited(tx))
         && InputsAccepted(o, prev, tx, b, ForPool, bestHeight)
    }

    /** Exactly when accept takes a transaction. */
    ghost predicate Acceptable(o: Oracle, p: Policy, db: IndexMap, tx: Tx, checkInputs: bool, b: CBlockIndex,
                               bestHeight: int)
      requires Linked(b)
      reads this
    {
      && WellFormedTx(tx) && !tx.IsCoinBase() && !tx.IsCoinStake() && p.standard(tx)
      && tx.hash !in mapTx
      && (forall i :: 0 <= i < |tx.vin| ==> tx.vin[i] !in mapNextTx)
      && (checkInputs ==> InputsFit(o, p, db, tx, b, bestHeight))
    }

    method CheckAgainstChain(o: Oracle, p: Policy, txdb: CTxDB, tx: Tx, b: CBlockIndex, bestHeight: int)
      returns (ok: bool, missing: bool)
      requires Linked(b) && !tx.IsCoinBase() && tx.hash !in txdb.View()
      ensures ok <==> InputsFit(o, p, txdb.View(), tx, b, bestHeight)
      ensures missing <==> !CanFetch(o, mapTx, txdb.View(), map[], ForPool, tx.vin)
    {
      hide InputsAccepted;
      var inputs, invalid;
      ok, inputs, invalid := FetchInputs(o, mapTx, txdb, map[], ForPool, tx);
      missing := !ok && !invalid;
      if !ok {
        return;
      }
      if !p.inputsStandard(tx, inputs) {
        return false, missing;
      }
      var valueIn := GetValueIn(inputs, tx, true, bestHeight);
      var fees := valueIn - tx.ValueOut();
      if fees < MinFee(1000, o.txSize(tx)) {
        return false, missing;
      }
      if fees < MIN_RELAY_TX_FEE && p.rateLimited(tx) {
        return false, missing;
      }
      assert forall i :: 0 <= i < |tx.vin| ==> InRange(inputs, tx.vin[i]);
      var queue;
      ok, queue := ConnectInputs(o, inputs, tx, map[], MEMPOOL_POS, b, ForPool, bestHeight);
    }

    /** CTxMemPool::accept.  Replacing a pooled transaction is disabled in the source. */
    method Accept(o: Oracle, p: Policy, txdb: CTxDB, tx: Tx, checkInputs: bool, b: CBlockIndex, bestHeight: int)
      returns (ok: bool, missing: bool)
      requires Valid() && Linked(b) && Ranked(rank, tx)
      modifies this
      ensures Valid()
      ensures ok <==> old(Acceptable(o, p, txdb.View(), tx, checkInputs, b, bestHeight))
      ensures mapTx == if ok then old(mapTx)[tx.hash := tx] else old(mapTx)
      ensures ok ==> !missing
    {
      ok, missing := false, false;
      var wellFormed := CheckTransaction(tx);
      if !wellFormed || tx.IsCoinBase() || tx.IsCoinStake() || !p.standard(tx) {
        return;
      }
      if tx.hash in mapTx {
        return;
      }
      if checkInputs {
        var read := txdb.ReadTxIndex(tx.hash);
        if read.Some? {
          return;
        }
      }
      var i := 0;
      while i < |tx.vin|
        invariant 0 <= i <= |tx.vin|
        invariant forall j :: 0 <= j < i ==> tx.vin[j] !in mapNextTx
      {
        if tx.vin[i] in mapNextTx {
          return;
        }
        i := i + 1;
      }
      if checkInputs {
        ok, missing := CheckAgainstChain(o, p, txdb, tx, b, bestHeight);
        if !ok {
          return;
        }
      }
      AddUnchecked(tx);
      ok := true;
    }
  }
}
