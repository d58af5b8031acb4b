/**
 A run in which SetBestChain leaves the database behind the tip it sets: a checkpoint has
 moved the best chain to a branch with less trust, and the next block of the other branch,
 which is invalid, is postponed.
 */
module Stopped {
  import opened Wrappers
  import opened Transactions
  import opened Ledger
  import opened Blocks
  import opened Inputs
  import opened Connect
  import opened Chain
  import opened Branches
  import opened ChainState

  /** Blocks with nothing but a coinbase that pays nothing; block n carries transaction n. */
  function Coinbase(n: Hash): Tx {
    Tx(n, 0, [OutPoint(0, NO_INDEX)], [TxOut(0, [1])])
  }

  function PlainBlock(n: Hash, prev: Hash): Block {
    Block(n, prev, 0, [Coinbase(n)])
  }

  /** Only block `bad` fails CheckBlock. */
  function World(bad: Hash): Oracle {
    Oracle(
      (p: DiskTxPos) => if p.Pos? then Some(Coinbase(p.blockPos)) else None,
      (tx: Tx) => 0,
      (b: Block) => b.hash != bad,
      (from: Tx, to: Tx, n: nat) => true,
      (tx: Tx) => 0,
      (tx: Tx, inputs: PrevTxs) => 0,
      (tx: Tx, idx: IndexMap) => None,
      0)
  }

  lemma PlainStored(bad: Hash, n: Hash, prev: Hash)
    ensures StoredAt(World(bad), PlainBlock(n, prev).vtx, 0, n)
  {
  }

  lemma PlainChecks(bad: Hash, n: Hash, prev: Hash)
    ensures Coinbase(n).IsCoinBase() && Coinbase(n).ValueOut() == 0
    ensures WellFormedBlock(World(bad), PlainBlock(n, prev)) <==> n != bad
  {
    var tx := Coinbase(n);
    assert SumOut(tx.vout[..0]) == 0 && tx.vout[..1] == tx.vout;
    assert SumOut(tx.vout) == SumOut(tx.vout[..0]) + 0;
    forall k | 0 <= k <= |tx.vout| ensures MoneyRange(SumOut(tx.vout[..k])) {
      assert k == 0 || k == 1;
    }
    assert WellFormedTx(tx);
  }

  /** A plain block that is not in the index yet is accepted unless it is the bad one. */
  lemma PlainAccepted(bad: Hash, db: IndexMap, b: CBlockIndex, n: Hash, prev: Hash, bestHeight: int)
    requires Linked(b) && b.block == PlainBlock(n, prev) && n !in db
    ensures BlockAccepted(World(bad), db, b, bestHeight) <==> n != bad
    ensures Apply(db, BatchOf(World(bad), b)).Keys == db.Keys + {n}
  {
    var o := World(bad);
    PlainChecks(bad, n, prev);
    assert TxAccepted(o, db, b, bestHeight, 0);
    assert SigOps(o, db, b, 0) == 0 && SigOps(o, db, b, 1) == 0;
    assert Fees(o, db, b, bestHeight, 0) == 0 && Fees(o, db, b, bestHeight, 1) == 0;
    var batch := BatchOf(o, b);
    assert ApplyTxs(db, batch, 0) == db && Apply(db, batch) == ApplyTx(db, Coinbase(n), batch.pos[0]);
  }

  lemma PlainUndone(db: IndexMap, n: Hash)
    ensures UndoTxs(db, [Coinbase(n)]) == Some(db - {n})
  {
    assert [Coinbase(n)][..0] == [];
    assert UndoTxs(db - {n}, []) == Some(db - {n});
  }

  /** From one child of a block to another: undo the one, connect the other. */
  lemma SiblingSwitch(bad: Hash, view: IndexMap, a: CBlockIndex, b: CBlockIndex, n: Hash, m: Hash, prev: Hash,
                      bestHeight: int)
    requires Linked(a) && Linked(b) && a != b && a.pprev != null && a.pprev == b.pprev
    requires a.block == PlainBlock(n, prev) && b.block == PlainBlock(m, prev) && view.Keys <= {n} && m != n
    ensures Switches(World(bad), view, a, b, bestHeight) <==> m != bad
    ensures m != bad ==> Switched(World(bad), view, a, b).Keys == {m}
  {
    var g := a.pprev;
    assert OnPath(g, g) && OnPath(g, b) && !OnPath(a, b);
    assert |Down(a, g)| == 1 && Down(a, g)[0] == Anc(a, a.nHeight) == a;
    assert |Up(g, b)| == 1 && Up(g, b)[0] == Anc(b, b.nHeight) == b;
    assert LastShared(a, b) == g && Down(a, g) == [a] && Up(g, b) == [b];
    PlainUndone(view, n);
    var less := view - {n};
    assert UndoBlocks(less, [a][1..]) == Some(less);
    assert Undone(view, a, b) == Some(less) && less.Keys == {};
    PlainAccepted(bad, less, b, m, prev, bestHeight);
    var o, next := World(bad), Apply(less, BatchOf(World(bad), b));
    assert BlocksAccepted(o, next, [b][1..], bestHeight) && ApplyBlocks(o, next, [b][1..]) == next;
  }

  /** After the genesis block the index is empty; after a plain child of it, the child's at most. */
  lemma IndexOfChild(bad: Hash, db: IndexMap, b: CBlockIndex, n: Hash, prev: Hash)
    requires Linked(b) && ShowsChain(World(bad), db, b)
    requires b.pprev == null || (b.block == PlainBlock(n, prev) && b.pprev.pprev == null)
    ensures db.Keys <= if b.pprev == null then {} else {n}
  {
    if b.pprev != null {
      var o := World(bad);
      assert Replay(o, b.pprev) == map[];
      PlainApplied(o, b, n, prev);
    }
  }

  lemma PlainApplied(o: Oracle, b: CBlockIndex, n: Hash, prev: Hash)
    requires b.block == PlainBlock(n, prev)
    ensures Apply(map[], BatchOf(o, b)).Keys == {n}
  {
    var batch := BatchOf(o, b);
    assert ApplyTxs(map[], batch, 0) == map[] && Apply(map[], batch) == ApplyTx(map[], Coinbase(n), batch.pos[0]);
    assert Coinbase(n).IsCoinBase();
  }

  /** The postponed block is the bad one: the switch goes through and the rest does not. */
  lemma BadTipStops(bad: Hash, view: IndexMap, best: CBlockIndex, c: CBlockIndex, n: Hash, m: Hash, g: Hash,
                    bestHeight: int)
    requires Linked(best) && Linked(c) && c.pprev != null && c.pprev != best
    requires best.pprev != null && best.pprev == c.pprev.pprev && best.pprev.pprev == null
    requires best.block == PlainBlock(n, g) && c.pprev.block == PlainBlock(m, g) && c.block == PlainBlock(bad, m)
    requires view.Keys <= {n} && m != n && m != bad
    requires best.pprev.nChainTrust <= best.nChainTrust < c.pprev.nChainTrust
    ensures CanMove(World(bad), view, best, c, bestHeight) && !CanFinish(World(bad), view, best, c, bestHeight)
  {
    var a := c.pprev;
    assert Intermediate(a, best.nChainTrust) == a && Intermediate(c, best.nChainTrust) == a;
    SiblingSwitch(bad, view, best, a, n, m, g, bestHeight);
    assert OnPath(a, c) && |Up(a, c)| == 1 && Up(a, c)[0] == Anc(c, c.nHeight) == c;
    assert Up(a, c) == [c];
    PlainChecks(bad, bad, m);
  }

  const BAD: Hash := 4

  /** A node for plain block n on top of the genesis node. */
  ghost predicate Child(x: CBlockIndex, g: CBlockIndex, n: Hash, trust: nat) {
    x.block == PlainBlock(n, 1) && x.hash == n && x.pprev == g && x.nChainTrust == trust
  }

  ghost predicate Genesis(g: CBlockIndex) {
    g.hash == 1 && g.pprev == null && g.nChainTrust == 1
  }

  ghost predicate At(chain: CChainState, tree: Tree, best: CBlockIndex)
    reads chain, chain.txdb, chain.Nodes()
  {
    && chain.Valid() && chain.o == World(BAD) && chain.hashGenesisBlock == 1
    && chain.mapBlockIndex == tree && chain.pindexBest == best && Linked(best)
    && chain.nBestHeight == best.nHeight && chain.nBestChainTrust == best.nChainTrust
  }

  lemma IndexAt(chain: CChainState, tree: Tree, best: CBlockIndex, n: Hash)
    requires At(chain, tree, best)
    requires best.pprev == null || (best.block == PlainBlock(n, 1) && best.pprev.pprev == null)
    ensures chain.txdb.committed.Keys <= if best.pprev == null then {} else {n}
  {
    IndexOfChild(BAD, chain.txdb.committed, best, n, 1);
  }

  method StartWithGenesis() returns (chain: CChainState, g: CBlockIndex)
    ensures fresh(chain) && fresh(chain.txdb) && fresh(chain.Nodes())
    ensures Genesis(g) && At(chain, map[1 := g], g)
  {
    PlainStored(BAD, 1, 0);
    chain := new CChainState(World(BAD), 1);
    hide World;
    var ok, all, x;
    ghost var undone;
    ok, all, x, undone := chain.AddToBlockIndex(PlainBlock(1, 0), 1, 0, 1);
    g := x;
    assert NodeOk(chain.o, chain.mapBlockIndex, 1, 1);
  }

  method AddSecond(chain: CChainState, ghost g: CBlockIndex) returns (a: CBlockIndex)
    requires Genesis(g) && At(chain, map[1 := g], g)
    modifies chain, chain.txdb, chain.Nodes()
    ensures fresh(a) && chain.Nodes() == old(chain.Nodes()) + {a}
    ensures Child(a, g, 2, 3) && At(chain, map[1 := g, 2 := a], a)
  {
    hide World, ChainIs, CanMove, CanFinish, StoredAt, MovedTo, Disconnects, OffNewChain, TreeOk;
    PlainStored(BAD, 2, 1);
    IndexAt(chain, map[1 := g], g, 0);
    ghost var db, h := chain.txdb.committed, chain.nBestHeight;
    var ok, all, x;
    ghost var undone;
    ok, all, x, undone := chain.AddToBlockIndex(PlainBlock(2, 1), 2, 0, 2);
    a := x;
    TreeNode(chain, 2);
    SecondMoves(db, g, a, h);
  }

  lemma TreeNode(chain: CChainState, n: Hash)
    requires chain.TreeValid() && n in chain.mapBlockIndex
    ensures NodeOk(chain.o, chain.mapBlockIndex, chain.hashGenesisBlock, n)
  {
  }

  lemma SecondMoves(view: IndexMap, g: CBlockIndex, a: CBlockIndex, h: int)
    requires Linked(a) && a.pprev == g && a.block == PlainBlock(2, 1) && view.Keys == {}
    ensures CanFinish(World(BAD), view, g, a, h)
  {
    PlainAccepted(BAD, view, a, 2, 1, h);
    NextCanMove(World(BAD), view, g, a, h);
  }

  method AddSibling(chain: CChainState, ghost g: CBlockIndex, ghost a: CBlockIndex) returns (b: CBlockIndex)
    requires Genesis(g) && Child(a, g, 2, 3) && At(chain, map[1 := g, 2 := a], a)
    modifies chain, chain.txdb, chain.Nodes()
    ensures fresh(b) && chain.Nodes() == old(chain.Nodes()) + {b}
    ensures Child(b, g, 3, 2) && At(chain, map[1 := g, 2 := a, 3 := b], a)
  {
    PlainStored(BAD, 3, 1);
    hide World, ChainIs, CanMove, CanFinish, StoredAt;
    var ok, all, x;
    ghost var undone;
    ok, all, x, undone := chain.AddToBlockIndex(PlainBlock(3, 1), 1, 0, 3);
    b := x;
    assert NodeOk(chain.o, chain.mapBlockIndex, 1, 3);
  }

  method MoveToSibling(chain: CChainState, ghost g: CBlockIndex, ghost a: CBlockIndex, b: CBlockIndex)
    requires Genesis(g) && Child(a, g, 2, 3) && Child(b, g, 3, 2) && At(chain, map[1 := g, 2 := a, 3 := b], a)
    modifies chain, chain.txdb, chain.Nodes()
    ensures chain.Nodes() == old(chain.Nodes()) && At(chain, map[1 := g, 2 := a, 3 := b], b)
  {
    ghost var db, h := chain.txdb.committed, chain.nBestHeight;
    IndexAt(chain, chain.mapBlockIndex, a, 2);
    assert NodeOk(chain.o, chain.mapBlockIndex, 1, 3);
    SiblingMoves(db, a, b, h);
    hide World, ChainIs, CanMove, CanFinish;
    var ok, all;
    ghost var undone;
    ok, all, undone := chain.SetBestChain(b);
  }

  lemma SiblingMoves(view: IndexMap, a: CBlockIndex, b: CBlockIndex, h: int)
    requires Linked(a) && Linked(b) && a.pprev != null && a.pprev == b.pprev && a.pprev.nChainTrust <= a.nChainTrust
    requires a.block == PlainBlock(2, 1) && b.block == PlainBlock(3, 1) && view.Keys <= {2}
    ensures CanFinish(World(BAD), view, a, b, h)
  {
    SiblingSwitch(BAD, view, a, b, 2, 3, 1, h);
    assert Intermediate(b, a.nChainTrust) == b && Up(b, b) == [];
  }

  method AddBad(chain: CChainState, ghost g: CBlockIndex, ghost a: CBlockIndex, ghost b: CBlockIndex)
    requires Genesis(g) && Child(a, g, 2, 3) && Child(b, g, 3, 2) && At(chain, map[1 := g, 2 := a, 3 := b], b)
    modifies chain, chain.txdb, chain.Nodes()
    ensures chain.TipSet() && chain.StoppedBelow(chain.pindexBest) && !chain.Valid()
  {
    ghost var db, h := chain.txdb.committed, chain.nBestHeight;
    IndexAt(chain, chain.mapBlockIndex, b, 3);
    PlainStored(BAD, 4, 2);
    hide World, ChainIs, CanMove, CanFinish, StoredAt, CChainState.StoppedBelow;
    var ok, all, c;
    ghost var undone;
    ok, all, c, undone := chain.AddToBlockIndex(PlainBlock(4, 2), 1, 0, 4);
    assert NodeOk(chain.o, chain.mapBlockIndex, 1, 4);
    BadTipStops(BAD, db, b, c, 3, 2, 1, h);
    chain.StoppedIsNotExact(c);
  }

  /** Genesis, block 2 with trust 2 and its sibling 3 with trust 1.  The best chain is moved to
      the sibling, as for a checkpoint; then block 4, which is invalid, comes on top of block 2. */
  method PostponedCanFail() returns (chain: CChainState)
    ensures fresh(chain) && chain.TipSet() && chain.StoppedBelow(chain.pindexBest) && !chain.Valid()
  {
    var g, a, b;
    chain, g := StartWithGenesis();
    hide At;
    a := AddSecond(chain, g);
    b := AddSibling(chain, g, a);
    MoveToSibling(chain, g, a, b);
    AddBad(chain, g, a, b);
  }
}
