/** The best chain and the operations that move it: SetBestChain, SetBestChainInner,
    Reorganize and AddToBlockIndex of src/main.cpp. */
module ChainState {
  import opened Wrappers
  import opened Transactions
  import opened Ledger
  import opened Money
  import opened Blocks
  import opened TxDatabase
  import opened Inputs
  import opened Connect
  import opened Chain
  import opened Branches

  type Tree = map<Hash, CBlockIndex>

  /** Nodes are filed under their hashes, know their parents, and grow from one genesis. */
  ghost predicate TreeOk(o: Oracle, tree: Tree, genesis: Hash) {
    forall h {:trigger NodeOk(o, tree, genesis, h)} :: h in tree ==> NodeOk(o, tree, genesis, h)
  }

  ghost predicate NodeOk(o: Oracle, tree: Tree, genesis: Hash, h: Hash)
    requires h in tree
  {
    var b := tree[h];
    && b.hash == h == b.block.hash && Anchored(o, b) && Linked(b)
    && h != 0
    && (if b.pprev == null then h == genesis && b.block.hashPrev == 0
        else b.pprev.hash in tree && tree[b.pprev.hash] == b.pprev && b.block.hashPrev == b.pprev.hash
             && b.pprev.nChainTrust < b.nChainTrust)
  }

  ghost predicate InTree(tree: Tree, b: CBlockIndex) {
    b.hash in tree && tree[b.hash] == b
  }

  lemma {:induction false} AncInTree(o: Oracle, tree: Tree, genesis: Hash, b: CBlockIndex, h: nat)
    requires TreeOk(o, tree, genesis) && InTree(tree, b) && Linked(b) && h <= b.nHeight
    ensures InTree(tree, Anc(b, h))
    decreases b.nHeight
  {
    assert NodeOk(o, tree, genesis, b.hash);
    if h < b.nHeight {
      AncInTree(o, tree, genesis, b.pprev, h);
    }
  }

  /** Two nodes of one tree always share the genesis block. */
  lemma {:induction false} RootIsGenesis(o: Oracle, tree: Tree, genesis: Hash, b: CBlockIndex)
    requires TreeOk(o, tree, genesis) && InTree(tree, b) && Linked(b)
    ensures genesis in tree && Anc(b, 0) == tree[genesis]
    decreases b.nHeight
  {
    assert NodeOk(o, tree, genesis, b.hash);
    if b.pprev != null {
      RootIsGenesis(o, tree, genesis, b.pprev);
    }
  }

  lemma DescendInTree(o: Oracle, tree: Tree, genesis: Hash, best: CBlockIndex, fork: CBlockIndex, v: seq<CBlockIndex>,
                      i: nat)
    requires TreeOk(o, tree, genesis) && InTree(tree, best) && Linked(best) && Descends(v, best, fork) && i < |v|
    ensures v[i].pprev != null && v[i].pprev in tree.Values
  {
    DescendStep(v, best, fork, i);
    hide Descends, Anc;
    AncInTree(o, tree, genesis, best, best.nHeight - i - 1);
  }

  lemma DescendsInTree(o: Oracle, tree: Tree, genesis: Hash, best: CBlockIndex, fork: CBlockIndex, v: seq<CBlockIndex>)
    requires TreeOk(o, tree, genesis) && InTree(tree, best) && Linked(best) && Descends(v, best, fork)
    ensures forall i :: 0 <= i < |v| ==> v[i].pprev != null && v[i].pprev in tree.Values
  {
    hide *;
    forall i | 0 <= i < |v| ensures v[i].pprev != null && v[i].pprev in tree.Values {
      DescendInTree(o, tree, genesis, best, fork, v, i);
    }
  }

  lemma AscendsInTree(o: Oracle, tree: Tree, genesis: Hash, fork: CBlockIndex, tip: CBlockIndex, v: seq<CBlockIndex>)
    requires TreeOk(o, tree, genesis) && InTree(tree, tip) && Linked(tip) && Ascends(v, fork, tip)
    ensures forall i :: 0 <= i < |v| ==> v[i] in tree.Values && v[i].pprev != null && v[i].pprev in tree.Values
  {
    forall i | 0 <= i < |v| ensures v[i] in tree.Values && v[i].pprev != null && v[i].pprev in tree.Values {
      AscendStep(v, fork, tip, i);
      AncInTree(o, tree, genesis, tip, fork.nHeight + i + 1);
      AncInTree(o, tree, genesis, tip, fork.nHeight + i);
    }
  }

  /** The two lists of a reorganization lead away from one fork, inside the tree. */
  ghost predicate Branching(o: Oracle, tree: Tree, best: CBlockIndex, fork: CBlockIndex, tip: CBlockIndex,
                            vDisconnect: seq<CBlockIndex>, vConnect: seq<CBlockIndex>)
  {
    && Linked(best) && Linked(tip) && Linked(fork) && Anchored(o, tip)
    && IsFork(fork, best, tip) && Descends(vDisconnect, best, fork) && Ascends(vConnect, fork, tip)
    && fork in tree.Values && InTree(tree, tip)
    && (forall i :: 0 <= i < |vDisconnect| ==> vDisconnect[i].pprev != null && vDisconnect[i].pprev in tree.Values)
    && (forall i :: 0 <= i < |vConnect| ==>
          vConnect[i] in tree.Values && vConnect[i].pprev != null && vConnect[i].pprev in tree.Values)
  }

  lemma BranchesMeet(o: Oracle, tree: Tree, genesis: Hash, best: CBlockIndex, fork: CBlockIndex, tip: CBlockIndex,
                     vDisconnect: seq<CBlockIndex>, vConnect: seq<CBlockIndex>)
    requires TreeOk(o, tree, genesis) && InTree(tree, best) && Linked(best) && InTree(tree, tip) && Linked(tip)
    requires IsFork(fork, best, tip) && Descends(vDisconnect, best, fork) && Ascends(vConnect, fork, tip)
    ensures Branching(o, tree, best, fork, tip, vDisconnect, vConnect) && Linked(fork)
  {
    AncInTree(o, tree, genesis, best, fork.nHeight);
    assert fork in tree.Values && Linked(fork);
    AscendsInTree(o, tree, genesis, fork, tip, vConnect);
    DescendsInTree(o, tree, genesis, best, fork, vDisconnect);
    assert NodeOk(o, tree, genesis, tip.hash);
    hide Descends, Ascends, Anc, IsFork, Linked, TreeOk, Anchored;
  }

  lemma NextToConnect(o: Oracle, tree: Tree, genesis: Hash, b: CBlockIndex, from: CBlockIndex, v: seq<CBlockIndex>,
                      i: nat)
    requires TreeOk(o, tree, genesis) && Linked(b) && InTree(tree, b) && Descends(v, b, from) && i < |v|
    ensures v[i].pprev != null && i < b.nHeight && v[i].pprev == Anc(b, b.nHeight - i - 1) &&
      v[i] == Anc(b, b.nHeight - i)
    ensures InTree(tree, v[i]) && InTree(tree, v[i].pprev) && OnPath(v[i].pprev, b) && v[i].pprev != b
  {
    DescendStep(v, b, from, i);
    hide Descends, Anc, TreeOk, Linked;
    AncInTree(o, tree, genesis, b, b.nHeight - i);
    AncInTree(o, tree, genesis, b, b.nHeight - i - 1);
  }

  /** The chain to the new tip is the old chain up to the fork, then the connected blocks,
      none of which is on the old chain. */
  lemma BranchCovers(best: CBlockIndex, tip: CBlockIndex, fork: CBlockIndex, v: seq<CBlockIndex>, x: CBlockIndex)
    requires Linked(best) && Linked(tip) && IsFork(fork, best, tip) && Ascends(v, fork, tip)
    ensures x in v ==> !OnPath(x, best)
    ensures OnPath(x, tip) ==> x in v || OnPath(x, best)
  {
    if x in v {
      var i :| 0 <= i < |v| && v[i] == x;
      AscendStep(v, fork, tip, i);
    }
    if OnPath(x, tip) {
      if x.nHeight > fork.nHeight {
        assert v[x.nHeight - fork.nHeight - 1] == x;
      } else {
        AncAnc(best, fork.nHeight, x.nHeight);
        AncAnc(tip, fork.nHeight, x.nHeight);
      }
    }
  }

  /** Connecting blocks off the old chain leaves its records exact, and when all of them
      are connected the new chain's are exact too. */
  method ConnectAndRecord(o: Oracle, pool: Pool, txdb: CTxDB, ghost nodes: set<CBlockIndex>, ghost best: CBlockIndex,
                          fork: CBlockIndex, ghost tip: CBlockIndex, v: seq<CBlockIndex>, bestHeight: int)
    returns (ok: bool)
    requires Linked(best) && Linked(tip) && IsFork(fork, best, tip) && Anchored(o, tip)
    requires Ascends(v, fork, tip) && Linked(fork) && ShowsChain(o, txdb.View(), fork)
    requires fork in nodes && MoneyExact(o, nodes, best) && forall i :: 0 <= i < |v| ==> v[i] in nodes
    modifies txdb, nodes`nMint, nodes`nMoneySupply
    ensures ok <==> BlocksAccepted(o, old(txdb.View()), v, bestHeight)
    ensures ok ==> txdb.View() == ApplyBlocks(o, old(txdb.View()), v)
    ensures ok ==> ShowsChain(o, txdb.View(), tip) && MoneyExact(o, nodes, tip)
    ensures MoneyExact(o, nodes, best) && txdb.StaysInTxn()
  {
    assert RecordedAt(o, fork);
    ok := ConnectBranch(o, pool, txdb, nodes, fork, tip, v, bestHeight);
    forall x | x in nodes
      ensures OnPath(x, best) ==> RecordedAt(o, x)
      ensures ok && OnPath(x, tip) ==> RecordedAt(o, x)
    {
      BranchCovers(best, tip, fork, v, x);
    }
  }

  /** Recording the money of the new tip, or not, keeps the records exact. */
  lemma MoneyStep(o: Oracle, nodes: set<CBlockIndex>, b: CBlockIndex, connected: bool)
    requires Linked(b) && b.pprev != null
    requires forall x :: x in nodes && x != b && OnPath(x, b.pprev) ==> RecordedAt(o, x)
    requires connected ==> RecordedAt(o, b)
    ensures MoneyExact(o, nodes, b.pprev) && (connected ==> MoneyExact(o, nodes, b))
  {
    assert !OnPath(b, b.pprev);
  }

  // ------------------------------------------------- when the best chain can be moved

  /** The first block of the chain to `b` whose parent has no more trust than the best block. */
  ghost function Intermediate(b: CBlockIndex, bestTrust: nat): (m: CBlockIndex)
    requires Linked(b)
    ensures OnPath(m, b) && Linked(m)
    decreases b.nHeight
  {
    if b.pprev != null && b.pprev.nChainTrust > bestTrust then Intermediate(b.pprev, bestTrust) else b
  }

  /** The index left by undoing the chain to `best` down to where it leaves the one to `b`. */
  ghost function Undone(view: IndexMap, best: CBlockIndex, b: CBlockIndex): Option<IndexMap>
    requires Linked(best) && Linked(b)
  {
    var fork := LastShared(best, b);
    if fork == null then None else UndoBlocks(view, Down(best, fork))
  }

  /** Everything down to the fork can be undone, and every block above it on the way to `b`
      is accepted on the index left by the one below. */
  ghost predicate Switches(o: Oracle, view: IndexMap, best: CBlockIndex, b: CBlockIndex, bestHeight: int)
    requires Linked(best) && Linked(b)
  {
    && Undone(view, best, b).Some?
    && BlocksAccepted(o, Undone(view, best, b).value, Up(LastShared(best, b), b), bestHeight)
  }

  /** The index after such a switch. */
  ghost function Switched(o: Oracle, view: IndexMap, best: CBlockIndex, b: CBlockIndex): IndexMap
    requires Linked(best) && Linked(b) && Undone(view, best, b).Some?
  {
    ApplyBlocks(o, Undone(view, best, b).value, Up(LastShared(best, b), b))
  }

  /** Exactly when SetBestChain makes `b` the tip, given the committed index, the old tip and
      its height: the switch to the intermediate block goes through. */
  ghost predicate CanMove(o: Oracle, view: IndexMap, best: CBlockIndex?, b: CBlockIndex, bestHeight: int) {
    && Linked(b)
    && (best == null
        || (Linked(best) && Switches(o, view, best, Intermediate(b, best.nChainTrust), bestHeight)))
  }

  /** Exactly when the postponed blocks all connect as well. */
  ghost predicate CanFinish(o: Oracle, view: IndexMap, best: CBlockIndex?, b: CBlockIndex, bestHeight: int) {
    && CanMove(o, view, best, b, bestHeight)
    && (best == null
        || (var m := Intermediate(b, best.nChainTrust);
            BlocksAccepted(o, Switched(o, view, best, m), Up(m, b), bestHeight)))
  }

  /** The index SetBestChain leaves then; connecting the genesis block leaves it empty. */
  ghost function MovedTo(o: Oracle, view: IndexMap, best: CBlockIndex?, b: CBlockIndex): IndexMap
    requires Linked(b) && (best != null ==>
      Linked(best) && Undone(view, best, Intermediate(b, best.nChainTrust)).Some?)
  {
    if best == null then view
    else
      var m := Intermediate(b, best.nChainTrust);
      ApplyBlocks(o, Switched(o, view, best, m), Up(m, b))
  }

  /** With the first k blocks of `w` connected, accepting all of them on `start` has come down
      to accepting the others on `view`, and so has applying them. */
  ghost predicate StillToConnect(o: Oracle, start: IndexMap, view: IndexMap, w: seq<CBlockIndex>, k: nat,
                                 bestHeight: int) {
    && k <= |w| && (BlocksAccepted(o, view, w[k..], bestHeight) <==> BlocksAccepted(o, start, w, bestHeight))
    && ApplyBlocks(o, view, w[k..]) == ApplyBlocks(o, start, w)
  }

  lemma StillEnds(o: Oracle, start: IndexMap, w: seq<CBlockIndex>, bestHeight: int)
    ensures StillToConnect(o, start, start, w, 0, bestHeight)
    ensures forall view :: StillToConnect(o, start, view, w, |w|, bestHeight) <==>
      BlocksAccepted(o, start, w, bestHeight) && view == ApplyBlocks(o, start, w)
  {
    assert w[0..] == w && w[|w|..] == [];
  }

  lemma DescendLength(v: seq<CBlockIndex>, b: CBlockIndex, from: CBlockIndex)
    requires Linked(b) && Descends(v, b, from)
    ensures OnPath(from, b) && from.nHeight <= b.nHeight && |v| == b.nHeight - from.nHeight
  {
  }

  lemma UpLength(from: CBlockIndex, b: CBlockIndex)
    requires Linked(b) && from.nHeight <= b.nHeight
    ensures |Up(from, b)| == b.nHeight - from.nHeight
  {
  }

  lemma StillStep(o: Oracle, start: IndexMap, view: IndexMap, w: seq<CBlockIndex>, k: nat, bestHeight: int)
    requires StillToConnect(o, start, view, w, k, bestHeight) && k < |w| && Linked(w[k])
    ensures
      if BlockAccepted(o, view, w[k], bestHeight) then
        StillToConnect(o, start, Apply(view, BatchOf(o, w[k])), w, k + 1, bestHeight)
      else !BlocksAccepted(o, start, w, bestHeight)
  {
    hide BlockAccepted, BlocksAccepted, ApplyBlocks, Apply, Linked;
    BlocksStep(o, view, w, bestHeight, k);
  }

  /** For the next block of the best chain both say that the block is accepted. */
  lemma NextCanMove(o: Oracle, view: IndexMap, best: CBlockIndex, b: CBlockIndex, bestHeight: int)
    requires Linked(b) && b.pprev == best
    ensures CanMove(o, view, best, b, bestHeight) <==> BlockAccepted(o, view, b, bestHeight)
    ensures CanFinish(o, view, best, b, bestHeight) <==> BlockAccepted(o, view, b, bestHeight)
    ensures Undone(view, best, Intermediate(b, best.nChainTrust)).Some?
    ensures MovedTo(o, view, best, b) == Apply(view, BatchOf(o, b)) && Disconnects([], best, b)
  {
    assert OnPath(best, b) && OnPath(best, best);
    assert LastShared(best, b) == best && Intermediate(b, best.nChainTrust) == b;
    assert Down(best, best) == [] && Up(best, b) == [b] && Up(b, b) == [];
    assert [b][1..] == [];
    var next := Apply(view, BatchOf(o, b));
    assert BlocksAccepted(o, next, [], bestHeight);
    assert Undone(view, best, b) == Some(view);
    assert BlocksAccepted(o, view, [b], bestHeight) <==> BlockAccepted(o, view, b, bestHeight);
    assert ApplyBlocks(o, view, [b]) == ApplyBlocks(o, next, []) == next;
  }

  /** The blocks SetBestChain disconnects on the way from `best` to `b`. */
  ghost function Disconnected(best: CBlockIndex?, b: CBlockIndex): seq<CBlockIndex>
    requires Linked(b) && (best != null ==> Linked(best))
  {
    if best == null then []
    else
      var fork := LastShared(best, Intermediate(b, best.nChainTrust));
      if fork == null then [] else Down(best, fork)
  }

  /** These are the blocks that get disconnected. */
  ghost predicate Disconnects(undone: seq<CBlockIndex>, best: CBlockIndex?, b: CBlockIndex) {
    Linked(b) && (best != null ==> Linked(best)) && undone == Disconnected(best, b)
  }

  /** Blocks of the old chain, none of them on the new one. */
  ghost predicate OffNewChain(undone: seq<CBlockIndex>, best: CBlockIndex?, b: CBlockIndex) {
    forall x :: x in undone ==> best != null && Linked(best) && OnPath(x, best) && Linked(b) && !OnPath(x, b)
  }

  lemma {:induction false} TrustGrows(o: Oracle, tree: Tree, genesis: Hash, b: CBlockIndex, a: CBlockIndex)
    requires TreeOk(o, tree, genesis) && InTree(tree, b) && Linked(b) && OnPath(a, b)
    ensures a.nChainTrust <= b.nChainTrust
    decreases b.nHeight
  {
    assert NodeOk(o, tree, genesis, b.hash);
    if a != b {
      TrustGrows(o, tree, genesis, b.pprev, a);
    }
  }

  /** What the new chain shares with the old one lies on the way to the intermediate block,
      since above it there is more trust than the old chain ever had. */
  lemma {:induction false} SharedBelowIntermediate(o: Oracle, tree: Tree, genesis: Hash, best: CBlockIndex,
                                                   b: CBlockIndex,
                                                   s: CBlockIndex)
    requires TreeOk(o, tree, genesis) && InTree(tree, best) && Linked(best) && InTree(tree, b) && Linked(b)
    requires OnPath(s, best) && OnPath(s, b)
    ensures OnPath(s, Intermediate(b, best.nChainTrust))
    decreases b.nHeight
  {
    assert NodeOk(o, tree, genesis, b.hash);
    if b.pprev != null && b.pprev.nChainTrust > best.nChainTrust {
      TrustGrows(o, tree, genesis, best, s);
      assert s != b;
      SharedBelowIntermediate(o, tree, genesis, best, b.pprev, s);
    }
  }

  /** No block of both chains is disconnected: every reorganization keeps what they share. */
  lemma SharedStay(o: Oracle, tree: Tree, genesis: Hash, best: CBlockIndex, b: CBlockIndex)
    requires TreeOk(o, tree, genesis) && InTree(tree, best) && Linked(best) && InTree(tree, b) && Linked(b)
    ensures OffNewChain(Disconnected(best, b), best, b)
  {
    var m := Intermediate(b, best.nChainTrust);
    var fork := LastShared(best, m);
    hide TreeOk, Linked, Anc, Down, LastShared, Intermediate;
    forall x | x in Disconnected(best, b) ensures OnPath(x, best) && !OnPath(x, b) {
      DownOnPath(best, fork, x);
      if OnPath(x, b) {
        SharedBelowIntermediate(o, tree, genesis, best, b, x);
        NothingSharedAbove(best, m, x);
      }
    }
  }

  lemma DownOnPath(best: CBlockIndex, fork: CBlockIndex, x: CBlockIndex)
    requires Linked(best) && fork.nHeight <= best.nHeight && x in Down(best, fork)
    ensures OnPath(x, best) && x.nHeight > fork.nHeight
  {
    var i :| 0 <= i < |Down(best, fork)| && Down(best, fork)[i] == x;
    assert x == Anc(best, best.nHeight - i);
  }

  lemma {:induction false} NothingSharedAbove(a: CBlockIndex, b: CBlockIndex, x: CBlockIndex)
    requires Linked(a) && Linked(b) && OnPath(x, a) && OnPath(x, b)
    ensures LastShared(a, b) != null && x.nHeight <= LastShared(a, b).nHeight
    decreases a.nHeight
  {
    if !OnPath(a, b) {
      NothingSharedAbove(a.pprev, b, x);
    }
  }

  /** Connecting the block after the tip, with the money it records. */
  method ConnectAndRecordNext(o: Oracle, pool: Pool, txdb: CTxDB, ghost nodes: set<CBlockIndex>, b: CBlockIndex,
                              bestHeight: int)
    returns (ok: bool)
    requires Anchored(o, b) && Linked(b) && b.pprev != null && b in nodes && b.pprev in nodes
    requires ShowsChain(o, txdb.View(), b.pprev) && MoneyExact(o, nodes, b.pprev)
    modifies txdb, b`nMint, b`nMoneySupply
    ensures ok <==> BlockAccepted(o, old(txdb.View()), b, bestHeight)
    ensures ok ==>
      txdb.View() == Apply(old(txdb.View()), BatchOf(o, b)) && ShowsChain(o, txdb.View(), b) && MoneyExact(o, nodes, b)
    ensures MoneyExact(o, nodes, b.pprev) && txdb.StaysInTxn()
  {
    assert RecordedAt(o, b.pprev);
    hide BlockAccepted, Apply, ShowsChain, Anchored;
    ok := ConnectNextBlock(o, pool, txdb, b, bestHeight);
    MoneyStep(o, nodes, b, ok);
  }

  /** The postponing loop of SetBestChain: goes back to the first block of the new chain
      whose parent does not have more trust than the old best. */
  method Postpone(pindexNew: CBlockIndex, bestTrust: nat)
    returns (intermediate: CBlockIndex, secondary: seq<CBlockIndex>)
    requires Linked(pindexNew)
    ensures Linked(intermediate) && Descends(secondary, pindexNew, intermediate)
    ensures intermediate == Intermediate(pindexNew, bestTrust)
    ensures intermediate.pprev == null || intermediate.pprev.nChainTrust <= bestTrust
    ensures forall i :: 0 <= i < |secondary| ==>
      secondary[i].pprev != null && secondary[i].pprev.nChainTrust > bestTrust
  {
    intermediate, secondary := pindexNew, [];
    while intermediate.pprev != null && intermediate.pprev.nChainTrust > bestTrust
      invariant Linked(intermediate) && Descends(secondary, pindexNew, intermediate)
      invariant Intermediate(pindexNew, bestTrust) == Intermediate(intermediate, bestTrust)
      invariant forall i :: 0 <= i < |secondary| ==>
        secondary[i].pprev != null && secondary[i].pprev.nChainTrust > bestTrust
      decreases intermediate.nHeight
    {
      AncAnc(pindexNew, intermediate.nHeight, intermediate.nHeight - 1);
      secondary := secondary + [intermediate];
      intermediate := intermediate.pprev;
    }
  }

  /** Database, links and recorded money all describe the chain that ends in `tip`. */
  ghost predicate ChainIs(o: Oracle, tree: Tree, committed: IndexMap, committedBest: Hash, tip: CBlockIndex)
    reads tree.Values
  {
    && InTree(tree, tip) && Linked(tip)
    && ShowsChain(o, committed, tip)
    && committedBest == tip.hash
    && PnextExact(tree.Values, tip)
    && MoneyExact(o, tree.Values, tip)
  }

  /** With only the genesis block connected there is nothing in the index. */
  lemma GenesisChain(o: Oracle, tree: Tree, genesis: CBlockIndex)
    requires InTree(tree, genesis) && Linked(genesis) && genesis.pprev == null
    requires forall x :: x in tree.Values ==> x.pnext == null && x.nMoneySupply == 0
    ensures ChainIs(o, tree, map[], genesis.hash, genesis)
  {
    assert Anc(genesis, 0) == genesis;
    forall x | x in tree.Values ensures NextOn(x, genesis) == null && (OnPath(x, genesis) ==> RecordedAt(o, x)) {
    }
  }

  /** The node filed under the genesis hash has no parent. */
  lemma NoOtherRoot(o: Oracle, tree: Tree, genesis: Hash, b: CBlockIndex)
    requires TreeOk(o, tree, genesis) && InTree(tree, b) && b.hash == genesis
    ensures b.pprev == null
  {
    assert NodeOk(o, tree, genesis, b.hash);
    RootIsGenesis(o, tree, genesis, b);
  }

  /** The end of SetBestChainInner: record the new best chain, commit, link the block. */
  method CommitTip(ghost o: Oracle, txdb: CTxDB, ghost nodes: set<CBlockIndex>, b: CBlockIndex)
    requires Linked(b) && b.pprev != null && b.pprev in nodes && txdb.active
    requires ShowsChain(o, txdb.View(), b) && PnextExact(nodes, b.pprev)
    modifies txdb, nodes`pnext
    ensures txdb.committed == old(txdb.View())
    ensures !txdb.active && ShowsChain(o, txdb.committed, b) && txdb.committedBest == b.hash && PnextExact(nodes, b)
  {
    hide PnextExact, ShowsChain, Linked;
    txdb.WriteHashBestChain(b.hash);
    txdb.TxnCommit();
    SetNext(nodes, b);
  }

  /** The end of Reorganize: the links change only after the database has committed. */
  method CommitBranch(ghost o: Oracle, txdb: CTxDB, ghost nodes: set<CBlockIndex>, ghost best: CBlockIndex,
                      ghost fork: CBlockIndex, tip: CBlockIndex, vDisconnect: seq<CBlockIndex>,
                        vConnect: seq<CBlockIndex>)
    requires Linked(best) && Linked(tip) && Linked(fork) && txdb.active && ShowsChain(o, txdb.View(), tip)
    requires Descends(vDisconnect, best, fork) && Ascends(vConnect, fork, tip) && PnextExact(nodes, best)
    requires forall i :: 0 <= i < |vDisconnect| ==> vDisconnect[i].pprev != null && vDisconnect[i].pprev in nodes
    requires forall i :: 0 <= i < |vConnect| ==> vConnect[i].pprev != null && vConnect[i].pprev in nodes
    modifies txdb, nodes`pnext
    ensures txdb.committed == old(txdb.View())
    ensures !txdb.active && ShowsChain(o, txdb.committed, tip) && txdb.committedBest == tip.hash &&
      PnextExact(nodes, tip)
  {
    hide PnextExact, ShowsChain, Linked, Descends, Ascends;
    txdb.WriteHashBestChain(tip.hash);
    txdb.TxnCommit();
    UnlinkBranch(nodes, best, fork, vDisconnect);
    LinkBranch(nodes, fork, tip, vConnect);
  }

  class CChainState {
    const o: Oracle
    const hashGenesisBlock: Hash
    const txdb: CTxDB
    var pool: Pool
    var mapBlockIndex: Tree
    var pindexGenesisBlock: CBlockIndex?
    var pindexBest: CBlockIndex?
    var hashBestChain: Hash
    var nBestHeight: int
    var nBestChainTrust: nat

    constructor (o: Oracle, genesis: Hash)
      ensures this.o == o && hashGenesisBlock == genesis && fresh(txdb)
      ensures mapBlockIndex == map[] && Valid()
    {
      this.o, hashGenesisBlock := o, genesis;
      txdb := new CTxDB();
      pool, mapBlockIndex := map[], map[];
      pindexGenesisBlock, pindexBest := null, null;
      hashBestChain, nBestHeight, nBestChainTrust := 0, -1, 0;
    }

    ghost function Nodes(): set<CBlockIndex>
      reads this
    {
      mapBlockIndex.Values
    }

    /** Database, links and recorded money all describe the chain that ends in `tip`. */
    ghost predicate ChainAt(tip: CBlockIndex)
      reads this, txdb, Nodes()
    {
      ChainIs(o, mapBlockIndex, txdb.committed, txdb.committedBest, tip)
    }

    /** The database follows the chain to `b` but stops before reaching it. */
    ghost predicate StoppedBelow(b: CBlockIndex)
      reads this, txdb, Nodes()
    {
      Linked(b) && exists tip :: tip in Nodes() && OnPath(tip, b) && tip != b && ChainAt(tip)
    }

    ghost predicate TreeValid()
      reads this
    {
      TreeOk(o, mapBlockIndex, hashGenesisBlock)
    }

    /** The globals describe the tip. */
    ghost predicate TipSet()
      reads this
    {
      && pindexBest != null && pindexGenesisBlock != null && pindexGenesisBlock.hash == hashGenesisBlock
      && InTree(mapBlockIndex, pindexBest)
      && hashBestChain == pindexBest.hash && nBestHeight == pindexBest.nHeight
      && nBestChainTrust == pindexBest.nChainTrust
    }

    ghost predicate NothingYet()
      reads this, txdb, Nodes()
    {
      && pindexBest == null && pindexGenesisBlock == null && nBestHeight == -1 && nBestChainTrust == 0
      && txdb.committed == map[]
      && forall x :: x in Nodes() ==> x.pnext == null && x.nMoneySupply == 0
    }

    ghost predicate Valid()
      reads this, txdb, Nodes()
    {
      && TreeValid() && !txdb.active
      && (NothingYet() || (TipSet() && ChainAt(pindexBest)))
    }

    // ------------------------------------------------------------------- Reorganize

    /** Reorganize, inside a database transaction that has just begun. */
    method Reorganize(ghost best: CBlockIndex, pindexNew: CBlockIndex)
      returns (ok: bool, ghost undone: seq<CBlockIndex>)
      requires TreeValid() && TipSet() && pindexBest == best && ChainAt(best)
      requires txdb.active && txdb.View() == txdb.committed && txdb.BestView() == txdb.committedBest
      requires InTree(mapBlockIndex, pindexNew)
      modifies txdb, Nodes()
      ensures Linked(best) && Linked(pindexNew)
      ensures ok <==> Switches(o, old(txdb.committed), best, pindexNew, nBestHeight)
      ensures ok ==> txdb.committed == Switched(o, old(txdb.committed), best, pindexNew)
      ensures LastShared(best, pindexNew) != null && undone <= Down(best, LastShared(best, pindexNew))
      ensures ok ==> undone == Down(best, LastShared(best, pindexNew))
      ensures ok ==> !txdb.active && ChainAt(pindexNew)
      ensures !ok ==> txdb.active && ChainAt(best) && txdb.committed == old(txdb.committed)
      ensures !ok ==> forall x :: x in Nodes() ==> x.pnext == old(x.pnext)
    {
      assert NodeOk(o, mapBlockIndex, hashGenesisBlock, best.hash);
      assert NodeOk(o, mapBlockIndex, hashGenesisBlock, pindexNew.hash);
      var fork := FindFork(pindexBest, pindexNew);
      RootIsGenesis(o, mapBlockIndex, hashGenesisBlock, best);
      RootIsGenesis(o, mapBlockIndex, hashGenesisBlock, pindexNew);
      if fork == null {
        // two blocks of one tree share its genesis block
        assert false;
      }
      var vDisconnect := DisconnectList(pindexBest, fork);
      var vConnect := ConnectList(pindexNew, fork);
      ForkIsLastShared(fork, best, pindexNew);
      hide ChainIs, TreeOk, Switches, Switched, Linked;
      ok, undone := SwitchBranch(best, fork, pindexNew, vDisconnect, vConnect);
    }

    /** Reorganize once the fork and the two lists are known. */
    method SwitchBranch(ghost best: CBlockIndex, fork: CBlockIndex, pindexNew: CBlockIndex,
                        vDisconnect: seq<CBlockIndex>, vConnect: seq<CBlockIndex>)
      returns (ok: bool, ghost undone: seq<CBlockIndex>)
      requires TreeValid() && ChainAt(best) && InTree(mapBlockIndex, pindexNew) && Linked(pindexNew)
      requires txdb.active && txdb.View() == txdb.committed && txdb.BestView() == txdb.committedBest
      requires IsFork(fork, best, pindexNew) && Descends(vDisconnect, best, fork) && Ascends(vConnect, fork, pindexNew)
      requires LastShared(best, pindexNew) == fork
      modifies txdb, Nodes()
      ensures ok <==> Switches(o, old(txdb.committed), best, pindexNew, nBestHeight)
      ensures ok ==> txdb.committed == Switched(o, old(txdb.committed), best, pindexNew)
      ensures undone <= vDisconnect && (ok ==> undone == vDisconnect)
      ensures ok ==> !txdb.active && ChainAt(pindexNew)
      ensures !ok ==> txdb.active && ChainAt(best) && txdb.committed == old(txdb.committed)
      ensures !ok ==> forall x :: x in Nodes() ==> x.pnext == old(x.pnext)
    {
      BranchesMeet(o, mapBlockIndex, hashGenesisBlock, best, fork, pindexNew, vDisconnect, vConnect);
      assert vDisconnect == Down(best, fork) && vConnect == Up(fork, pindexNew);
      assert Linked(best) && ShowsChain(o, txdb.View(), best);
      hide Descends, Ascends, Anc, IsFork, Linked, TreeOk, ShowsChain, ChainIs, Branching;
      hide LastShared, Down, Up, UndoBlocks, BlocksAccepted, ApplyBlocks;
      ok, undone := DisconnectBranch(o, txdb, best, fork, vDisconnect);
      if !ok {
        return;
      }
      ok := ConnectAndCommit(best, fork, pindexNew, vDisconnect, vConnect);
    }

    /** The rest of Reorganize, with the old branch disconnected. */
    method ConnectAndCommit(ghost best: CBlockIndex, fork: CBlockIndex, pindexNew: CBlockIndex,
                            vDisconnect: seq<CBlockIndex>, vConnect: seq<CBlockIndex>)
      returns (ok: bool)
      requires Linked(best) && Linked(fork) && Branching(o, mapBlockIndex, best, fork, pindexNew, vDisconnect, vConnect)
      requires txdb.active && ShowsChain(o, txdb.View(), fork) && ChainAt(best) && txdb.BestView() == txdb.committedBest
      modifies txdb, Nodes()
      ensures ok <==> BlocksAccepted(o, old(txdb.View()), vConnect, nBestHeight)
      ensures ok ==> !txdb.active && txdb.committed == ApplyBlocks(o, old(txdb.View()), vConnect) && ChainAt(pindexNew)
      ensures !ok ==> txdb.active && ChainAt(best) && txdb.committed == old(txdb.committed)
      ensures !ok ==> forall x :: x in Nodes() ==> x.pnext == old(x.pnext)
    {
      hide Descends, Ascends, Anc, IsFork, Linked, Anchored, ShowsChain, Applicable, Trims, BlocksAccepted, ApplyBlocks;
      ghost var nodes := Nodes();
      ok := ConnectAndRecord(o, pool, txdb, nodes, best, fork, pindexNew, vConnect, nBestHeight);
      if !ok {
        return;
      }
      CommitBranch(o, txdb, nodes, best, fork, pindexNew, vDisconnect, vConnect);
    }

    // ----------------------------------------------------------------- SetBestChain

    /** SetBestChainInner: connects one block on top of the tip `pindexNew.pprev`, inside a
        database transaction that has just begun, and commits or aborts it. */
    method SetBestChainInner(pindexNew: CBlockIndex) returns (ok: bool)
      requires TreeValid() && InTree(mapBlockIndex, pindexNew) && pindexNew.pprev != null && ChainAt(pindexNew.pprev)
      requires txdb.active && txdb.View() == txdb.committed && txdb.BestView() == txdb.committedBest
      modifies txdb, Nodes()
      ensures !txdb.active && Linked(pindexNew)
      ensures ok <==> BlockAccepted(o, old(txdb.committed), pindexNew, nBestHeight)
      ensures ok ==> txdb.committed == Apply(old(txdb.committed), BatchOf(o, pindexNew))
      ensures ok ==> ChainAt(pindexNew)
      ensures !ok ==> ChainAt(pindexNew.pprev) && txdb.committed == old(txdb.committed)
      ensures !ok ==> forall x :: x in Nodes() ==> x.pnext == old(x.pnext)
    {
      ghost var tip, nodes := pindexNew.pprev, Nodes();
      assert NodeOk(o, mapBlockIndex, hashGenesisBlock, pindexNew.hash);
      hide TreeOk, NodeOk, Linked, Anchored, ShowsChain, PnextExact, MoneyExact, BlockAccepted, Apply;
      ok := ConnectAndRecordNext(o, pool, txdb, nodes, pindexNew, nBestHeight);
      if !ok {
        txdb.TxnAbort();
        return;
      }
      CommitTip(o, txdb, nodes, pindexNew);
    }

    /** SetBestChain.  `allConnected` is false when the loop that connects the postponed
        blocks stopped early; the source does not report that.  `undone` are the blocks
        disconnected on the way. */
    method SetBestChain(pindexNew: CBlockIndex) returns (ok: bool, allConnected: bool, ghost undone: seq<CBlockIndex>)
      requires Valid() && InTree(mapBlockIndex, pindexNew)
      requires pindexBest == null ==> pindexNew.hash == hashGenesisBlock
      modifies this`pindexGenesisBlock, this`pindexBest, this`hashBestChain, this`nBestHeight, this`nBestChainTrust
      modifies txdb, Nodes()
      ensures TreeValid() && !txdb.active
      ensures ok <==> CanMove(o, old(txdb.committed), old(pindexBest), pindexNew, old(nBestHeight))
      ensures ok && allConnected <==> CanFinish(o, old(txdb.committed), old(pindexBest), pindexNew, old(nBestHeight))
      ensures ok && allConnected ==> txdb.committed == MovedTo(o, old(txdb.committed), old(pindexBest), pindexNew)
      ensures OffNewChain(undone, old(pindexBest), pindexNew)
      ensures ok ==> Disconnects(undone, old(pindexBest), pindexNew)
      ensures ok ==> TipSet() && pindexBest == pindexNew
      ensures ok ==> (Valid() <==> allConnected)
      ensures ok && !allConnected ==> StoppedBelow(pindexNew)
      ensures old(pindexBest) == null ==> ok && allConnected
      ensures !ok ==> allConnected && Valid() && pindexBest == old(pindexBest) && txdb.committed == old(txdb.committed)
      ensures !ok ==> forall x :: x in Nodes() ==> x.pnext == old(x.pnext)
    {
      hide ChainIs, TreeOk, Linked, CanMove, CanFinish, OffNewChain;
      ok, allConnected, undone := MoveTo(pindexNew);
      if !ok {
        return;
      }
      if pindexGenesisBlock == null {
        pindexGenesisBlock := pindexNew;
      }
      hashBestChain := pindexNew.hash;
      pindexBest := pindexNew;
      nBestHeight := pindexBest.nHeight;
      nBestChainTrust := pindexNew.nChainTrust;
      if !allConnected {
        StoppedIsNotExact(pindexNew);
      }
    }

    /** A chain that stops below the best block has links that do not lead there. */
    lemma StoppedIsNotExact(best: CBlockIndex)
      requires TipSet() && pindexBest == best && StoppedBelow(best)
      ensures !ChainAt(best)
    {
      var tip :| tip in Nodes() && OnPath(tip, best) && tip != best && ChainAt(tip);
      assert tip.pnext == NextOn(tip, tip) == null;
      assert NextOn(tip, best) != null;
    }

    /** The three ways SetBestChain gets to the new tip. */
    method MoveTo(pindexNew: CBlockIndex) returns (ok: bool, allConnected: bool, ghost undone: seq<CBlockIndex>)
      requires Valid() && InTree(mapBlockIndex, pindexNew)
      requires pindexBest == null ==> pindexNew.hash == hashGenesisBlock
      modifies txdb, Nodes()
      ensures !txdb.active
      ensures ok <==> CanMove(o, old(txdb.committed), pindexBest, pindexNew, nBestHeight)
      ensures ok && allConnected <==> CanFinish(o, old(txdb.committed), pindexBest, pindexNew, nBestHeight)
      ensures ok && allConnected ==> txdb.committed == MovedTo(o, old(txdb.committed), pindexBest, pindexNew)
      ensures OffNewChain(undone, pindexBest, pindexNew)
      ensures ok ==> Disconnects(undone, pindexBest, pindexNew)
      ensures ok && allConnected ==> ChainAt(pindexNew)
      ensures ok && !allConnected ==> StoppedBelow(pindexNew)
      ensures pindexBest == null ==> ok && allConnected
      ensures !ok ==> allConnected && pindexBest != null && ChainAt(pindexBest) && txdb.committed == old(txdb.committed)
      ensures !ok ==> forall x :: x in Nodes() ==> x.pnext == old(x.pnext)
    {
      ok, allConnected, undone := true, true, [];
      assert NodeOk(o, mapBlockIndex, hashGenesisBlock, pindexNew.hash);
      hide ChainIs;
      txdb.TxnBegin();
      if pindexGenesisBlock == null && pindexNew.hash == hashGenesisBlock {
        if pindexNew.pprev != null {
          NoOtherRoot(o, mapBlockIndex, hashGenesisBlock, pindexNew);
        }
        txdb.WriteHashBestChain(pindexNew.hash);
        txdb.TxnCommit();
        GenesisChain(o, mapBlockIndex, pindexNew);
      } else if pindexNew.block.hashPrev == hashBestChain {
        assert NodeOk(o, mapBlockIndex, hashGenesisBlock, pindexBest.hash);
        assert pindexNew.pprev == pindexBest;
        NextCanMove(o, txdb.committed, pindexBest, pindexNew, nBestHeight);
        ok := SetBestChainInner(pindexNew);
      } else {
        ok, allConnected, undone := SwitchChain(pindexNew);
      }
    }

    /** The branch of SetBestChain that reorganizes: blocks above the first one with more
        trust than the old best are postponed and connected one by one afterwards. */
    method SwitchChain(pindexNew: CBlockIndex) returns (ok: bool, allConnected: bool, ghost undone: seq<CBlockIndex>)
      requires TreeValid() && TipSet() && ChainAt(pindexBest) && InTree(mapBlockIndex, pindexNew)
      requires txdb.active && txdb.View() == txdb.committed && txdb.BestView() == txdb.committedBest
      modifies txdb, Nodes()
      ensures !txdb.active && Linked(pindexNew) && Linked(pindexBest)
      ensures ok <==> CanMove(o, old(txdb.committed), pindexBest, pindexNew, nBestHeight)
      ensures ok && allConnected <==> CanFinish(o, old(txdb.committed), pindexBest, pindexNew, nBestHeight)
      ensures ok && allConnected ==> txdb.committed == MovedTo(o, old(txdb.committed), pindexBest, pindexNew)
      ensures OffNewChain(undone, pindexBest, pindexNew)
      ensures undone <= Disconnected(pindexBest, pindexNew) && (ok ==> undone == Disconnected(pindexBest, pindexNew))
      ensures ok && allConnected ==> ChainAt(pindexNew)
      ensures ok && !allConnected ==> StoppedBelow(pindexNew)
      ensures !ok ==> allConnected && ChainAt(pindexBest) && txdb.committed == old(txdb.committed)
      ensures !ok ==> forall x :: x in Nodes() ==> x.pnext == old(x.pnext)
    {
      allConnected := true;
      assert NodeOk(o, mapBlockIndex, hashGenesisBlock, pindexNew.hash);
      var pindexIntermediate, secondary := Postpone(pindexNew, pindexBest.nChainTrust);
      AncInTree(o, mapBlockIndex, hashGenesisBlock, pindexNew, pindexIntermediate.nHeight);
      SharedStay(o, mapBlockIndex, hashGenesisBlock, pindexBest, pindexNew);
      assert Linked(pindexNew) && Linked(pindexBest);
      hide ChainIs, TreeOk, NodeOk, Linked, Anc, Switches, Switched, BlocksAccepted, LastShared, Down, Up, Intermediate;
      ok, undone := Reorganize(pindexBest, pindexIntermediate);
      if !ok {
        txdb.TxnAbort();
        return;
      }
      allConnected := ConnectSecondary(pindexNew, pindexIntermediate, secondary);
    }

    /** Connects the postponed blocks, lowest first, each in its own transaction. */
    method ConnectSecondary(ghost pindexNew: CBlockIndex, ghost from: CBlockIndex, v: seq<CBlockIndex>)
      returns (allConnected: bool)
      requires TreeValid() && Linked(pindexNew) && InTree(mapBlockIndex, pindexNew)
      requires Descends(v, pindexNew, from) && ChainAt(from) && !txdb.active
      modifies txdb, Nodes()
      ensures !txdb.active
      ensures allConnected <==> BlocksAccepted(o, old(txdb.committed), Up(from, pindexNew), nBestHeight)
      ensures allConnected ==> txdb.committed == ApplyBlocks(o, old(txdb.committed), Up(from, pindexNew))
      ensures allConnected ==> ChainAt(pindexNew)
      ensures !allConnected ==> StoppedBelow(pindexNew)
    {
      hide ChainAt, StoppedBelow, TreeValid, Linked, Descends, Up, ChainDown, StillToConnect, BlocksAccepted, InTree,
        OnPath, Anc;
      DescendLength(v, pindexNew, from);
      ghost var w, start := Up(from, pindexNew), txdb.committed;
      UpLength(from, pindexNew);
      ChainEnds(pindexNew, from);
      StillEnds(o, start, w, nBestHeight);
      var i := |v|;
      ghost var k := 0;
      while i > 0
        invariant 0 <= i && 0 <= k && i + k == |v| && !txdb.active && ChainDown(pindexNew, i)
        invariant StillToConnect(o, start, txdb.committed, w, k, nBestHeight)
      {
        i := i - 1;
        var ok := ConnectOneMore(pindexNew, from, v, i, v[i], w, start, k);
        if !ok {
          return false;
        }
        k := k + 1;
      }
      ChainEnds(pindexNew, from);
      allConnected := true;
    }

    lemma ChainEnds(b: CBlockIndex, from: CBlockIndex)
      requires Linked(b) && OnPath(from, b)
      ensures ChainDown(b, b.nHeight - from.nHeight) <==> ChainAt(from)
      ensures ChainDown(b, 0) <==> ChainAt(b)
    {
      assert Anc(b, b.nHeight) == b && Anc(b, from.nHeight) == from;
    }

    method ConnectOneMore(ghost pindexNew: CBlockIndex, ghost from: CBlockIndex, ghost v: seq<CBlockIndex>,
                          ghost i: nat,
                          b: CBlockIndex, ghost w: seq<CBlockIndex>, ghost start: IndexMap, ghost k: nat)
      returns (ok: bool)
      requires TreeValid() && Linked(pindexNew) && InTree(mapBlockIndex, pindexNew) && Descends(v, pindexNew, from)
      requires i < |v| && b == v[i] && !txdb.active && ChainDown(pindexNew, i + 1)
      requires w == Up(from, pindexNew) && i + 1 + k == |v| &&
        StillToConnect(o, start, txdb.committed, w, k, nBestHeight)
      modifies txdb, Nodes()
      ensures !txdb.active
      ensures if ok then ChainDown(pindexNew, i) && StillToConnect(o, start, txdb.committed, w, k + 1, nBestHeight)
              else StoppedBelow(pindexNew) && !BlocksAccepted(o, start, w, nBestHeight)
    {
      hide ChainAt, TreeOk, Linked, Descends, Up, ChainDown, StoppedBelow, InTree, BlockAccepted, Apply, StillToConnect;
      DownIsUp(v, from, pindexNew, i);
      StillStep(o, start, txdb.committed, w, k, nBestHeight);
      ok := ConnectOne(pindexNew, from, v, i, b);
    }

    /** The same blocks in the other order. */
    static lemma DownIsUp(v: seq<CBlockIndex>, from: CBlockIndex, b: CBlockIndex, i: nat)
      requires Linked(b) && Descends(v, b, from) && i < |v|
      ensures |Up(from, b)| == |v| && v[i] == Up(from, b)[|v| - 1 - i] && Linked(v[i])
    {
      assert v[i] == Anc(b, b.nHeight - i);
    }

    /** The chain reaches i blocks below `b`. */
    ghost predicate ChainDown(b: CBlockIndex, i: nat)
      requires Linked(b)
      reads this, txdb, Nodes()
    {
      i <= b.nHeight && ChainAt(Anc(b, b.nHeight - i))
    }

    method ConnectOne(ghost pindexNew: CBlockIndex, ghost from: CBlockIndex, ghost v: seq<CBlockIndex>, ghost i: nat,
                      b: CBlockIndex)
      returns (ok: bool)
      requires TreeValid() && Linked(pindexNew) && InTree(mapBlockIndex, pindexNew) && Descends(v, pindexNew, from)
      requires i < |v| && b == v[i] && !txdb.active && ChainDown(pindexNew, i + 1)
      modifies txdb, Nodes()
      ensures !txdb.active && Linked(b)
      ensures ok <==> BlockAccepted(o, old(txdb.committed), b, nBestHeight)
      ensures ok ==> txdb.committed == Apply(old(txdb.committed), BatchOf(o, b))
      ensures ok ==> ChainDown(pindexNew, i)
      ensures !ok ==> StoppedBelow(pindexNew)
    {
      ghost var tip := b.pprev;
      NextToConnect(o, mapBlockIndex, hashGenesisBlock, pindexNew, from, v, i);
      assert ChainAt(tip);
      hide ChainAt, TreeOk, Linked, Descends, ChainDown, StoppedBelow, BlockAccepted, Apply, InTree;
      txdb.TxnBegin();
      ok := SetBestChainInner(b);
      if ok {
        ReachedDown(pindexNew, b, i);
      } else {
        StoppedAt(pindexNew, tip);
      }
    }

    lemma ReachedDown(pindexNew: CBlockIndex, b: CBlockIndex, i: nat)
      requires Linked(pindexNew) && i <= pindexNew.nHeight && b == Anc(pindexNew, pindexNew.nHeight - i) && ChainAt(b)
      ensures ChainDown(pindexNew, i)
    {
    }

    lemma StoppedAt(pindexNew: CBlockIndex, tip: CBlockIndex)
      requires Linked(pindexNew) && OnPath(tip, pindexNew) && tip != pindexNew && InTree(mapBlockIndex, tip) &&
        ChainAt(tip)
      ensures StoppedBelow(pindexNew)
    {
    }

    // -------------------------------------------------------------- AddToBlockIndex

    /** The tree with a new leaf is a tree, and what held of the chain still holds. */
    lemma AddedLeaf(tree: Tree, b: CBlockIndex)
      requires TreeOk(o, tree, hashGenesisBlock) && b.hash !in tree && b.hash == b.block.hash != 0 && Stored(o, b)
      requires if b.pprev == null then
        tree == map[] && b.hash == hashGenesisBlock && b.block.hashPrev == 0 && b.nHeight == 0
               else InTree(tree, b.pprev) && b.block.hashPrev == b.pprev.hash && b.nHeight == b.pprev.nHeight + 1
                    && b.pprev.nChainTrust < b.nChainTrust
      ensures TreeOk(o, tree[b.hash := b], hashGenesisBlock)
      ensures b !in tree.Values
    {
      if b.pprev != null {
        assert NodeOk(o, tree, hashGenesisBlock, b.pprev.hash);
      }
      var larger := tree[b.hash := b];
      forall h | h in larger ensures NodeOk(o, larger, hashGenesisBlock, h) {
        if h != b.hash {
          assert NodeOk(o, tree, hashGenesisBlock, h);
        }
      }
      forall h | h in tree ensures tree[h] != b {
        assert NodeOk(o, tree, hashGenesisBlock, h);
      }
    }

    lemma LeafKeepsChain(tree: Tree, b: CBlockIndex, tip: CBlockIndex)
      requires TreeOk(o, tree, hashGenesisBlock) && ChainIs(o, tree, txdb.committed, txdb.committedBest, tip)
      requires b.hash !in tree && b.pnext == null
      ensures ChainIs(o, tree[b.hash := b], txdb.committed, txdb.committedBest, tip)
    {
      assert !OnPath(b, tip) by {
        if OnPath(b, tip) {
          AncInTree(o, tree, hashGenesisBlock, tip, b.nHeight);
        }
      }
      assert tree[b.hash := b].Values <= tree.Values + {b};
    }

    /** The first half of AddToBlockIndex: a node for the block, filed under its hash. */
    method FileBlock(block: Block, blockTrust: nat, nFile: nat, nBlockPos: nat) returns (b: CBlockIndex)
      requires Valid() && block.hash != 0 && blockTrust > 0 && block.hash !in mapBlockIndex
      requires if block.hashPrev in mapBlockIndex then true
               else mapBlockIndex == map[] && block.hash == hashGenesisBlock && block.hashPrev == 0
      requires StoredAt(o, block.vtx, nFile, nBlockPos)
      modifies this`mapBlockIndex
      ensures Valid() && fresh(b) && b.block == block && b.hash == block.hash
      ensures mapBlockIndex == old(mapBlockIndex)[block.hash := b]
      ensures b.pprev == if block.hashPrev in old(mapBlockIndex) then old(mapBlockIndex)[block.hashPrev] else null
      ensures b.nChainTrust == (if b.pprev == null then 0 else b.pprev.nChainTrust) + blockTrust
    {
      ghost var tree := mapBlockIndex;
      var pprev: CBlockIndex? := null;
      if block.hashPrev in mapBlockIndex {
        pprev := mapBlockIndex[block.hashPrev];
        assert NodeOk(o, tree, hashGenesisBlock, block.hashPrev);
      }
      b := new CBlockIndex(block, pprev, blockTrust, nFile, nBlockPos);
      StoredHere(o, b);
      AddedLeaf(tree, b);
      if pindexBest != null {
        LeafKeepsChain(tree, b, pindexBest);
      }
      hide ChainIs, TreeOk, NodeOk, Stored, StoredAt, Linked;
      mapBlockIndex := mapBlockIndex[block.hash := b];
    }

    /** AddToBlockIndex: files the block and, if its chain has more trust than the best
        one, makes it the best.  Stake modifiers are not part of this model. */
    method AddToBlockIndex(block: Block, blockTrust: nat, nFile: nat, nBlockPos: nat)
      returns (ok: bool, allConnected: bool, pindexNew: CBlockIndex?, ghost undone: seq<CBlockIndex>)
      requires Valid() && block.hash != 0 && blockTrust > 0
      requires if block.hashPrev in mapBlockIndex then true
               else mapBlockIndex == map[] && block.hash == hashGenesisBlock && block.hashPrev == 0
      requires pindexBest == null ==> mapBlockIndex == map[]
      requires StoredAt(o, block.vtx, nFile, nBlockPos)
      modifies this`mapBlockIndex, this`pindexGenesisBlock, this`pindexBest
      modifies this`hashBestChain, this`nBestHeight, this`nBestChainTrust
      modifies txdb, Nodes()
      ensures TreeValid() && !txdb.active && (pindexBest == null ==> mapBlockIndex == map[])
      ensures allConnected ==> Valid()
      ensures pindexNew == null <==> block.hash in old(mapBlockIndex)
      ensures pindexNew == null ==> !ok && mapBlockIndex == old(mapBlockIndex) && pindexBest == old(pindexBest)
      ensures pindexNew != null ==>
        && mapBlockIndex == old(mapBlockIndex)[block.hash := pindexNew] && fresh(pindexNew) && pindexNew.block == block
        && pindexNew.nChainTrust == (if pindexNew.pprev == null then 0 else pindexNew.pprev.nChainTrust) + blockTrust
        && pindexNew.pprev ==
          (if block.hashPrev in old(mapBlockIndex) then old(mapBlockIndex)[block.hashPrev] else null)
        && (pindexBest == old(pindexBest) || pindexBest == pindexNew)
      ensures !allConnected ==> pindexBest == pindexNew && pindexNew != null && TipSet() && StoppedBelow(pindexNew)
      ensures pindexNew != null && pindexNew.nChainTrust <= old(nBestChainTrust) ==>
        ok && allConnected && undone == [] && pindexBest == old(pindexBest) && txdb.committed == old(txdb.committed)
      ensures pindexNew != null && pindexNew.nChainTrust > old(nBestChainTrust) ==>
        && (ok <==> CanMove(o, old(txdb.committed), old(pindexBest), pindexNew, old(nBestHeight)))
        && (ok && allConnected <==> CanFinish(o, old(txdb.committed), old(pindexBest), pindexNew, old(nBestHeight)))
        && (ok && allConnected ==> txdb.committed == MovedTo(o, old(txdb.committed), old(pindexBest), pindexNew))
        && (ok ==> pindexBest == pindexNew && Disconnects(undone, old(pindexBest), pindexNew))
        && (!ok ==> pindexBest == old(pindexBest))
      ensures if pindexNew == null then undone == [] else OffNewChain(undone, old(pindexBest), pindexNew)
    {
      ok, allConnected, pindexNew, undone := false, true, null, [];
      if block.hash in mapBlockIndex {
        return;
      }
      hide ChainAt, TreeOk, Linked, CanMove, CanFinish, OffNewChain;
      var b := FileBlock(block, blockTrust, nFile, nBlockPos);
      pindexNew := b;
      ok := true;
      if b.nChainTrust > nBestChainTrust {
        ok, allConnected, undone := SetBestChain(b);
      }
    }

    // ------------------------------------------------------- what Valid means outside

    /** In every valid state the unspent outputs in the database are those of replaying the
        best chain, its tip records exactly the money they hold, and the main-chain test
        recognizes exactly its blocks. */
    lemma ValidMeans()
      requires Valid() && pindexBest != null
      ensures Linked(pindexBest) && Applicable(o, pindexBest)
      ensures forall op :: IsUnspent(txdb.committed, op) <==> IsUnspent(Replay(o, pindexBest), op)
      ensures pindexBest.nMoneySupply == Supply(o.disk, txdb.committed)
      ensures forall x :: x in Nodes() ==> (IsInMainChain(x, pindexBest) <==> OnPath(x, pindexBest))
    {
      TrimsSameUnspent(txdb.committed, Replay(o, pindexBest));
      TrimsSupply(o.disk, txdb.committed, Replay(o, pindexBest));
      assert OnPath(pindexBest, pindexBest) && RecordedAt(o, pindexBest);
    }
  }
}
