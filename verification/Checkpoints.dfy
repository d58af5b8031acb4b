/** Synchronized checkpoints (src/checkpoints.cpp) and AcceptBlock's use of them. */
module Checkpoints {
  import opened Transactions
  import opened Blocks
  import opened ChainState

  datatype CPMode = Strict | Advisory | Permissive

  /** Neither `s` nor an ancestor of it is among the disconnected blocks. */
  ghost predicate KeepsUpTo(s: CBlockIndex?, undone: seq<CBlockIndex>) {
    s != null && Linked(s) && forall x :: x in undone ==> !OnPath(x, s)
  }

  /** Moving the best chain to a descendant of `s` disconnects nothing up to `s`. */
  lemma DescendantKeeps(s: CBlockIndex, c: CBlockIndex, best: CBlockIndex?, undone: seq<CBlockIndex>)
    requires Linked(s) && Linked(c) && OnPath(s, c) && OffNewChain(undone, best, c)
    ensures KeepsUpTo(s, undone)
  {
    forall x | x in undone ensures !OnPath(x, s) {
      if OnPath(x, s) {
        OnPathTrans(x, s, c);
      }
    }
  }

  lemma KeepsBoth(s: CBlockIndex?, undone: seq<CBlockIndex>, more: seq<CBlockIndex>)
    requires KeepsUpTo(s, undone) && KeepsUpTo(s, more)
    ensures KeepsUpTo(s, undone + more)
  {
  }

  lemma OnPathTrans(a: CBlockIndex, b: CBlockIndex, c: CBlockIndex)
    requires Linked(c) && Linked(b) && OnPath(a, b) && OnPath(b, c)
    ensures OnPath(a, c)
  {
    AncAnc(c, b.nHeight, a.nHeight);
  }

  // ------------------------------------------------------------ where a checkpoint leads

  /** Both blocks are known, and the second is a proper descendant of the first. */
  ghost predicate Below(tree: Tree, sync: Hash, h: Hash) {
    && sync in tree && h in tree && Linked(tree[h]) && OnPath(tree[sync], tree[h]) && tree[sync] != tree[h]
  }

  /** Both blocks are known, and neither is an ancestor of the other. */
  ghost predicate Clash(tree: Tree, sync: Hash, h: Hash) {
    && sync in tree && h in tree && Linked(tree[sync]) && Linked(tree[h])
    && !OnPath(tree[sync], tree[h]) && !OnPath(tree[h], tree[sync])
  }

  /** The committed index, the best block and its height. */
  datatype Tip = Tip(view: IndexMap, best: CBlockIndex?, height: int)

  /** The block is on the best chain, or the best chain can be moved to it. */
  ghost predicate Reachable(o: Oracle, t: Tip, c: CBlockIndex) {
    t.best != null && Linked(t.best) && (OnPath(c, t.best) || CanMove(o, t.view, t.best, c, t.height))
  }

  /** ... and so that every postponed block connects too. */
  ghost predicate FullyReachable(o: Oracle, t: Tip, c: CBlockIndex) {
    t.best != null && Linked(t.best) && (OnPath(c, t.best) || CanFinish(o, t.view, t.best, c, t.height))
  }

  /** The tip after the best chain has been moved to a block, unless it is on it. */
  ghost function BestAfter(t: Tip, c: CBlockIndex): CBlockIndex?
    requires t.best != null && Linked(t.best)
  {
    if OnPath(c, t.best) then t.best else c
  }

  /** The blocks disconnected on the way. */
  ghost function UndoneTo(t: Tip, c: CBlockIndex): seq<CBlockIndex>
    requires t.best != null && Linked(t.best) && Linked(c)
  {
    if OnPath(c, t.best) then [] else Disconnected(t.best, c)
  }

  /** A checkpoint is taken: it follows the sync-checkpoint, and the chain can follow it. */
  ghost predicate Taken(o: Oracle, tree: Tree, sync: Hash, h: Hash, t: Tip) {
    Below(tree, sync, h) && Reachable(o, t, tree[h])
  }

  /** A new block becomes the tip when it has more trust than the one before, and can. */
  ghost predicate Settles(o: Oracle, t: Tip, trust: nat, node: CBlockIndex) {
    node.nChainTrust <= trust || CanFinish(o, t.view, t.best, node, t.height)
  }

  ghost function TipWith(o: Oracle, t: Tip, trust: nat, node: CBlockIndex): Tip
    requires Settles(o, t, trust, node)
  {
    if node.nChainTrust <= trust then t else Tip(MovedTo(o, t.view, t.best, node), node, node.nHeight)
  }

  ghost function UndoneWith(t: Tip, trust: nat, node: CBlockIndex): seq<CBlockIndex>
    requires Linked(node) && (t.best != null ==> Linked(t.best))
  {
    if node.nChainTrust <= trust then [] else Disconnected(t.best, node)
  }

  /** The block that the pending checkpoint waits for, when it becomes the tip, is taken. */
  lemma ArrivedIsTaken(o: Oracle, tree: Tree, sync: Hash, t: Tip, trust: nat, node: CBlockIndex)
    requires InTree(tree, node) && Linked(node) && node.pprev != null && sync in tree && OnPath(tree[sync], node.pprev)
    requires node.nChainTrust > trust && Settles(o, t, trust, node)
    ensures Taken(o, tree, sync, node.hash, TipWith(o, t, trust, node))
    ensures BestAfter(TipWith(o, t, trust, node), node) == node
  {
    assert OnPath(node, node);
  }

  /** Steps back along pprev to a height, as the tracing loops do. */
  method TraceBack(from: CBlockIndex, height: nat) returns (p: CBlockIndex)
    requires Linked(from)
    ensures Linked(p) && p == if height <= from.nHeight then Anc(from, height) else from
  {
    p := from;
    while p.nHeight > height
      invariant Linked(p) && OnPath(p, from) && (p == from || p.nHeight >= height)
      decreases p.nHeight
    {
      AncAnc(from, p.nHeight, p.nHeight - 1);
      p := p.pprev;
    }
  }

  class CCheckpoints {
    const chain: CChainState
    const fTestNet: bool
    const mode: CPMode
    var hashSyncCheckpoint: Hash
    var hashPendingCheckpoint: Hash
    var hashInvalidCheckpoint: Hash

    /** Starts on a chain that has its genesis block, which is the first checkpoint. */
    constructor (chain: CChainState, fTestNet: bool, mode: CPMode)
      requires chain.Valid() && chain.pindexBest != null
      ensures this.chain == chain && this.fTestNet == fTestNet && this.mode == mode
      ensures Valid() && hashPendingCheckpoint == 0
    {
      this.chain, this.fTestNet, this.mode := chain, fTestNet, mode;
      hashSyncCheckpoint := chain.hashGenesisBlock;
      hashPendingCheckpoint, hashInvalidCheckpoint := 0, 0;
      new;
      assert NodeOk(chain.o, chain.mapBlockIndex, chain.hashGenesisBlock, chain.pindexBest.hash);
      RootIsGenesis(chain.o, chain.mapBlockIndex, chain.hashGenesisBlock, chain.pindexBest);
    }

    ghost function Frame(): set<object>
      reads this, chain
    {
      {this, chain, chain.txdb} + chain.Nodes()
    }

    /** The checkpointed block. */
    ghost function Sync(): CBlockIndex?
      reads this, chain
    {
      if hashSyncCheckpoint in chain.mapBlockIndex then chain.mapBlockIndex[hashSyncCheckpoint] else null
    }

    /** The block is the best block or one of its ancestors. */
    ghost predicate OnBest(s: CBlockIndex?)
      reads chain
    {
      s != null && chain.pindexBest != null && Linked(chain.pindexBest) && OnPath(s, chain.pindexBest)
    }

    /** The sync-checkpoint is on the best chain. */
    ghost predicate SyncOnBest()
      reads this, chain
    {
      && chain.TreeValid() && chain.pindexBest != null && InTree(chain.mapBlockIndex, chain.pindexBest)
      && OnBest(Sync())
    }

    ghost predicate Valid()
      reads this, chain, chain.txdb, chain.Nodes()
    {
      chain.Valid() && SyncOnBest()
    }

    ghost predicate Conflicts(hashCheckpoint: Hash)
      reads this`hashSyncCheckpoint, chain
    {
      Clash(chain.mapBlockIndex, hashSyncCheckpoint, hashCheckpoint)
    }

    ghost predicate ProperDescendant(hashCheckpoint: Hash)
      reads this`hashSyncCheckpoint, chain
    {
      Below(chain.mapBlockIndex, hashSyncCheckpoint, hashCheckpoint)
    }

    ghost function TipNow(): Tip
      reads chain, chain.txdb
    {
      Tip(chain.txdb.committed, chain.pindexBest, chain.nBestHeight)
    }

    ghost predicate Adoptable(hashCheckpoint: Hash)
      reads chain, chain.txdb
    {
      hashCheckpoint in chain.mapBlockIndex && Reachable(chain.o, TipNow(), chain.mapBlockIndex[hashCheckpoint])
    }

    ghost predicate FullyAdoptable(hashCheckpoint: Hash)
      reads chain, chain.txdb
    {
      hashCheckpoint in chain.mapBlockIndex && FullyReachable(chain.o, TipNow(), chain.mapBlockIndex[hashCheckpoint])
    }

    /** ValidateSyncCheckpoint. */
    method ValidateSyncCheckpoint(hashCheckpoint: Hash) returns (ok: bool)
      requires chain.TreeValid()
      modifies this`hashInvalidCheckpoint
      ensures ok <==> ProperDescendant(hashCheckpoint)
      ensures hashInvalidCheckpoint == if Conflicts(hashCheckpoint) then hashCheckpoint else old(hashInvalidCheckpoint)
    {
      if hashSyncCheckpoint !in chain.mapBlockIndex || hashCheckpoint !in chain.mapBlockIndex {
        return false;
      }
      assert NodeOk(chain.o, chain.mapBlockIndex, chain.hashGenesisBlock, hashSyncCheckpoint);
      assert NodeOk(chain.o, chain.mapBlockIndex, chain.hashGenesisBlock, hashCheckpoint);
      var pindexSync := chain.mapBlockIndex[hashSyncCheckpoint];
      var pindexRecv := chain.mapBlockIndex[hashCheckpoint];
      if pindexRecv.nHeight <= pindexSync.nHeight {
        var p := TraceBack(pindexSync, pindexRecv.nHeight);
        AncInTree(chain.o, chain.mapBlockIndex, chain.hashGenesisBlock, pindexSync, pindexRecv.nHeight);
        if p.hash != hashCheckpoint {
          hashInvalidCheckpoint := hashCheckpoint;
          return false;
        }
        return false;
      }
      var p := TraceBack(pindexRecv, pindexSync.nHeight);
      AncInTree(chain.o, chain.mapBlockIndex, chain.hashGenesisBlock, pindexRecv, pindexSync.nHeight);
      if p.hash != hashSyncCheckpoint {
        hashInvalidCheckpoint := hashCheckpoint;
        return false;
      }
      ok := true;
    }

    /** CheckSync, for a block whose parent is `pindexPrev`.  A known block passes too when
        it is lower than the sync-checkpoint, on whatever branch. */
    method CheckSync(hashBlock: Hash, pindexPrev: CBlockIndex) returns (ok: bool)
      requires chain.TreeValid() && hashSyncCheckpoint in chain.mapBlockIndex && InTree(chain.mapBlockIndex, pindexPrev)
      ensures fTestNet ==> ok
      ensures !fTestNet && hashBlock !in chain.mapBlockIndex ==>
        (ok <==> Linked(pindexPrev) && OnPath(chain.mapBlockIndex[hashSyncCheckpoint], pindexPrev))
      ensures !fTestNet && hashBlock in chain.mapBlockIndex && chain.mapBlockIndex[hashBlock].pprev == pindexPrev ==>
        (ok <==>
          var s, b := chain.mapBlockIndex[hashSyncCheckpoint], chain.mapBlockIndex[hashBlock];
          Linked(b) && (OnPath(s, b) || b.nHeight < s.nHeight))
    {
      if fTestNet {
        return true;
      }
      assert NodeOk(chain.o, chain.mapBlockIndex, chain.hashGenesisBlock, pindexPrev.hash);
      assert NodeOk(chain.o, chain.mapBlockIndex, chain.hashGenesisBlock, hashSyncCheckpoint);
      if hashBlock in chain.mapBlockIndex {
        assert NodeOk(chain.o, chain.mapBlockIndex, chain.hashGenesisBlock, hashBlock);
      }
      var nHeight := pindexPrev.nHeight + 1;
      var pindexSync := chain.mapBlockIndex[hashSyncCheckpoint];
      if nHeight > pindexSync.nHeight {
        var p := TraceBack(pindexPrev, pindexSync.nHeight);
        AncInTree(chain.o, chain.mapBlockIndex, chain.hashGenesisBlock, pindexPrev, pindexSync.nHeight);
        if p.nHeight < pindexSync.nHeight || p.hash != hashSyncCheckpoint {
          return false;
        }
      }
      if nHeight == pindexSync.nHeight && hashBlock != hashSyncCheckpoint {
        return false;
      }
      if nHeight < pindexSync.nHeight && hashBlock !in chain.mapBlockIndex {
        return false;
      }
      ok := true;
    }

    /** Makes a validated block the sync-checkpoint, moving the best chain to it first if
        it is not on it. */
    method MoveCheckpoint(hashCheckpoint: Hash) returns (ok: bool, allConnected: bool, ghost undone: seq<CBlockIndex>)
      requires Valid() && ProperDescendant(hashCheckpoint)
      modifies Frame()
      ensures ok <==> old(Adoptable(hashCheckpoint))
      ensures ok && allConnected <==> old(FullyAdoptable(hashCheckpoint))
      ensures KeepsUpTo(old(Sync()), undone)
      ensures SyncOnBest() && chain.mapBlockIndex == old(chain.mapBlockIndex)
      ensures allConnected ==> Valid()
      ensures hashSyncCheckpoint == if ok then hashCheckpoint else old(hashSyncCheckpoint)
      ensures hashPendingCheckpoint == old(hashPendingCheckpoint)
      ensures hashInvalidCheckpoint == if ok then old(hashInvalidCheckpoint) else hashCheckpoint
      ensures OnBest(old(Sync()))
      ensures !ok ==> allConnected && chain.pindexBest == old(chain.pindexBest)
      ensures ok ==>
        && chain.pindexBest == old(BestAfter(TipNow(), chain.mapBlockIndex[hashCheckpoint]))
        && undone == old(UndoneTo(TipNow(), chain.mapBlockIndex[hashCheckpoint]))
    {
      hide ChainIs, TreeOk, Linked, Anc, Adoptable, FullyAdoptable, KeepsUpTo, ProperDescendant;
      CheckpointFacts(hashCheckpoint);
      var c := chain.mapBlockIndex[hashCheckpoint];
      ghost var s := chain.mapBlockIndex[hashSyncCheckpoint];
      ok, allConnected, undone := MoveBest(c, s);
      if !ok {
        hashInvalidCheckpoint := hashCheckpoint;
        return;
      }
      hashSyncCheckpoint := hashCheckpoint;
    }

    lemma CheckpointFacts(hashCheckpoint: Hash)
      requires Valid() && ProperDescendant(hashCheckpoint)
      ensures hashSyncCheckpoint in chain.mapBlockIndex && hashCheckpoint in chain.mapBlockIndex
      ensures var s, c := chain.mapBlockIndex[hashSyncCheckpoint], chain.mapBlockIndex[hashCheckpoint];
        c.hash == hashCheckpoint && InTree(chain.mapBlockIndex, c) && Linked(s) && Linked(c) && OnPath(s, c) &&
          Sync() == s
      ensures chain.pindexBest != null && Linked(chain.pindexBest)
    {
      assert NodeOk(chain.o, chain.mapBlockIndex, chain.hashGenesisBlock, hashSyncCheckpoint);
      assert NodeOk(chain.o, chain.mapBlockIndex, chain.hashGenesisBlock, hashCheckpoint);
    }

    /** Moves the best chain to a descendant of `s` that is not on it. */
    method MoveBest(c: CBlockIndex, ghost s: CBlockIndex)
      returns (ok: bool, allConnected: bool, ghost undone: seq<CBlockIndex>)
      requires chain.Valid() && chain.pindexBest != null && Linked(chain.pindexBest) && InTree(chain.mapBlockIndex, c)
      requires Linked(s) && Linked(c) && OnPath(s, c)
      modifies chain, chain.txdb, chain.Nodes()
      ensures ok <==> old(Adoptable(c.hash))
      ensures ok && allConnected <==> old(FullyAdoptable(c.hash))
      ensures KeepsUpTo(s, undone)
      ensures chain.TreeValid() && chain.mapBlockIndex == old(chain.mapBlockIndex)
      ensures allConnected ==> chain.Valid()
      ensures chain.pindexBest != null && InTree(chain.mapBlockIndex, chain.pindexBest) && Linked(chain.pindexBest)
      ensures ok ==>
        && OnBest(c) && OnBest(s) && chain.pindexBest == old(BestAfter(TipNow(), c))
        && undone == old(UndoneTo(TipNow(), c))
      ensures !ok ==> allConnected && chain.pindexBest == old(chain.pindexBest)
    {
      ok, allConnected, undone := true, true, [];
      assert IsInMainChain(c, chain.pindexBest) <==> OnPath(c, chain.pindexBest) by {
        chain.ValidMeans();
      }
      assert NodeOk(chain.o, chain.mapBlockIndex, chain.hashGenesisBlock, c.hash);
      hide ChainIs, TreeOk, NodeOk, CanMove, CanFinish, Linked, OffNewChain;
      ghost var best := chain.pindexBest;
      if !IsInMainChain(c, chain.pindexBest) {
        ok, allConnected, undone := chain.SetBestChain(c);
        DescendantKeeps(s, c, best, undone);
      }
      if ok {
        OnPathTrans(s, c, chain.pindexBest);
      }
    }

    /** ProcessSyncCheckpoint.  `signed` is the outcome of the signature check. */
    method ProcessSyncCheckpoint(hashCheckpoint: Hash, signed: bool)
      returns (ok: bool, allConnected: bool, ghost undone: seq<CBlockIndex>)
      requires Valid()
      modifies Frame()
      ensures ok <==> signed && old(ProperDescendant(hashCheckpoint)) && old(Adoptable(hashCheckpoint))
      ensures ok && allConnected <==>
        signed && old(ProperDescendant(hashCheckpoint)) && old(FullyAdoptable(hashCheckpoint))
      ensures KeepsUpTo(old(Sync()), undone)
      ensures SyncOnBest() && chain.mapBlockIndex == old(chain.mapBlockIndex)
      ensures allConnected ==> Valid()
      ensures Advances(old(hashSyncCheckpoint)) && OnBest(old(Sync()))
      ensures hashSyncCheckpoint == if ok then hashCheckpoint else old(hashSyncCheckpoint)
      ensures hashPendingCheckpoint ==
        if ok then 0 else if signed && hashCheckpoint !in chain.mapBlockIndex then hashCheckpoint
          else old(hashPendingCheckpoint)
      ensures hashInvalidCheckpoint ==
        if signed && !ok && old(ProperDescendant(hashCheckpoint) || Conflicts(hashCheckpoint)) then hashCheckpoint
        else old(hashInvalidCheckpoint)
      ensures chain.pindexBest ==
        if ok then old(BestAfter(TipNow(), chain.mapBlockIndex[hashCheckpoint])) else old(chain.pindexBest)
      ensures ok ==> undone == old(UndoneTo(TipNow(), chain.mapBlockIndex[hashCheckpoint]))
    {
      ok, allConnected, undone := false, true, [];
      assert NodeOk(chain.o, chain.mapBlockIndex, chain.hashGenesisBlock, hashSyncCheckpoint);
      hide ChainIs, TreeOk, Adoptable, FullyAdoptable, KeepsUpTo;
      if !signed {
        return;
      }
      if hashCheckpoint !in chain.mapBlockIndex {
        hashPendingCheckpoint := hashCheckpoint;
        return;
      }
      ok := ValidateSyncCheckpoint(hashCheckpoint);
      if !ok {
        return;
      }
      ok, allConnected, undone := MoveCheckpoint(hashCheckpoint);
      if ok {
        hashPendingCheckpoint := 0;
      }
    }

    /** The checkpoint is the one before or a proper descendant of it. */
    ghost predicate Advances(before: Hash)
      reads this, chain
    {
      && hashSyncCheckpoint in chain.mapBlockIndex && before in chain.mapBlockIndex
      && Linked(chain.mapBlockIndex[hashSyncCheckpoint])
      && (hashSyncCheckpoint != before ==>
            && OnPath(chain.mapBlockIndex[before], chain.mapBlockIndex[hashSyncCheckpoint])
            && chain.mapBlockIndex[before] != chain.mapBlockIndex[hashSyncCheckpoint])
    }

    /** The pending checkpoint has been looked at, when `t` was the tip: it is the sync-checkpoint
        and the best chain leads through it, or it is dropped, or kept for later. */
    ghost predicate PendingDone(sync: Hash, pending: Hash, invalid: Hash, t: Tip)
      reads this, chain
    {
      var tree := chain.mapBlockIndex;
      var taken := pending != 0 && Taken(chain.o, tree, sync, pending, t);
      && hashSyncCheckpoint == (if taken then pending else sync)
      && hashPendingCheckpoint == (if taken || (pending in tree && !Below(tree, sync, pending)) then 0 else pending)
      && hashInvalidCheckpoint ==
         (if !taken && pending != 0 && (Below(tree, sync, pending) || Clash(tree, sync, pending)) then pending
          else invalid)
      && chain.pindexBest == (if taken then BestAfter(t, tree[pending]) else t.best)
    }

    /** These are the blocks disconnected before and for it. */
    ghost predicate PendingUndid(sync: Hash, pending: Hash, t: Tip, undone: seq<CBlockIndex>,
                                 before: seq<CBlockIndex>)
      reads chain
    {
      var tree := chain.mapBlockIndex;
      if pending == 0 || !Below(tree, sync, pending) then undone == before
      else if Reachable(chain.o, t, tree[pending]) then undone == before + UndoneTo(t, tree[pending])
      else before <= undone
    }

    /** If the pending checkpoint was taken, every postponed block connected on the way. */
    ghost predicate PendingFollowed(sync: Hash, pending: Hash, t: Tip)
      reads chain
    {
      var tree := chain.mapBlockIndex;
      pending != 0 && Taken(chain.o, tree, sync, pending, t) ==> FullyReachable(chain.o, t, tree[pending])
    }

    lemma UndidAfter(sync: Hash, pending: Hash, t: Tip, more: seq<CBlockIndex>, before: seq<CBlockIndex>)
      requires PendingUndid(sync, pending, t, more, [])
      ensures PendingUndid(sync, pending, t, before + more, before)
    {
      assert before + [] == before;
    }

    /** AcceptPendingSyncCheckpoint. */
    method AcceptPendingSyncCheckpoint() returns (ok: bool, allConnected: bool, ghost undone: seq<CBlockIndex>)
      requires Valid()
      modifies Frame()
      ensures ok <==>
        old(hashPendingCheckpoint != 0 && ProperDescendant(hashPendingCheckpoint) && Adoptable(hashPendingCheckpoint))
      ensures ok && allConnected <==>
        old(hashPendingCheckpoint != 0 && ProperDescendant(hashPendingCheckpoint)
            && FullyAdoptable(hashPendingCheckpoint))
      ensures allConnected <==> PendingFollowed(old(hashSyncCheckpoint), old(hashPendingCheckpoint), old(TipNow()))
      ensures PendingDone(old(hashSyncCheckpoint), old(hashPendingCheckpoint), old(hashInvalidCheckpoint),
                          old(TipNow()))
      ensures PendingUndid(old(hashSyncCheckpoint), old(hashPendingCheckpoint), old(TipNow()), undone, [])
      ensures KeepsUpTo(old(Sync()), undone)
      ensures SyncOnBest() && chain.mapBlockIndex == old(chain.mapBlockIndex)
      ensures allConnected ==> Valid()
      ensures Advances(old(hashSyncCheckpoint)) && OnBest(old(Sync()))
    {
      hide ChainIs, TreeOk, Reachable, FullyReachable, KeepsUpTo, BestAfter;
      ok, allConnected, undone := false, true, [];
      Known(hashSyncCheckpoint);
      if hashPendingCheckpoint != 0 && hashPendingCheckpoint in chain.mapBlockIndex {
        var valid := ValidateSyncCheckpoint(hashPendingCheckpoint);
        if !valid {
          hashPendingCheckpoint := 0;
          return;
        }
        ok, allConnected, undone := MoveCheckpoint(hashPendingCheckpoint);
        if !ok {
          return;
        }
        hashPendingCheckpoint := 0;
      }
    }

    /** AcceptBlock.  `contextOk` stands for the checks that read no chain state modelled
        here: version, target, timestamps, finality, proof of stake, coinbase height.
        `node` is the node filed for the block, if it is filed. */
    method AcceptBlock(block: Block, contextOk: bool, blockTrust: nat, nFile: nat, nBlockPos: nat)
      returns (ok: bool, allConnected: bool, ghost node: CBlockIndex?, ghost undone: seq<CBlockIndex>)
      requires Valid() && mode.Strict? && !fTestNet
      requires block.hash != 0 && blockTrust > 0 && StoredAt(chain.o, block.vtx, nFile, nBlockPos)
      modifies Frame()
      ensures node != null <==>
        && contextOk && block.hash !in old(chain.mapBlockIndex) && block.hashPrev in old(chain.mapBlockIndex)
        && var s, prev := old(chain.mapBlockIndex[hashSyncCheckpoint]), old(chain.mapBlockIndex)[block.hashPrev];
           Linked(prev) && OnPath(s, prev)
      ensures node != null ==>
        node.block == block && chain.mapBlockIndex == old(chain.mapBlockIndex)[block.hash := node]
      ensures node == null ==>
        chain.mapBlockIndex == old(chain.mapBlockIndex) && chain.pindexBest == old(chain.pindexBest)
      ensures ok <==>
        && node != null
        && (node.nChainTrust <= old(chain.nBestChainTrust)
            || CanMove(chain.o, old(chain.txdb.committed), old(chain.pindexBest), node, old(chain.nBestHeight)))
      ensures SyncOnBest()
      ensures allConnected ==> Valid()
      ensures old(hashSyncCheckpoint) in chain.mapBlockIndex && Advances(old(hashSyncCheckpoint))
      ensures OnBest(old(Sync()))
      ensures KeepsUpTo(old(Sync()), undone)
      ensures !ok ==>
        && allConnected && chain.pindexBest == old(chain.pindexBest)
        && hashSyncCheckpoint == old(hashSyncCheckpoint) && hashPendingCheckpoint == old(hashPendingCheckpoint)
        && hashInvalidCheckpoint == old(hashInvalidCheckpoint)
      ensures ok && Settles(chain.o, old(TipNow()), old(chain.nBestChainTrust), node) ==>
        var t := TipWith(chain.o, old(TipNow()), old(chain.nBestChainTrust), node);
        && PendingDone(old(hashSyncCheckpoint), old(hashPendingCheckpoint), old(hashInvalidCheckpoint), t)
        && Linked(node) && old(chain.pindexBest != null && Linked(chain.pindexBest))
        && PendingUndid(old(hashSyncCheckpoint), old(hashPendingCheckpoint), t, undone,
                        UndoneWith(old(TipNow()), old(chain.nBestChainTrust), node))
        && (allConnected <==> PendingFollowed(old(hashSyncCheckpoint), old(hashPendingCheckpoint), t))
    {
      hide ChainIs, TreeOk, NodeOk, CanMove, CanFinish, Linked, MovedTo, Below, Clash, Reachable, FullyReachable;
      hide Settles, TipWith, BestAfter, Anc, KeepsUpTo, Switches, Undone, PendingDone, PendingUndid,
        PendingFollowed, UndoneTo, UndoneWith;
      ok, allConnected, node, undone := false, true, null, [];
      Known(hashSyncCheckpoint);
      if block.hash in chain.mapBlockIndex || block.hashPrev !in chain.mapBlockIndex || !contextOk {
        return;
      }
      var pindexPrev := chain.mapBlockIndex[block.hashPrev];
      Known(block.hashPrev);
      var satisfies := CheckSync(block.hash, pindexPrev);
      if mode.Strict? && !satisfies {
        return;
      }
      ok, allConnected, node, undone := AddBelowCheckpoint(block, pindexPrev, blockTrust, nFile, nBlockPos);
      if !ok || !allConnected {
        // beyond a postponed block that failed to connect the run is not followed
        return;
      }
      var accepted;
      ghost var more, mid := *, TipNow();
      accepted, allConnected, more := AcceptPendingSyncCheckpoint();
      KeepsBoth(old(Sync()), undone, more);
      UndidAfter(old(hashSyncCheckpoint), old(hashPendingCheckpoint), mid, more, undone);
      undone := undone + more;
    }

    /** A known block is filed under its hash, and numbered. */
    lemma Known(h: Hash)
      requires Valid() && h in chain.mapBlockIndex
      ensures InTree(chain.mapBlockIndex, chain.mapBlockIndex[h]) && Linked(chain.mapBlockIndex[h])
      ensures hashSyncCheckpoint in chain.mapBlockIndex && KeepsUpTo(chain.mapBlockIndex[hashSyncCheckpoint], [])
    {
      assert NodeOk(chain.o, chain.mapBlockIndex, chain.hashGenesisBlock, h);
      assert NodeOk(chain.o, chain.mapBlockIndex, chain.hashGenesisBlock, hashSyncCheckpoint);
    }

    /** Filing a block that descends from the sync-checkpoint keeps it on the best chain,
        whether or not the new block becomes the best. */
    method AddBelowCheckpoint(block: Block, ghost pindexPrev: CBlockIndex, blockTrust: nat, nFile: nat, nBlockPos: nat)
      returns (ok: bool, allConnected: bool, ghost node: CBlockIndex, ghost undone: seq<CBlockIndex>)
      requires Valid() && block.hash != 0 && blockTrust > 0 && StoredAt(chain.o, block.vtx, nFile, nBlockPos)
      requires block.hash !in chain.mapBlockIndex
      requires block.hashPrev in chain.mapBlockIndex && chain.mapBlockIndex[block.hashPrev] == pindexPrev
      requires Linked(pindexPrev) && OnPath(chain.mapBlockIndex[hashSyncCheckpoint], pindexPrev)
      modifies Frame()
      ensures node.block == block && chain.mapBlockIndex == old(chain.mapBlockIndex)[block.hash := node]
      ensures ok <==>
        || node.nChainTrust <= old(chain.nBestChainTrust)
        || CanMove(chain.o, old(chain.txdb.committed), old(chain.pindexBest), node, old(chain.nBestHeight))
      ensures KeepsUpTo(old(Sync()), undone)
      ensures SyncOnBest() && hashSyncCheckpoint == old(hashSyncCheckpoint)
      ensures chain.mapBlockIndex[hashSyncCheckpoint] == old(chain.mapBlockIndex[hashSyncCheckpoint])
      ensures allConnected ==> Valid()
      ensures hashPendingCheckpoint == old(hashPendingCheckpoint)
      ensures hashInvalidCheckpoint == old(hashInvalidCheckpoint)
      ensures !ok ==> allConnected && chain.pindexBest == old(chain.pindexBest)
      ensures ok && allConnected <==> Settles(chain.o, old(TipNow()), old(chain.nBestChainTrust), node)
      ensures ok && allConnected ==> TipNow() == TipWith(chain.o, old(TipNow()), old(chain.nBestChainTrust), node)
      ensures ok ==>
        && Linked(node) && old(chain.pindexBest != null && Linked(chain.pindexBest))
        && undone == UndoneWith(old(TipNow()), old(chain.nBestChainTrust), node)
      ensures fresh(Frame() - old(Frame()))
    {
      hide ChainIs, TreeOk, CanMove, CanFinish, OffNewChain, MovedTo, KeepsUpTo, Anc;
      ghost var s, best := chain.mapBlockIndex[hashSyncCheckpoint], chain.pindexBest;
      Known(block.hashPrev);
      Known(hashSyncCheckpoint);
      var pindexNew;
      ok, allConnected, pindexNew, undone := chain.AddToBlockIndex(block, blockTrust, nFile, nBlockPos);
      node := pindexNew;
      LeafOnPath(s, block.hash, pindexPrev);
      DescendantKeeps(s, pindexNew, best, undone);
    }

    lemma LeafOnPath(s: CBlockIndex, h: Hash, prev: CBlockIndex)
      requires chain.TreeValid() && h in chain.mapBlockIndex && chain.mapBlockIndex[h].pprev == prev
      requires Linked(prev) && OnPath(s, prev)
      ensures var leaf := chain.mapBlockIndex[h];
        InTree(chain.mapBlockIndex, leaf) && Linked(leaf) && OnPath(s, leaf)
    {
      assert NodeOk(chain.o, chain.mapBlockIndex, chain.hashGenesisBlock, h);
    }
  }
}
