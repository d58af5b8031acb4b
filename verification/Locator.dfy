/** Block locators (CBlockLocator in src/main.h): a list of block hashes that thins out towards
    genesis, from which another node finds where the two chains part. */
module Locator {
  import opened Transactions
  import opened Blocks

  // ---------------------------------------------------------------- the thinning list

  /** How far entry k + 1 is behind entry k. */
  function Step(k: nat): (s: nat)
    ensures s >= 1
  {
    if k <= 10 then 1 else 2 * Step(k - 1)
  }

  /** How far entry k is behind the tip. */
  function Depth(k: nat): nat {
    if k == 0 then 0 else Depth(k - 1) + Step(k - 1)
  }

  function Log2(n: nat): nat {
    if n <= 1 then 0 else 1 + Log2(n / 2)
  }

  lemma {:induction false} DepthGrows(j: nat, k: nat)
    requires j < k
    ensures Depth(j) < Depth(k)
    decreases k
  {
    if j < k - 1 {
      DepthGrows(j, k - 1);
    }
  }

  /** The first twelve entries leave nothing out. */
  lemma {:induction false} DepthStart(k: nat)
    requires k <= 11
    ensures Depth(k) == k
  {
    if k > 0 {
      DepthStart(k - 1);
    }
  }

  /** After them every distance is less than twice the one before. */
  lemma {:induction false} DepthDoubles(k: nat)
    requires k >= 11
    ensures Depth(k) == 9 + Step(k) && Depth(k + 1) == 2 * Depth(k) - 9
  {
    if k == 11 {
      DepthStart(11);
    } else {
      DepthDoubles(k - 1);
    }
  }

  lemma {:induction false} StepLog(k: nat, n: nat)
    requires k >= 10 && Step(k) <= n
    ensures k - 10 <= Log2(n)
    decreases k
  {
    if k > 10 {
      StepLog(k - 1, n / 2);
    }
  }

  /** m entries of the list are at heights of the chain, the next would be below genesis. */
  predicate Covers(m: nat, height: nat) {
    m >= 1 && Depth(m - 1) <= height < Depth(m)
  }

  /** So the list is short. */
  lemma ListIsShort(m: nat, height: nat)
    requires Covers(m, height)
    ensures m + 1 <= 12 + Log2(height + 1)
  {
    if m >= 12 {
      DepthDoubles(m - 1);
      StepLog(m - 1, height + 1);
    }
  }

  /** The entries of the list for the chain that ends in `tip`. */
  ghost predicate LocatorOf(have: seq<Hash>, tip: CBlockIndex, genesis: Hash)
    requires Linked(tip)
  {
    && |have| >= 2 && Covers(|have| - 1, tip.nHeight) && have[|have| - 1] == genesis
    && forall k :: 0 <= k < |have| - 1 ==> EntryAt(have[k], tip, k)
  }

  ghost predicate EntryAt(hash: Hash, tip: CBlockIndex, k: nat)
    requires Linked(tip)
  {
    Depth(k) <= tip.nHeight && hash == Anc(tip, tip.nHeight - Depth(k)).hash
  }

  // ----------------------------------------------------------------- another node's view

  /** The hash is that of a block of the main chain. */
  predicate InMain(index: map<Hash, CBlockIndex>, best: CBlockIndex?, hash: Hash)
    reads index.Values
  {
    hash in index && IsInMainChain(index[hash], best)
  }

  /** The chain of `tip` is in this node's main chain up to height `fork` and not beyond. */
  ghost predicate ForksAt(index: map<Hash, CBlockIndex>, best: CBlockIndex?, tip: CBlockIndex, fork: nat)
    requires Linked(tip)
    reads index.Values
  {
    && fork <= tip.nHeight
    && forall h: nat :: h <= tip.nHeight ==> Shared(index, best, Anc(tip, h), fork)
  }

  ghost predicate Shared(index: map<Hash, CBlockIndex>, best: CBlockIndex?, b: CBlockIndex, fork: nat)
    reads index.Values
  {
    && (InMain(index, best, b.hash) <==> b.nHeight <= fork)
    && (b.nHeight <= fork ==> index[b.hash].nHeight == b.nHeight)
  }

  /** The first entry of a list that is in the main chain. */
  ghost predicate FirstInMain(index: map<Hash, CBlockIndex>, best: CBlockIndex?, have: seq<Hash>, k: int)
    reads index.Values
  {
    0 <= k < |have| && InMain(index, best, have[k]) && forall j :: 0 <= j < k ==> !InMain(index, best, have[j])
  }

  /** The main property: with the fork d below the tip, the first entry in the main chain is d
      below when d is at most 11, and less than 2 d below otherwise. */
  lemma FoundNearFork(index: map<Hash, CBlockIndex>, best: CBlockIndex?, have: seq<Hash>, tip: CBlockIndex, fork: nat,
                      k: nat)
    requires Linked(tip) && LocatorOf(have, tip, Anc(tip, 0).hash) && ForksAt(index, best, tip, fork)
    requires FirstInMain(index, best, have, k)
    ensures var d, height := tip.nHeight - fork, index[have[k]].nHeight;
      && height <= fork && (d <= 11 ==> height == fork) && (d > 11 ==> tip.nHeight - height < 2 * d)
      && have[k] == Anc(tip, height).hash
      && (k < |have| - 1 ==> Depth(k) == tip.nHeight - height)
      && Depth(k) >= tip.nHeight - height
  {
    var d := tip.nHeight - fork;
    EntrySeen(index, best, have, tip, fork, k);
    if k > 0 {
      EntrySeen(index, best, have, tip, fork, k - 1);
    }
    NotFarBeyond(k, d);
    hide *;
  }

  /** Whether an entry is in the main chain, and at what height. */
  lemma EntrySeen(index: map<Hash, CBlockIndex>, best: CBlockIndex?, have: seq<Hash>, tip: CBlockIndex, fork: nat,
                  j: nat)
    requires Linked(tip) && LocatorOf(have, tip, Anc(tip, 0).hash) && ForksAt(index, best, tip, fork) && j < |have|
    ensures j < |have| - 1 ==> (InMain(index, best, have[j]) <==> tip.nHeight - Depth(j) <= fork)
    ensures InMain(index, best, have[j]) ==>
      var height := if j < |have| - 1 then tip.nHeight - Depth(j) else 0;
      0 <= height <= fork && index[have[j]].nHeight == height && have[j] == Anc(tip, height).hash &&
        Depth(j) >= tip.nHeight - height
  {
    if j < |have| - 1 {
      assert EntryAt(have[j], tip, j);
      assert Shared(index, best, Anc(tip, tip.nHeight - Depth(j)), fork);
    } else {
      assert Shared(index, best, Anc(tip, 0), fork);
    }
  }

  /** The first depth that is at least d. */
  lemma NotFarBeyond(k: nat, d: nat)
    ensures (k > 0 ==> Depth(k - 1) < d) && Depth(k) >= d ==>
      (d <= 11 ==> Depth(k) == d) && (d > 11 ==> Depth(k) < 2 * d)
  {
    if 0 < k <= 11 {
      DepthStart(k - 1);
      DepthStart(k);
    } else if k > 11 {
      DepthStart(11);
      DepthDoubles(k - 1);
      if k > 12 {
        DepthGrows(11, k - 1);
      }
    }
  }

  /** Some entry is found: the last, at least. */
  lemma GenesisIsInMain(index: map<Hash, CBlockIndex>, best: CBlockIndex?, have: seq<Hash>, tip: CBlockIndex, fork: nat)
    requires Linked(tip) && LocatorOf(have, tip, Anc(tip, 0).hash) && ForksAt(index, best, tip, fork)
    ensures exists k :: FirstInMain(index, best, have, k)
  {
    assert Shared(index, best, Anc(tip, 0), fork);
    FirstOne(index, best, have, |have| - 1);
  }

  lemma {:induction false} FirstOne(index: map<Hash, CBlockIndex>, best: CBlockIndex?, have: seq<Hash>, k: nat)
    requires k < |have| && InMain(index, best, have[k])
    ensures exists j :: FirstInMain(index, best, have, j)
  {
    if j: nat :| j < k && InMain(index, best, have[j]) {
      FirstOne(index, best, have, j);
    } else {
      assert FirstInMain(index, best, have, k);
    }
  }

  // -------------------------------------------------------------------------- the code

  class CBlockLocator {
    var vHave: seq<Hash>

    constructor ()
      ensures vHave == []
    {
      vHave := [];
    }

    /** Goes n parents back, or past the first block. */
    static method Back(tip: CBlockIndex, from: CBlockIndex, n: nat) returns (pindex: CBlockIndex?)
      requires Linked(tip) && OnPath(from, tip)
      ensures pindex == if n <= from.nHeight then Anc(tip, from.nHeight - n) else null
    {
      pindex := from;
      var i := 0;
      while pindex != null && i < n
        invariant 0 <= i <= n
        invariant pindex != null ==> i <= from.nHeight && pindex == Anc(tip, from.nHeight - i)
        invariant pindex == null ==> i > from.nHeight
      {
        if pindex.nHeight > 0 {
          AncParent(tip, pindex.nHeight - 1);
        }
        pindex := pindex.pprev;
        i := i + 1;
      }
    }

    method Set(start: CBlockIndex?, hashGenesis: Hash)
      requires start != null ==> Linked(start)
      modifies this
      ensures start == null ==> vHave == [hashGenesis]
      ensures start != null ==> LocatorOf(vHave, start, hashGenesis) && |vHave| <= 12 + Log2(start.nHeight + 1)
    {
      vHave := [];
      var nStep := 1;
      var pindex := start;
      while pindex != null
        invariant start == null ==> pindex == null && vHave == []
        invariant pindex != null ==> Linked(start) && nStep == Step(|vHave|)
        invariant pindex != null ==>
          Depth(|vHave|) <= start.nHeight && pindex == Anc(start, start.nHeight - Depth(|vHave|))
        invariant start != null ==> forall k :: 0 <= k < |vHave| ==> EntryAt(vHave[k], start, k)
        invariant start != null && pindex == null ==> Covers(|vHave|, start.nHeight)
        decreases if pindex == null then 0 else pindex.nHeight + 1
      {
        AncAnc(start, start.nHeight, pindex.nHeight);
        vHave := vHave + [pindex.hash];
        ghost var n := |vHave|;
        pindex := Back(start, pindex, nStep);
        if |vHave| > 10 {
          nStep := nStep * 2;
        }
      }
      if start != null {
        ListIsShort(|vHave|, start.nHeight);
      }
      vHave := vHave + [hashGenesis];
    }

    /** How far back the first common block was on the sender's branch. */
    method GetDistanceBack(index: map<Hash, CBlockIndex>, best: CBlockIndex?) returns (nDistance: nat)
      ensures forall k :: FirstInMain(index, best, vHave, k) ==> nDistance == Depth(k)
      ensures (forall k :: 0 <= k < |vHave| ==> !InMain(index, best, vHave[k])) ==> nDistance == Depth(|vHave|)
    {
      nDistance := 0;
      var nStep := 1;
      var n := 0;
      while n < |vHave|
        invariant 0 <= n <= |vHave| && nDistance == Depth(n) && nStep == Step(n)
        invariant forall j :: 0 <= j < n ==> !InMain(index, best, vHave[j])
      {
        var hash := vHave[n];
        if hash in index {
          var pindex := index[hash];
          if IsInMainChain(pindex, best) {
            return nDistance;
          }
        }
        StepByDepth(n + 1);
        nDistance := nDistance + nStep;
        if nDistance > 10 {
          nStep := nStep * 2;
        }
        n := n + 1;
      }
    }

    /** The doubling starts where the depth passes ten. */
    static lemma StepByDepth(n: nat)
      requires n >= 1
      ensures Depth(n) > 10 <==> n > 10
    {
      if n <= 11 {
        DepthStart(n);
      } else {
        DepthStart(11);
        DepthGrows(11, n);
      }
    }

    /** The first block the sender has in this node's main chain. */
    method GetBlockIndex(index: map<Hash, CBlockIndex>, best: CBlockIndex?, genesis: CBlockIndex)
      returns (pindex: CBlockIndex)
      ensures forall k :: FirstInMain(index, best, vHave, k) ==> vHave[k] in index && pindex == index[vHave[k]]
      ensures (forall k :: 0 <= k < |vHave| ==> !InMain(index, best, vHave[k])) ==> pindex == genesis
    {
      var n := 0;
      while n < |vHave|
        invariant 0 <= n <= |vHave|
        invariant forall j :: 0 <= j < n ==> !InMain(index, best, vHave[j])
      {
        var hash := vHave[n];
        if hash in index {
          pindex := index[hash];
          if IsInMainChain(pindex, best) {
            return pindex;
          }
        }
        n := n + 1;
      }
      pindex := genesis;
    }
  }
}
