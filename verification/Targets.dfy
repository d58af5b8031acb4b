/** Difficulty targets (ComputeMaxBits, GetNextTargetRequired and CheckProofOfWork in
    src/main.cpp). */
module Targets {
  import opened Numbers
  import opened Transactions
  import opened Blocks
  import opened Compact

  const TARGET_SPACING: int := 2 * 60
  const TARGET_TIMESPAN: int := 30 * 60

  /** The two limits: 2^256 - 1 shifted right by 24 and by 20 bits. */
  const PROOF_OF_WORK_LIMIT: nat := 0xFF_FFFFFFFF_FFFFFFFF_FFFFFFFF_FFFFFFFF_FFFFFFFF_FFFFFFFF_FFFFFFFF
  const PROOF_OF_STAKE_LIMIT: nat := 0xFFF_FFFFFFFF_FFFFFFFF_FFFFFFFF_FFFFFFFF_FFFFFFFF_FFFFFFFF_FFFFFFFF

  /** A target limit: positive, and its size fits the byte a compact form has for it. */
  predicate Limit(n: nat) {
    n > 0 && |BigNum.ToMpi(n)| < 0x100
  }

  /** Both limits have an MPI form of 30 bytes. */
  lemma LimitsFit()
    ensures Limit(PROOF_OF_WORK_LIMIT) && Limit(PROOF_OF_STAKE_LIMIT)
  {
    SizeIsThirty(PROOF_OF_WORK_LIMIT);
    SizeIsThirty(PROOF_OF_STAKE_LIMIT);
  }

  lemma SizeIsThirty(v: nat)
    requires PROOF_OF_WORK_LIMIT <= v <= PROOF_OF_STAKE_LIMIT
    ensures |BigNum.ToMpi(v)| == 30
  {
    var p := 0x1_00000000_00000000_00000000_00000000_00000000_00000000_00000000;
    assert BigNum.Pow256(28) == p by {
      assert BigNum.Pow256(7) == 0x1_00000000_000000;
      assert BigNum.Pow256(14) == 0x1_00000000_00000000_00000000_0000;
      assert BigNum.Pow256(21) == 0x1_00000000_00000000_00000000_00000000_00000000_00;
    }
    assert BigNum.Pow256(29) == 256 * p;
    MpiHasSize(v);
    SizeMonotone(v, v, |BigNum.ToMpi(v)|, 30);
    SizeMonotone(v, v, 30, |BigNum.ToMpi(v)|);
  }

  /** A number up to a limit survives compaction as a positive number up to the limit. */
  lemma TargetInRange(v: nat, limit: nat)
    requires Limit(limit) && 0 < v <= limit
    ensures 0 < Expanded(Compacted(v)) <= v
  {
    MpiHasSize(v);
    MpiHasSize(limit);
    SizeMonotone(v, limit, |BigNum.ToMpi(v)|, |BigNum.ToMpi(limit)|);
    CompactRounds(v);
  }

  // --------------------------------------------------------------------- ComputeMaxBits

  /** Hours begun. */
  function Hours(t: int): nat {
    if t <= 0 then 0 else (t + 3599) / 3600
  }

  /** Doubling what has reached the limit keeps it there. */
  lemma {:induction false} StaysAbove(x: int, limit: nat, k: nat, n: nat)
    requires limit > 0 && k <= n && x * Pow2(k) >= limit
    ensures x * Pow2(n) >= limit
    decreases n
  {
    if k < n {
      StaysAbove(x, limit, k, n - 1);
      assert x * Pow2(n) == 2 * (x * Pow2(n - 1));
    }
  }

  lemma DoubleOnce(x: int, k: nat)
    ensures x * Pow2(k + 1) == 2 * (x * Pow2(k))
  {
  }

  method ComputeMaxBits(limit: nat, nBase: nat, time: int) returns (nBits: nat)
    requires Limit(limit) && nBase < 0x1_0000_0000
    ensures nBits == Compacted(Min(2 * Expanded(nBase) * Pow2(Hours(time)), limit))
  {
    var bnResult := new CBigNum(0);
    bnResult.SetCompact(nBase);
    ghost var base := 2 * bnResult.bn;
    bnResult.bn := bnResult.bn * 2;
    var nTime := time;
    ghost var k: nat := 0;
    assert Pow2(0) == 1;
    hide Compacted, Expanded, Pow2;
    while nTime > 0 && bnResult.bn < limit
      invariant bnResult.bn == base * Pow2(k) && nTime == time - 3600 * k && k <= Hours(time)
      decreases nTime
    {
      DoubleOnce(base, k);
      bnResult.bn := bnResult.bn * 2;
      nTime := nTime - 1 * 60 * 60;
      k := k + 1;
    }
    if bnResult.bn >= limit {
      StaysAbove(base, limit, k, Hours(time));
    } else {
      assert k == Hours(time);
    }
    if bnResult.bn > limit {
      bnResult.bn := limit;
    }
    nBits := bnResult.GetCompact();
  }

  // -------------------------------------------------------------- GetNextTargetRequired

  /** The nearest block of a kind from `b` back, or the first block. */
  function LastOf(b: CBlockIndex, fProofOfStake: bool): (r: CBlockIndex)
    requires Linked(b)
    ensures Linked(r)
    decreases b.nHeight
  {
    if b.pprev == null || b.block.IsProofOfStake() == fProofOfStake then b else LastOf(b.pprev, fProofOfStake)
  }

  /** It is on the chain, and no later block of the chain is of the kind. */
  lemma {:induction false} LastIsNearest(b: CBlockIndex, fProofOfStake: bool)
    requires Linked(b)
    ensures var r := LastOf(b, fProofOfStake);
      && OnPath(r, b) && (r.pprev == null || r.block.IsProofOfStake() == fProofOfStake)
      && forall h: nat :: r.nHeight < h <= b.nHeight ==> Anc(b, h).block.IsProofOfStake() != fProofOfStake
    decreases b.nHeight
  {
    if !(b.pprev == null || b.block.IsProofOfStake() == fProofOfStake) {
      LastIsNearest(b.pprev, fProofOfStake);
    }
  }

  method GetLastBlockIndex(b: CBlockIndex, fProofOfStake: bool) returns (pindex: CBlockIndex)
    requires Linked(b)
    ensures pindex == LastOf(b, fProofOfStake)
  {
    pindex := b;
    while pindex.pprev != null && pindex.block.IsProofOfStake() != fProofOfStake
      invariant Linked(pindex) && LastOf(pindex, fProofOfStake) == LastOf(b, fProofOfStake)
      decreases pindex.nHeight
    {
      pindex := pindex.pprev;
    }
  }

  /** BN_div drops the fraction. */
  function Truncated(a: int, b: nat): int
    requires b > 0
  {
    if a >= 0 then a / b else -((-a) / b)
  }

  /** The exponential move of a target towards the target spacing. */
  function Retarget(bnOld: int, spacing: int): int {
    var nActualSpacing := if spacing < 0 then TARGET_SPACING else spacing;
    var nInterval := TARGET_TIMESPAN / TARGET_SPACING;
    Truncated(bnOld * ((nInterval - 1) * TARGET_SPACING + nActualSpacing + nActualSpacing),
      (nInterval + 1) * TARGET_SPACING)
  }

  function Clipped(bn: int, limit: nat): int {
    if bn <= 0 || bn > limit then limit else bn
  }

  /** No block lowers the target by more than an eighth; at the target spacing it stays, and
      slower blocks never lower it. */
  lemma RetargetMoves(bnOld: nat, spacing: int)
    ensures Retarget(bnOld, spacing) >= bnOld * 7 / 8
    ensures spacing < 0 || spacing == TARGET_SPACING ==> Retarget(bnOld, spacing) == bnOld
    ensures spacing >= TARGET_SPACING ==> Retarget(bnOld, spacing) >= bnOld
    ensures 0 <= spacing <= TARGET_SPACING ==> Retarget(bnOld, spacing) <= bnOld
  {
    var a := if spacing < 0 then 120 else spacing;
    var w := bnOld * (1680 + a + a);
    Weighted(bnOld, a);
    assert Retarget(bnOld, spacing) == w / 1920;
    DivideBy1920(w, bnOld);
  }

  lemma Weighted(x: nat, a: nat)
    ensures x * (1680 + a + a) >= x * 1680
    ensures a >= 120 ==> x * (1680 + a + a) >= x * 1920
    ensures a <= 120 ==> x * (1680 + a + a) <= x * 1920
  {
    var y := x * a;
    assert x * (1680 + a + a) == x * 1680 + 2 * y;
    if a >= 120 {
      MulAtLeast(120, a, x);
    } else {
      MulAtLeast(a, 120, x);
    }
  }

  lemma DivideBy1920(w: nat, x: nat)
    requires w >= x * 1680
    ensures w / 1920 >= x * 7 / 8
    ensures w >= x * 1920 ==> w / 1920 >= x
    ensures w <= x * 1920 ==> w / 1920 <= x
  {
  }

  /** The target the next block has to meet, before it is made compact. */
  function NextTarget(last: CBlockIndex?, fProofOfStake: bool, limit: nat, bits: Hash -> nat): (v: int)
    requires last != null ==> Linked(last)
    requires limit > 0
    ensures 0 < v <= limit
  {
    if last == null then limit
    else
      var prev := LastOf(last, fProofOfStake);
      if prev.pprev == null then limit
      else
        var prevPrev := LastOf(prev.pprev, fProofOfStake);
        if prevPrev.pprev == null then limit
        else Clipped(Retarget(Expanded(bits(prev.hash)), prev.block.time - prevPrev.block.time), limit)
  }

  /** The required bits stand for a target in the range that CheckProofOfWork allows. */
  method GetNextTargetRequired(pindexLast: CBlockIndex?, fProofOfStake: bool, limit: nat, bits: Hash -> nat)
    returns (nBits: nat)
    requires pindexLast != null ==> Linked(pindexLast)
    requires Limit(limit) && forall h :: bits(h) < 0x1_0000_0000
    ensures nBits == Compacted(NextTarget(pindexLast, fProofOfStake, limit, bits))
    ensures 0 < Expanded(nBits) <= limit
  {
    hide Compacted, Expanded, Truncated;
    TargetInRange(NextTarget(pindexLast, fProofOfStake, limit, bits), limit);
    var bnTargetLimit := new CBigNum(limit);
    if pindexLast == null {
      nBits := bnTargetLimit.GetCompact();
      return;
    }
    var pindexPrev := GetLastBlockIndex(pindexLast, fProofOfStake);
    if pindexPrev.pprev == null {
      nBits := bnTargetLimit.GetCompact();
      return;
    }
    var pindexPrevPrev := GetLastBlockIndex(pindexPrev.pprev, fProofOfStake);
    if pindexPrevPrev.pprev == null {
      nBits := bnTargetLimit.GetCompact();
      return;
    }
    var bnNew := new CBigNum(0);
    bnNew.SetCompact(bits(pindexPrev.hash));
    AdjustTarget(bnNew, pindexPrev.block.time - pindexPrevPrev.block.time, limit);
    nBits := bnNew.GetCompact();
  }

  /** The arithmetic of GetNextTargetRequired. */
  method AdjustTarget(bnNew: CBigNum, spacing: int, limit: nat)
    modifies bnNew
    ensures bnNew.bn == Clipped(Retarget(old(bnNew.bn), spacing), limit)
  {
    hide Truncated;
    var nActualSpacing := spacing;
    if nActualSpacing < 0 {
      nActualSpacing := TARGET_SPACING;
    }
    var nInterval := TARGET_TIMESPAN / TARGET_SPACING;
    bnNew.bn := bnNew.bn * ((nInterval - 1) * TARGET_SPACING + nActualSpacing + nActualSpacing);
    bnNew.bn := Truncated(bnNew.bn, (nInterval + 1) * TARGET_SPACING);
    if bnNew.bn <= 0 || bnNew.bn > limit {
      bnNew.bn := limit;
    }
  }

  /** CheckProofOfWork: the bits are in range and the hash is no larger than the target. */
  method CheckProofOfWork(hash: Hash, nBits: nat, limit: nat) returns (ok: bool)
    requires nBits < 0x1_0000_0000
    ensures ok <==> 0 < Expanded(nBits) <= limit && hash <= Expanded(nBits)
  {
    var bnTarget := new CBigNum(0);
    bnTarget.SetCompact(nBits);
    hide Expanded;
    if bnTarget.bn <= 0 || bnTarget.bn > limit {
      return false;
    }
    if hash > bnTarget.bn {
      return false;
    }
    ok := true;
  }
}
