/** Merkle trees of blocks (BuildMerkleTree, GetMerkleBranch and CheckMerkleBranch in src/main.h). */
module Merkle {
  import opened Wrappers
  import opened Numbers

  type Hash256 = nat

  type PairHash = (Hash256, Hash256) -> Hash256

  /** The level above: pairs are hashed together, and a last odd one with itself. */
  function Up(h: PairHash, level: seq<Hash256>): (up: seq<Hash256>)
    ensures |up| == (|level| + 1) / 2
  {
    seq((|level| + 1) / 2, i requires 0 <= i < (|level| + 1) / 2 => h(level[2 * i], level[Min(2 * i + 1, |level| - 1)]))
  }

  /** All levels, one after the other. */
  function Tree(h: PairHash, level: seq<Hash256>): (t: seq<Hash256>)
    ensures level <= t
    decreases |level|
  {
    if |level| <= 1 then level else level + Tree(h, Up(h, level))
  }

  function Root(h: PairHash, level: seq<Hash256>): Hash256
    decreases |level|
  {
    if level == [] then 0 else if |level| == 1 then level[0] else Root(h, Up(h, level))
  }

  /** nIndex ^ 1. */
  function Sibling(i: nat): nat {
    if i % 2 == 0 then i + 1 else i - 1
  }

  /** The siblings on the way from entry i up to the root. */
  function Branch(h: PairHash, level: seq<Hash256>, i: nat): seq<Hash256>
    decreases |level|
  {
    if |level| <= 1 then [] else [level[Min(Sibling(i), |level| - 1)]] + Branch(h, Up(h, level), i / 2)
  }

  /** What a branch makes of a hash. */
  function Climb(h: PairHash, hash: Hash256, branch: seq<Hash256>, i: int): Hash256
    decreases |branch|
  {
    if branch == [] then hash
    else Climb(h, if i % 2 == 1 then h(branch[0], hash) else h(hash, branch[0]), branch[1..], i / 2)
  }

  // ----------------------------------------------------------------------- properties

  /** The branch of any leaf leads to the root, at every size of the list. */
  lemma {:induction false} BranchLeadsToRoot(h: PairHash, level: seq<Hash256>, i: nat)
    requires i < |level|
    ensures Climb(h, level[i], Branch(h, level, i), i) == Root(h, level)
    decreases |level|
  {
    if |level| > 1 {
      ClimbOne(h, level, i / 2, i);
      BranchLeadsToRoot(h, Up(h, level), i / 2);
    }
  }

  /** The first step of a branch leads to the entry above. */
  lemma ClimbOne(h: PairHash, level: seq<Hash256>, k: nat, i: nat)
    requires |level| > 1 && i < |level| && (i == 2 * k || i == 2 * k + 1)
    ensures Climb(h, level[i], Branch(h, level, i), i) == Climb(h, Up(h, level)[k], Branch(h, Up(h, level), k), k)
  {
    hide Up, Branch, Climb, Sibling;
    UpAt(h, level, k);
    BranchStep(h, level, i);
    SiblingOf(k, i);
    assert i / 2 == k;
    ClimbStep(h, level[i], level[Min(Sibling(i), |level| - 1)], Branch(h, Up(h, level), k), i);
  }

  lemma SiblingOf(k: nat, i: nat)
    requires i == 2 * k || i == 2 * k + 1
    ensures Sibling(i) == if i == 2 * k then i + 1 else i - 1
  {
  }

  lemma ClimbStep(h: PairHash, hash: Hash256, sibling: Hash256, rest: seq<Hash256>, i: nat)
    ensures Climb(h, hash, [sibling] + rest, i) ==
      Climb(h, if i % 2 == 1 then h(sibling, hash) else h(hash, sibling), rest, i / 2)
  {
    assert ([sibling] + rest)[1..] == rest;
  }

  ghost predicate Injective(h: PairHash) {
    forall a, b, c, d :: h(a, b) == h(c, d) ==> a == c && b == d
  }

  /** Two branches of one length that lead to the same hash at one index start from the same
      hash, and are the same. */
  lemma {:induction false} ClimbDecides(h: PairHash, x: Hash256, y: Hash256, b: seq<Hash256>, c: seq<Hash256>, i: int)
    requires Injective(h) && |b| == |c| && Climb(h, x, b, i) == Climb(h, y, c, i)
    ensures x == y && b == c
    decreases |b|
  {
    if b != [] {
      var x1 := if i % 2 == 1 then h(b[0], x) else h(x, b[0]);
      var y1 := if i % 2 == 1 then h(c[0], y) else h(y, c[0]);
      ClimbDecides(h, x1, y1, b[1..], c[1..], i / 2);
      assert b == [b[0]] + b[1..] && c == [c[0]] + c[1..];
    }
  }

  /** A branch as long as the right one proves nothing but the leaf at its index. */
  lemma OnlyTheLeafVerifies(h: PairHash, level: seq<Hash256>, i: nat, x: Hash256, branch: seq<Hash256>)
    requires Injective(h) && i < |level| && |branch| == |Branch(h, level, i)|
    ensures Climb(h, x, branch, i) == Root(h, level) <==> x == level[i] && branch == Branch(h, level, i)
  {
    BranchLeadsToRoot(h, level, i);
    if Climb(h, x, branch, i) == Root(h, level) {
      ClimbDecides(h, x, level[i], branch, Branch(h, level, i), i);
    }
  }

  lemma RootStep(h: PairHash, level: seq<Hash256>)
    requires |level| > 1
    ensures Root(h, level) == Root(h, Up(h, level))
  {
  }

  lemma TreeStep(h: PairHash, level: seq<Hash256>)
    requires |level| > 1
    ensures Tree(h, level) == level + Tree(h, Up(h, level))
  {
  }

  lemma BranchStep(h: PairHash, level: seq<Hash256>, i: nat)
    requires |level| > 1
    ensures Branch(h, level, i) == [level[Min(Sibling(i), |level| - 1)]] + Branch(h, Up(h, level), i / 2)
  {
  }

  lemma SmallTree(h: PairHash, level: seq<Hash256>)
    requires |level| <= 1
    ensures Tree(h, level) == level && (level == [] ==> Root(h, level) == 0)
    ensures forall i: nat :: Branch(h, level, i) == []
  {
  }

  /** Another level is in place. */
  lemma LevelAdded(h: PairHash, leaves: seq<Hash256>, before: seq<Hash256>, after: seq<Hash256>, j: nat)
    requires |before| > j + 1 && Tree(h, leaves) == before[..j] + Tree(h, before[j..])
    requires after == before + Up(h, before[j..])
    ensures Tree(h, leaves) == after[..|before|] + Tree(h, after[|before|..])
  {
    TreeStep(h, before[j..]);
    Regroup(before, j, Up(h, before[j..]), Tree(h, Up(h, before[j..])));
  }

  lemma Regroup(before: seq<Hash256>, j: nat, up: seq<Hash256>, rest: seq<Hash256>)
    requires j <= |before|
    ensures (before + up)[|before|..] == up && (before + up)[..|before|] == before
    ensures before[..j] + (before[j..] + rest) == before + rest
  {
    assert before == before[..j] + before[j..];
  }

  lemma SameUp(h: PairHash, level: seq<Hash256>)
    requires |level| % 2 == 1
    ensures Up(h, level + [level[|level| - 1]]) == Up(h, level)
  {
    var longer := level + [level[|level| - 1]];
    forall i | 0 <= i < (|level| + 1) / 2 ensures Up(h, longer)[i] == Up(h, level)[i] {
      assert longer[2 * i] == level[2 * i];
      assert longer[2 * i + 1] == level[Min(2 * i + 1, |level| - 1)];
    }
  }

  /** The state of the loop of GetMerkleBranch: the part of the tree above, and the part of the
      branch. */
  ghost predicate Climbing(h: PairHash, leaves: seq<Hash256>, index: nat, tree: seq<Hash256>, j: int,
                           level: seq<Hash256>,
                           sofar: seq<Hash256>, n: nat)
  {
    && 0 <= j <= |tree| && tree[j..] == Tree(h, level)
    && Branch(h, leaves, index) == sofar + Branch(h, level, n)
  }

  lemma ClimbingStart(h: PairHash, leaves: seq<Hash256>, index: nat)
    ensures Climbing(h, leaves, index, Tree(h, leaves), 0, leaves, [], index)
  {
    assert Tree(h, leaves)[0..] == Tree(h, leaves);
  }

  lemma ClimbingEnd(h: PairHash, leaves: seq<Hash256>, index: nat, tree: seq<Hash256>, j: int, level: seq<Hash256>,
                    sofar: seq<Hash256>, n: nat)
    requires Climbing(h, leaves, index, tree, j, level, sofar, n) && |level| <= 1
    ensures sofar == Branch(h, leaves, index)
  {
    SmallTree(h, level);
  }

  lemma ClimbingStep(h: PairHash, leaves: seq<Hash256>, index: nat, tree: seq<Hash256>, j: nat, level: seq<Hash256>,
                     sofar: seq<Hash256>, n: nat)
    requires Climbing(h, leaves, index, tree, j, level, sofar, n) && |level| > 1
    ensures var i := Min(Sibling(n), |level| - 1);
      && j + i < |tree| && Climbing(h, leaves, index, tree, j + |level|, Up(h, level), sofar + [tree[j + i]], n / 2)
  {
    TreeStep(h, level);
    BranchStep(h, level, n);
    var i := Min(Sibling(n), |level| - 1);
    assert tree[j..][i] == level[i] && tree[j..][|level|..] == tree[j + |level|..];
    hide Tree, Branch, Up;
    assert sofar + ([level[i]] + Branch(h, Up(h, level), n / 2)) ==
      (sofar + [level[i]]) + Branch(h, Up(h, level), n / 2);
  }

  // -------------------------------------------------------- what the root determines

  /** The number of levels above the leaves. */
  function Depth(n: nat): nat {
    if n <= 1 then 0 else 1 + Depth((n + 1) / 2)
  }

  /** The leaf of a list of length n that stands at place i of the full tree of its depth, in
      which the last entry of every odd level is there twice. */
  function Leaf(n: nat, i: nat): (j: nat)
    requires 0 < n && i < Pow2(Depth(n))
    ensures j < n && (i < n ==> j == i)
  {
    if n == 1 then 0 else Min(2 * Leaf((n + 1) / 2, i / 2) + i % 2, n - 1)
  }

  /** The leaves of that full tree. */
  function Full(level: seq<Hash256>): (full: seq<Hash256>)
    requires level != []
    ensures |full| == Pow2(Depth(|level|))
  {
    seq(Pow2(Depth(|level|)), i requires 0 <= i < Pow2(Depth(|level|)) => level[Leaf(|level|, i)])
  }

  lemma SizeUp(n: nat)
    requires n > 1
    ensures Depth(n) == Depth((n + 1) / 2) + 1 && Pow2(Depth(n)) == 2 * Pow2(Depth((n + 1) / 2))
  {
  }

  lemma LeafStep(n: nat, i: nat)
    requires n > 1 && i < Pow2(Depth((n + 1) / 2)) && 2 * i + 1 < Pow2(Depth(n))
    ensures Leaf(n, 2 * i) == 2 * Leaf((n + 1) / 2, i)
    ensures Leaf(n, 2 * i + 1) == Min(2 * Leaf((n + 1) / 2, i) + 1, n - 1)
  {
    var m := (n + 1) / 2;
    assert m < n && Leaf(m, i) < m;
    assert 2 * i / 2 == i && (2 * i + 1) / 2 == i;
    hide Depth, Pow2;
  }

  lemma UpAt(h: PairHash, level: seq<Hash256>, j: nat)
    requires j < (|level| + 1) / 2
    ensures Up(h, level)[j] == h(level[2 * j], level[Min(2 * j + 1, |level| - 1)])
  {
  }

  lemma FullAt(level: seq<Hash256>, i: nat)
    requires level != [] && i < Pow2(Depth(|level|))
    ensures Full(level)[i] == level[Leaf(|level|, i)] && (i < |level| ==> Full(level)[i] == level[i])
  {
  }

  lemma FullUp(h: PairHash, level: seq<Hash256>, i: nat)
    requires |level| > 1 && 2 * i + 1 < |Full(level)|
    ensures i < |Full(Up(h, level))|
    ensures Full(Up(h, level))[i] == h(Full(level)[2 * i], Full(level)[2 * i + 1])
  {
    hide *;
    SizeUp(|level|);
    LeafStep(|level|, i);
    UpAt(h, level, Leaf((|level| + 1) / 2, i));
    FullAt(level, 2 * i);
    FullAt(level, 2 * i + 1);
    FullAt(Up(h, level), i);
  }

  lemma FullSize(h: PairHash, level: seq<Hash256>)
    requires |level| > 1
    ensures Up(h, level) != [] && |Full(level)| == 2 * |Full(Up(h, level))| == Pow2(Depth(|level|))
  {
    hide *;
    SizeUp(|level|);
  }

  /** One level up the full trees are the same exactly when they are below. */
  lemma SameFull(h: PairHash, a: seq<Hash256>, b: seq<Hash256>)
    requires Injective(h) && |a| > 1 && |b| > 1 && Depth(|a|) == Depth(|b|)
    ensures Full(Up(h, a)) == Full(Up(h, b)) <==> Full(a) == Full(b)
  {
    hide *;
    FullSize(h, a);
    FullSize(h, b);
    var fa, fb, ua, ub := Full(a), Full(b), Full(Up(h, a)), Full(Up(h, b));
    forall i: nat | i < |ua|
      ensures ua[i] == h(fa[2 * i], fa[2 * i + 1]) && ub[i] == h(fb[2 * i], fb[2 * i + 1])
    {
      FullUp(h, a, i);
      FullUp(h, b, i);
    }
    SamePairs(h, fa, ua, fb, ub);
  }

  lemma SamePairs(h: PairHash, a: seq<Hash256>, up: seq<Hash256>, b: seq<Hash256>, vp: seq<Hash256>)
    requires Injective(h) && |a| == |b| == 2 * |up| == 2 * |vp|
    requires forall i :: 0 <= i < |up| ==> up[i] == h(a[2 * i], a[2 * i + 1]) && vp[i] == h(b[2 * i], b[2 * i + 1])
    ensures up == vp <==> a == b
  {
    if up == vp {
      forall k | 0 <= k < |a| ensures a[k] == b[k] {
        var i := k / 2;
        assert up[i] == vp[i];
        assert k == 2 * i || k == 2 * i + 1;
      }
    }
  }

  /** Exactly which lists with the same number of levels have the same root. */
  lemma {:induction false} RootDecides(h: PairHash, a: seq<Hash256>, b: seq<Hash256>)
    requires Injective(h) && a != [] && b != [] && Depth(|a|) == Depth(|b|)
    ensures Root(h, a) == Root(h, b) <==> Full(a) == Full(b)
    decreases |a|
  {
    if |a| == 1 {
      assert Full(a) == [a[0]] && Full(b) == [b[0]];
    } else {
      RootDecides(h, Up(h, a), Up(h, b));
      SameFull(h, a, b);
    }
  }

  /** The n-th level above the leaves. */
  function UpBy(h: PairHash, level: seq<Hash256>, n: nat): seq<Hash256>
    decreases n
  {
    if n == 0 then level else UpBy(h, Up(h, level), n - 1)
  }

  lemma {:induction false} UpByKeeps(h: PairHash, level: seq<Hash256>, n: nat)
    requires level != [] && n <= Depth(|level|)
    ensures UpBy(h, level, n) != [] && Depth(|UpBy(h, level, n)|) == Depth(|level|) - n
    ensures Root(h, UpBy(h, level, n)) == Root(h, level)
    decreases n
  {
    hide Up, Root;
    if n > 0 {
      RootStep(h, level);
      UpByKeeps(h, Up(h, level), n - 1);
    }
  }

  /** Exactly which lists of any lengths have the same root: the one with fewer levels has the
      full tree of a level of the other. */
  lemma RootDecidesAll(h: PairHash, a: seq<Hash256>, b: seq<Hash256>)
    requires Injective(h) && a != [] && b != [] && Depth(|a|) <= Depth(|b|)
    ensures var above := UpBy(h, b, Depth(|b|) - Depth(|a|));
      above != [] && (Root(h, a) == Root(h, b) <==> Full(a) == Full(above))
  {
    hide UpBy, Root, Full, Depth, Injective;
    var n := Depth(|b|) - Depth(|a|);
    UpByKeeps(h, b, n);
    RootDecides(h, a, UpBy(h, b, n));
  }

  /** So a list without repeated entries has the root of another one with as many levels or
      more exactly when it is a level of its tree. */
  lemma RootDeterminesLevel(h: PairHash, a: seq<Hash256>, b: seq<Hash256>)
    requires Injective(h) && a != [] && b != [] && Depth(|a|) <= Depth(|b|)
    requires Distinct(a) && Distinct(b)
    ensures Root(h, a) == Root(h, b) <==> a == UpBy(h, b, Depth(|b|) - Depth(|a|))
  {
    hide UpBy, Root, Full, Depth, Distinct, Injective;
    var n := Depth(|b|) - Depth(|a|);
    UpByKeeps(h, b, n);
    UpByDistinct(h, b, n);
    RootDeterminesList(h, a, UpBy(h, b, n));
  }

  lemma {:induction false} UpByDistinct(h: PairHash, level: seq<Hash256>, n: nat)
    requires Injective(h) && Distinct(level)
    ensures Distinct(UpBy(h, level, n))
    decreases n
  {
    hide Up, Distinct, Injective;
    if n > 0 {
      UpDistinct(h, level);
      UpByDistinct(h, Up(h, level), n - 1);
    }
  }

  lemma UpDistinct(h: PairHash, level: seq<Hash256>)
    requires Injective(h) && Distinct(level)
    ensures Distinct(Up(h, level))
  {
    hide Up;
    var up := Up(h, level);
    forall i, j | 0 <= i < j < |up| ensures up[i] != up[j] {
      UpAt(h, level, i);
      UpAt(h, level, j);
      assert level[2 * i] != level[2 * j];
    }
  }

  /** Two lists of different depths that repeat nothing and share their root. */
  lemma PairSharesRoot(h: PairHash, x: Hash256, y: Hash256)
    ensures Root(h, [h(x, y)]) == Root(h, [x, y]) && [h(x, y)] != [x, y]
    ensures Distinct([h(x, y)]) && (Distinct([x, y]) <==> x != y)
  {
    var level := [x, y];
    UpAt(h, level, 0);
    assert Up(h, level) == [h(x, y)];
    assert level[0] == x && level[1] == y;
  }

  /** Among lists without a repeated entry, as CheckBlock requires of a block, the root and the
      number of levels determine the list. */
  lemma RootDeterminesList(h: PairHash, a: seq<Hash256>, b: seq<Hash256>)
    requires Injective(h) && a != [] && b != [] && Depth(|a|) == Depth(|b|)
    requires Distinct(a) && Distinct(b)
    ensures Root(h, a) == Root(h, b) <==> a == b
  {
    RootDecides(h, a, b);
    if Full(a) == Full(b) {
      FullStarts(a, b);
      FullStarts(b, a);
    }
  }

  /** The hash of nothing but a pair d levels deep, counted along first components. */
  ghost predicate DeepBy(h: PairHash, x: Hash256, d: nat)
    decreases d
  {
    if d == 0 then forall a, b :: h(a, b) != x
    else exists a, b :: h(a, b) == x && DeepBy(h, a, d - 1)
  }

  lemma {:induction false} OneDepth(h: PairHash, x: Hash256, d: nat, e: nat)
    requires Injective(h) && DeepBy(h, x, d) && DeepBy(h, x, e)
    ensures d == e
    decreases d
  {
    if d > 0 && e > 0 {
      var a, b :| h(a, b) == x && DeepBy(h, a, d - 1);
      var a', b' :| h(a', b') == x && DeepBy(h, a', e - 1);
      OneDepth(h, a, d - 1, e - 1);
    }
  }

  lemma {:induction false} RootDepth(h: PairHash, level: seq<Hash256>, d: nat)
    requires level != [] && forall i :: 0 <= i < |level| ==> DeepBy(h, level[i], d)
    ensures DeepBy(h, Root(h, level), d + Depth(|level|))
    decreases |level|
  {
    if |level| > 1 {
      var up := Up(h, level);
      forall j | 0 <= j < |up| ensures DeepBy(h, up[j], d + 1) {
        UpAt(h, level, j);
        assert h(level[2 * j], level[Min(2 * j + 1, |level| - 1)]) == up[j];
      }
      RootDepth(h, up, d + 1);
    }
  }

  /** When no entry is itself a pair hash, as if leaves and inner nodes were hashed apart, the
      root determines a list without repeated entries, of whatever length. */
  lemma RootDeterminesAny(h: PairHash, a: seq<Hash256>, b: seq<Hash256>)
    requires Injective(h) && a != [] && b != [] && Distinct(a) && Distinct(b)
    requires forall x :: x in a || x in b ==> DeepBy(h, x, 0)
    ensures Root(h, a) == Root(h, b) <==> a == b
  {
    RootDepth(h, a, 0);
    RootDepth(h, b, 0);
    if Root(h, a) == Root(h, b) {
      OneDepth(h, Root(h, a), Depth(|a|), Depth(|b|));
      RootDeterminesList(h, a, b);
    }
  }

  /** A full tree starts with its list, so of two lists with one full tree none without repeats
      is the longer. */
  lemma FullStarts(a: seq<Hash256>, b: seq<Hash256>)
    requires a != [] && b != [] && Depth(|a|) == Depth(|b|) && Full(a) == Full(b) && Distinct(b)
    ensures |b| <= |a| && b == a[..|b|]
  {
    LengthFits(|a|);
    LengthFits(|b|);
    if |b| > |a| {
      var j := Leaf(|a|, |a|);
      FullAt(a, j);
      FullAt(b, j);
      FullAt(a, |a|);
      FullAt(b, |a|);
      assert false;
    }
    forall i | 0 <= i < |b| ensures a[i] == b[i] {
      FullAt(a, i);
      FullAt(b, i);
    }
  }

  lemma {:induction false} LengthFits(n: nat)
    ensures n <= Pow2(Depth(n))
  {
    if n > 1 {
      LengthFits((n + 1) / 2);
    }
  }

  lemma LastMayRepeat(h: PairHash, level: seq<Hash256>)
    requires |level| > 1 && |level| % 2 == 1
    ensures Root(h, level + [level[|level| - 1]]) == Root(h, level)
  {
    hide Up, Root;
    SameUp(h, level);
    RootStep(h, level);
    RootStep(h, level + [level[|level| - 1]]);
  }

  lemma OddLeaf(n: nat)
    requires n > 1 && n % 2 == 1
    ensures Depth(n) == Depth(n + 1) && n < Pow2(Depth(n)) && Leaf(n, n) == n - 1
  {
    LengthFits(n + 1);
  }

  /** A list of odd length has the root of the one with an entry appended exactly when that
      entry repeats its last. */
  lemma OnlyLastMayRepeat(h: PairHash, level: seq<Hash256>, x: Hash256)
    requires Injective(h) && |level| > 1 && |level| % 2 == 1
    ensures Root(h, level + [x]) == Root(h, level) <==> x == level[|level| - 1]
  {
    hide Full, Leaf, Up, Root, Depth, Pow2;
    var n, longer := |level|, level + [x];
    OddLeaf(n);
    RootDecides(h, longer, level);
    FullAt(longer, n);
    FullAt(level, n);
    if x == level[n - 1] {
      LastMayRepeat(h, level);
    }
  }

  lemma UpAppended(h: PairHash, level: seq<Hash256>)
    requires |level| >= 2 && |level| % 2 == 0
    ensures Up(h, level + level[|level| - 2..]) == Up(h, level) + [Up(h, level)[|Up(h, level)| - 1]]
  {
    hide Up;
    var n, longer := |level|, level + level[|level| - 2..];
    var k := n / 2 - 1;
    forall i | 0 <= i < n / 2 + 1 ensures Up(h, longer)[i] == if i < n / 2 then Up(h, level)[i] else Up(h, level)[k] {
      UpAt(h, longer, i);
      UpAt(h, level, if i < n / 2 then i else k);
    }
  }

  /** So may the last two, where a level above has odd length. */
  lemma LastTwoMayRepeat(h: PairHash, level: seq<Hash256>)
    requires |level| > 2 && |level| % 4 == 2
    ensures Root(h, level + level[|level| - 2..]) == Root(h, level)
  {
    hide Up, Root;
    UpAppended(h, level);
    OddUp(|level|);
    UpRepeated(h, level, level + level[|level| - 2..]);
  }

  lemma UpRepeated(h: PairHash, level: seq<Hash256>, longer: seq<Hash256>)
    requires |level| > 1 && |longer| > 1 && |Up(h, level)| > 1 && |Up(h, level)| % 2 == 1
    requires Up(h, longer) == Up(h, level) + [Up(h, level)[|Up(h, level)| - 1]]
    ensures Root(h, longer) == Root(h, level)
  {
    hide Up, Root;
    LastMayRepeat(h, Up(h, level));
    RootStep(h, level);
    RootStep(h, longer);
  }

  lemma OddUp(n: nat)
    requires n > 2 && n % 4 == 2
    ensures (n + 1) / 2 > 1 && (n + 1) / 2 % 2 == 1
  {
  }

  lemma {:induction false} RootIsLast(h: PairHash, level: seq<Hash256>)
    requires level != []
    ensures Tree(h, level) != [] && Tree(h, level)[|Tree(h, level)| - 1] == Root(h, level)
    decreases |level|
  {
    if |level| > 1 {
      RootIsLast(h, Up(h, level));
    }
  }

  // -------------------------------------------------------------------------- the code

  class CBlock {
    const Hash: PairHash
    /** The hashes of the transactions. */
    const vtx: seq<Hash256>
    var vMerkleTree: seq<Hash256>

    constructor (hash: PairHash, vtx: seq<Hash256>)
      ensures Valid() && this.Hash == hash && this.vtx == vtx
    {
      this.Hash, this.vtx, vMerkleTree := hash, vtx, [];
    }

    /** The tree is not built yet, or it is that of the transactions. */
    ghost predicate Valid()
      reads this
    {
      vMerkleTree == [] || vMerkleTree == Tree(Hash, vtx)
    }

    method BuildMerkleTree() returns (root: Hash256)
      modifies this
      ensures vMerkleTree == Tree(Hash, vtx) && root == Root(Hash, vtx)
    {
      hide Tree, Up, Root;
      vMerkleTree := [];
      var t := 0;
      while t < |vtx|
        invariant 0 <= t <= |vtx| && vMerkleTree == vtx[..t]
      {
        vMerkleTree := vMerkleTree + [vtx[t]];
        t := t + 1;
      }
      assert vMerkleTree == vtx;
      var j := 0;
      var nSize := |vtx|;
      while nSize > 1
        invariant 0 <= j && 0 <= nSize && |vMerkleTree| == j + nSize
        invariant Tree(Hash, vtx) == vMerkleTree[..j] + Tree(Hash, vMerkleTree[j..])
        decreases nSize
      {
        ghost var before := vMerkleTree;
        AddLevel(j, nSize);
        LevelAdded(Hash, vtx, before, vMerkleTree, j);
        j := j + nSize;
        nSize := (nSize + 1) / 2;
      }
      SmallTree(Hash, vMerkleTree[j..]);
      assert vMerkleTree == vMerkleTree[..j] + vMerkleTree[j..];
      if vtx != [] {
        RootIsLast(Hash, vtx);
      }
      root := if vMerkleTree == [] then 0 else vMerkleTree[|vMerkleTree| - 1];
    }

    /** The inner loop of BuildMerkleTree. */
    method AddLevel(j: nat, nSize: nat)
      requires nSize > 1 && |vMerkleTree| == j + nSize
      modifies this
      ensures vMerkleTree == old(vMerkleTree) + Up(Hash, old(vMerkleTree)[j..])
    {
      ghost var level := vMerkleTree[j..];
      ghost var up := Up(Hash, level);
      var i := 0;
      while i < nSize
        invariant 0 <= i <= nSize + 1 && i % 2 == 0 && i / 2 <= |up|
        invariant vMerkleTree == old(vMerkleTree) + up[..i / 2]
      {
        var i2 := Min(i + 1, nSize - 1);
        assert vMerkleTree[j + i] == level[i] && vMerkleTree[j + i2] == level[i2];
        assert up[..i / 2 + 1] == up[..i / 2] + [up[i / 2]];
        vMerkleTree := vMerkleTree + [Hash(vMerkleTree[j + i], vMerkleTree[j + i2])];
        i := i + 2;
      }
      assert up[..i / 2] == up;
    }

    method GetMerkleBranch(index: nat) returns (vMerkleBranch: seq<Hash256>)
      requires Valid()
      modifies this
      ensures Valid() && vMerkleBranch == Branch(Hash, vtx, index)
    {
      if vMerkleTree == [] {
        var _ := BuildMerkleTree();
      }
      vMerkleBranch := [];
      var nIndex := index;
      var j := 0;
      var nSize := |vtx|;
      ghost var level := vtx;
      ghost var tree := vMerkleTree;
      ClimbingStart(Hash, vtx, index);
      hide Tree, Branch, Up, Climbing, Sibling;
      while nSize > 1
        invariant vMerkleTree == tree && nSize == |level| && 0 <= j && 0 <= nIndex
        invariant Climbing(Hash, vtx, index, tree, j, level, vMerkleBranch, nIndex)
        decreases nSize
      {
        ClimbingStep(Hash, vtx, index, tree, j, level, vMerkleBranch, nIndex);
        var i := Min(Sibling(nIndex), nSize - 1);
        vMerkleBranch := vMerkleBranch + [vMerkleTree[j + i]];
        nIndex := nIndex / 2;
        j := j + nSize;
        level := Up(Hash, level);
        nSize := (nSize + 1) / 2;
      }
      ClimbingEnd(Hash, vtx, index, tree, j, level, vMerkleBranch, nIndex);
    }
  }

  method CheckMerkleBranch(h: PairHash, leaf: Hash256, vMerkleBranch: seq<Hash256>, index: int) returns (hash: Hash256)
    ensures hash == if index == -1 then 0 else Climb(h, leaf, vMerkleBranch, index)
  {
    if index == -1 {
      return 0;
    }
    hash := leaf;
    var nIndex := index;
    var n := 0;
    while n < |vMerkleBranch|
      invariant 0 <= n <= |vMerkleBranch|
      invariant Climb(h, leaf, vMerkleBranch, index) == Climb(h, hash, vMerkleBranch[n..], nIndex)
    {
      var otherside := vMerkleBranch[n];
      assert vMerkleBranch[n..][1..] == vMerkleBranch[n + 1..];
      if nIndex % 2 == 1 {
        hash := h(otherside, hash);
      } else {
        hash := h(hash, otherside);
      }
      nIndex := nIndex / 2;
      n := n + 1;
    }
  }
}
