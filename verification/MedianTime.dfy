/** The median of the last block times (GetMedianTimePast in src/main.h), which AcceptBlock asks
    every new block to exceed (src/main.cpp). */
module MedianTime {
  import opened Sorting
  import opened Blocks

  const MEDIAN_TIME_SPAN: nat := 11

  // -------------------------------------------------------------------------- sorting

  ghost predicate Nondecreasing(s: seq<int>) {
    forall i, j :: 0 <= i < j < |s| ==> s[i] <= s[j]
  }

  /** How many elements are below v. */
  ghost function Below(s: seq<int>, v: int): nat {
    if s == [] then 0 else Below(s[..|s| - 1], v) + if s[|s| - 1] < v then 1 else 0
  }

  function Earlier(a: int, b: int): bool {
    a < b
  }

  lemma {:induction false} InsertKeeps(s: seq<int>, x: int, v: int)
    requires Nondecreasing(s)
    ensures Nondecreasing(Insert(Earlier, s, x)) && Below(Insert(Earlier, s, x), v) == Below(s, v) + if x < v then 1
      else 0
    ensures |Insert(Earlier, s, x)| == |s| + 1 && forall y :: y in Insert(Earlier, s, x) ==> y == x || y in s
  {
    if s != [] && s[|s| - 1] > x {
      var last, rest := s[|s| - 1], Insert(Earlier, s[..|s| - 1], x);
      InsertKeeps(s[..|s| - 1], x, v);
      forall y | y in rest ensures y <= last {
      }
      AppendKeeps(rest, last, v);
    } else {
      AppendKeeps(s, x, v);
    }
  }

  lemma AppendKeeps(s: seq<int>, last: int, v: int)
    requires Nondecreasing(s) && forall y :: y in s ==> y <= last
    ensures Nondecreasing(s + [last]) && Below(s + [last], v) == Below(s, v) + if last < v then 1 else 0
  {
    assert (s + [last])[..|s|] == s;
    forall i | 0 <= i < |s| ensures s[i] <= last {
      assert s[i] in s;
    }
  }

  /** Sorting keeps the elements: for every v as many are below it. */
  lemma {:induction false} SortKeeps(s: seq<int>, v: int)
    ensures Nondecreasing(Sort(Earlier, s)) && |Sort(Earlier, s)| == |s| && Below(Sort(Earlier, s), v) == Below(s, v)
  {
    if s != [] {
      SortKeeps(s[..|s| - 1], v);
      InsertKeeps(Sort(Earlier, s[..|s| - 1]), s[|s| - 1], v);
    }
  }

  /** In a sorted list position k tells how many are below. */
  lemma {:induction false} SortedBelow(s: seq<int>, v: int, k: nat)
    requires Nondecreasing(s) && k < |s|
    ensures s[k] >= v <==> Below(s, v) <= k
  {
    var n := |s| - 1;
    if k < n {
      SortedBelow(s[..n], v, k);
    } else {
      BelowBound(s[..n], v);
    }
  }

  lemma {:induction false} BelowBound(s: seq<int>, v: int)
    ensures Below(s, v) <= |s|
    ensures (forall i :: 0 <= i < |s| ==> s[i] < v) ==> Below(s, v) == |s|
  {
    if s != [] {
      BelowBound(s[..|s| - 1], v);
    }
  }

  lemma {:induction false} BelowAppend(s: seq<int>, t: seq<int>, v: int)
    ensures Below(s + t, v) == Below(s, v) + Below(t, v)
  {
    if t == [] {
      assert s + t == s;
    } else {
      BelowAppend(s, t[..|t| - 1], v);
      assert (s + t)[..|s + t| - 1] == s + t[..|t| - 1];
    }
  }

  // ----------------------------------------------------------------------- the median

  function Median(times: seq<int>): int
    requires times != []
  {
    SortedLength(times);
    Sort(Earlier, times)[|times| / 2]
  }

  lemma SortedLength(s: seq<int>)
    ensures |Sort(Earlier, s)| == |s|
  {
    SortKeeps(s, 0);
  }

  /** What the median says about the unsorted list. */
  lemma MedianBelow(times: seq<int>, v: int)
    requires times != []
    ensures Median(times) >= v <==> Below(times, v) <= |times| / 2
  {
    SortKeeps(times, v);
    SortedBelow(Sort(Earlier, times), v, |times| / 2);
  }

  /** The times of a block and of up to ten before it, oldest first. */
  function Window(b: CBlockIndex, n: nat): (w: seq<int>)
    requires Linked(b)
    ensures |w| <= n
    decreases n
  {
    if n == 0 then []
    else if b.pprev == null then [b.block.time]
    else Window(b.pprev, n - 1) + [b.block.time]
  }

  function MedianTimePast(b: CBlockIndex): int
    requires Linked(b)
  {
    Median(Window(b, MEDIAN_TIME_SPAN))
  }

  method GetMedianTimePast(b: CBlockIndex) returns (median: int)
    requires Linked(b)
    ensures median == MedianTimePast(b)
  {
    var times := LastTimes(b, MEDIAN_TIME_SPAN);
    SortedLength(times);
    hide *;
    var sorted := Sort(Earlier, times);
    median := sorted[|times| / 2];
  }

  /** The loop of GetMedianTimePast, for a span of n blocks. */
  method LastTimes(b: CBlockIndex, n: nat) returns (times: seq<int>)
    requires Linked(b) && n > 0
    ensures times == Window(b, n) && times != []
  {
    times := [];
    var pindex: CBlockIndex? := b;
    var i := 0;
    while i < n && pindex != null
      invariant 0 <= i <= n && (pindex != null ==> Linked(pindex))
      invariant Window(b, n) == (if pindex == null then [] else Window(pindex, n - i)) + times
    {
      WindowStep(pindex, n - i);
      times := [pindex.block.time] + times;
      pindex := pindex.pprev;
      i := i + 1;
    }
    assert Window(b, n) == [] + times;
  }

  lemma WindowStep(b: CBlockIndex, n: nat)
    requires Linked(b) && n > 0
    ensures Window(b, n) == (if b.pprev == null then [] else Window(b.pprev, n - 1)) + [b.block.time]
  {
  }

  // -------------------------------------------------------------------- along a chain

  /** A window one longer begins with one more time, or is the same. */
  lemma {:induction false} WindowGrows(b: CBlockIndex, n: nat)
    requires Linked(b)
    ensures Window(b, n + 1) == Window(b, n) ||
      (|Window(b, n)| == n && exists t :: Window(b, n + 1) == [t] + Window(b, n))
    decreases n
  {
    if n == 0 {
      assert Window(b, 1) == [b.block.time] + [];
    } else if b.pprev != null {
      WindowGrows(b.pprev, n - 1);
      if Window(b.pprev, n) != Window(b.pprev, n - 1) {
        var t :| Window(b.pprev, n) == [t] + Window(b.pprev, n - 1);
        assert Window(b, n + 1) == [t] + Window(b, n);
      }
    }
  }

  /** A block later than the median time past of its parent does not lower it, whether or not
      the window is full. */
  lemma MedianStep(b: CBlockIndex)
    requires Linked(b) && b.pprev != null && b.block.time > MedianTimePast(b.pprev)
    ensures MedianTimePast(b) >= MedianTimePast(b.pprev)
  {
    var v := MedianTimePast(b.pprev);
    var n := MEDIAN_TIME_SPAN;
    var full, shorter := Window(b.pprev, n), Window(b.pprev, n - 1);
    var now := Window(b, n);
    assert now == shorter + [b.block.time];
    MedianBelow(full, v);
    BelowAppend(shorter, [b.block.time], v);
    assert Below([b.block.time], v) == 0;
    WindowGrows(b.pprev, n - 1);
    if full != shorter {
      var t :| full == [t] + shorter;
      BelowAppend([t], shorter, v);
    }
    MedianBelow(now, v);
  }

  /** Every block of the chain was later than the median time past of its parent. */
  ghost predicate TimesAccepted(b: CBlockIndex)
    requires Linked(b)
    decreases b.nHeight
  {
    b.pprev != null ==> b.block.time > MedianTimePast(b.pprev) && TimesAccepted(b.pprev)
  }

  /** So the median time past never falls along a chain. */
  lemma {:induction false} MedianNeverFalls(b: CBlockIndex, h: nat)
    requires Linked(b) && TimesAccepted(b) && h <= b.nHeight
    ensures MedianTimePast(Anc(b, h)) <= MedianTimePast(b)
    decreases b.nHeight
  {
    if h < b.nHeight {
      MedianNeverFalls(b.pprev, h);
      MedianStep(b);
    }
  }

  /** And every later block is later than the median time past of every earlier one. */
  lemma LaterThanEveryMedian(b: CBlockIndex, h: nat)
    requires Linked(b) && TimesAccepted(b) && h < b.nHeight
    ensures b.block.time > MedianTimePast(Anc(b, h))
  {
    MedianNeverFalls(b.pprev, h);
  }
}
