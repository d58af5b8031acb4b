/** The consistency check of the address manager (Check_ in src/addrman.cpp). */
module AddrCheck {
  import opened Wrappers
  import opened AddrTables
  import opened Walk
  import opened AddrMan

  /** mapAddr[ip]: looking up what is missing yields the number 0. */
  function Mapped(addrs: map<NetAddr, int>, ip: NetAddr): int {
    if ip in addrs then addrs[ip] else 0
  }

  predicate EntryChecked(info: Infos, addrs: map<NetAddr, int>, rnd: seq<int>, id: int)
    requires id in info
  {
    var e := info[id];
    && (if e.fInTried then e.nLastSuccess != 0 && e.nRefCount == 0 else 1 <= e.nRefCount <= NEW_BUCKETS_PER_ADDRESS)
    && Mapped(addrs, e.addr.ip) == id
    && 0 <= e.nRandomPos < |rnd| && rnd[e.nRandomPos] == id
    && e.nLastTry >= 0 && e.nLastSuccess >= 0
  }

  /** The entries of all buckets, one after the other. */
  ghost function Flat(vv: seq<seq<int>>): seq<int> {
    if vv == [] then [] else Flat(vv[..|vv| - 1]) + vv[|vv| - 1]
  }

  /** The tried buckets hold each of the ids once, and nothing else. */
  ghost predicate HoldsOnce(vv: seq<seq<int>>, ids: set<int>) {
    Distinct(Flat(vv)) && forall x :: x in Flat(vv) <==> x in ids
  }

  /** The new buckets hold each id as often as its count says, and nothing else. */
  ghost predicate HoldsCounted(vv: seq<set<int>>, refs: map<int, int>) {
    && (forall b, x :: 0 <= b < |vv| && x in vv[b] ==> x in refs)
    && (forall x :: x in refs ==> Holding(vv, x) == refs[x])
  }

  ghost function RefCounts(info: Infos): map<int, int> {
    map id | id in info && !info[id].fInTried :: info[id].nRefCount
  }

  /** What the check makes sure of. */
  ghost predicate Checked(am: CAddrMan)
    reads am
  {
    && |am.vRandom| == am.nTried + am.nNew
    && (forall id :: id in am.mapInfo ==> EntryChecked(am.mapInfo, am.mapAddr, am.vRandom, id))
    && CountsOk(am.mapInfo, am.nTried, am.nNew)
    && HoldsOnce(am.vvTried, TriedIds(am.mapInfo)) && HoldsCounted(am.vvNew, RefCounts(am.mapInfo))
  }

  // --------------------------------------------------------------------------- entries

  method CheckEntries(info: Infos, addrs: map<NetAddr, int>, rnd: seq<int>)
    returns (code: int, setTried: set<int>, mapNew: map<int, int>)
    ensures code == 0 <==> forall id :: id in info ==> EntryChecked(info, addrs, rnd, id)
    ensures code == 0 ==> setTried == TriedIds(info) && mapNew == RefCounts(info)
  {
    code, setTried, mapNew := 0, {}, map[];
    var walk := InOrder(info.Keys);
    var i := 0;
    while i < |walk|
      invariant 0 <= i <= |walk|
      invariant forall j :: 0 <= j < i ==> walk[j] in info && EntryChecked(info, addrs, rnd, walk[j])
      invariant forall x :: x in setTried <==> x in walk[..i] && x in TriedIds(info)
      invariant mapNew == RefCountsOf(info, Members(walk[..i]))
    {
      var n := walk[i];
      assert n in walk && n in info.Keys && walk[..i + 1] == walk[..i] + [n];
      assert Members(walk[..i + 1]) == Members(walk[..i]) + {n};
      CountOneMore(info, Members(walk[..i]), n);
      code := CheckEntry(info, addrs, rnd, n);
      if code != 0 {
        return;
      }
      if info[n].fInTried {
        setTried := setTried + {n};
      } else {
        mapNew := mapNew[n := info[n].nRefCount];
      }
      i := i + 1;
    }
    assert walk[..i] == walk;
    forall id | id in info ensures id in walk && EntryChecked(info, addrs, rnd, id) {
      assert id in info.Keys;
    }
    forall x ensures x in setTried <==> x in TriedIds(info) {
    }
    MembersOfAll(walk, info.Keys);
    assert RefCountsOf(info, info.Keys) == RefCounts(info);
  }

  lemma MembersOfAll(walk: seq<int>, all: set<int>)
    requires Lists(walk, all)
    ensures Members(walk) == all
  {
    forall x ensures x in Members(walk) <==> x in all {
      assert x in walk <==> x in all;
    }
  }

  /** The counts of the new entries among some. */
  ghost function RefCountsOf(info: Infos, ids: set<int>): map<int, int> {
    map id | id in ids && id in info && !info[id].fInTried :: info[id].nRefCount
  }

  lemma CountOneMore(info: Infos, ids: set<int>, n: int)
    requires n in info
    ensures RefCountsOf(info, ids + {n}) ==
      if info[n].fInTried then RefCountsOf(info, ids) else RefCountsOf(info, ids)[n := info[n].nRefCount]
  {
  }

  method CheckEntry(info: Infos, addrs: map<NetAddr, int>, rnd: seq<int>, n: int) returns (code: int)
    requires n in info
    ensures code == 0 <==> EntryChecked(info, addrs, rnd, n)
  {
    var e := info[n];
    if e.fInTried {
      if e.nLastSuccess == 0 { return -1; }
      if e.nRefCount != 0 { return -2; }
    } else {
      if e.nRefCount < 0 || e.nRefCount > NEW_BUCKETS_PER_ADDRESS { return -3; }
      if e.nRefCount == 0 { return -4; }
    }
    if Mapped(addrs, e.addr.ip) != n { return -5; }
    if e.nRandomPos < 0 || e.nRandomPos >= |rnd| || rnd[e.nRandomPos] != n { return -14; }
    if e.nLastTry < 0 { return -6; }
    if e.nLastSuccess < 0 { return -8; }
    code := 0;
  }

  // --------------------------------------------------------------------- tried buckets

  ghost function Members(s: seq<int>): set<int> {
    set x | x in s
  }

  lemma {:induction false} FlatPrefix(vv: seq<seq<int>>, n: nat, p: nat)
    requires n < |vv| && p <= |vv[n]|
    ensures Flat(vv[..n]) + vv[n][..p] <= Flat(vv)
    decreases |vv|
  {
    var k := |vv| - 1;
    if n < k {
      FlatPrefix(vv[..k], n, p);
      assert vv[..k][..n] == vv[..n];
    } else {
      assert vv[..k] == vv[..n];
    }
  }

  /** An element met again, or not among the ids, fails the check. */
  lemma NotHeldOnce(vv: seq<seq<int>>, ids: set<int>, n: nat, p: nat)
    requires n < |vv| && p < |vv[n]|
    requires vv[n][p] !in ids - Members(Flat(vv[..n]) + vv[n][..p])
    ensures !HoldsOnce(vv, ids)
  {
    FlatPrefix(vv, n, p + 1);
    var done, x := Flat(vv[..n]) + vv[n][..p], vv[n][p];
    assert Flat(vv[..n]) + vv[n][..p + 1] == done + [x];
    assert Flat(vv)[|done|] == x;
    if x in done {
      var i :| 0 <= i < |done| && done[i] == x;
      assert Flat(vv)[i] == x;
    }
  }

  /** The state of the loop: the ids not met yet are left. */
  ghost predicate Met(done: seq<int>, ids: set<int>, left: set<int>) {
    Distinct(done) && Members(done) <= ids && left == ids - Members(done)
  }

  lemma MetOne(done: seq<int>, ids: set<int>, left: set<int>, x: int)
    requires Met(done, ids, left) && x in left
    ensures Met(done + [x], ids, left - {x})
  {
    assert Members(done + [x]) == Members(done) + {x};
    assert forall i :: 0 <= i < |done| ==> done[i] in done;
  }

  method CheckTried(vv: seq<seq<int>>, ids: set<int>) returns (code: int, left: set<int>)
    ensures code == 0 && left == {} <==> HoldsOnce(vv, ids)
  {
    code, left := 0, ids;
    assert Members([]) == {} && Flat(vv[..0]) == [];
    var n := 0;
    while n < |vv|
      invariant 0 <= n <= |vv| && Met(Flat(vv[..n]), ids, left)
    {
      code, left := CheckTriedBucket(vv, n, ids, left);
      if code != 0 {
        return;
      }
      assert vv[..n + 1][..n] == vv[..n] && vv[n][..|vv[n]|] == vv[n];
      n := n + 1;
    }
    assert vv[..n] == vv;
    MetAll(Flat(vv), ids, left);
    code := 0;
  }

  lemma MetAll(done: seq<int>, ids: set<int>, left: set<int>)
    requires Met(done, ids, left)
    ensures left == {} <==> forall x :: x in done <==> x in ids
  {
    if left == {} {
      forall x ensures x in done <==> x in ids {
        assert x in done <==> x in Members(done);
        assert x in ids ==> x in Members(done) || x in left;
      }
    }
    if forall x :: x in done <==> x in ids {
      forall x ensures x !in left {
        assert x in done <==> x in Members(done);
      }
    }
  }

  method CheckTriedBucket(vv: seq<seq<int>>, n: nat, ids: set<int>, before: set<int>)
    returns (code: int, left: set<int>)
    requires n < |vv| && Met(Flat(vv[..n]), ids, before)
    ensures code != 0 ==> !HoldsOnce(vv, ids)
    ensures code == 0 ==> Met(Flat(vv[..n]) + vv[n][..|vv[n]|], ids, left)
  {
    code, left := 0, before;
    var p := 0;
    assert Flat(vv[..n]) + vv[n][..0] == Flat(vv[..n]);
    while p < |vv[n]|
      invariant 0 <= p <= |vv[n]| && Met(Flat(vv[..n]) + vv[n][..p], ids, left)
    {
      if vv[n][p] !in left {
        NotHeldOnce(vv, ids, n, p);
        return -11, left;
      }
      MetOne(Flat(vv[..n]) + vv[n][..p], ids, left, vv[n][p]);
      assert Flat(vv[..n]) + vv[n][..p + 1] == Flat(vv[..n]) + vv[n][..p] + [vv[n][p]];
      left := left - {vv[n][p]};
      p := p + 1;
    }
  }

  // ----------------------------------------------------------------------- new buckets

  /** What is left of the counts when each id has been met `held` times. */
  ghost predicate CountedDown(refs: map<int, int>, left: map<int, int>, vv: seq<set<int>>, n: nat, front: set<int>)
    requires n <= |vv|
  {
    && (forall x :: x in left ==> x in refs)
    && (forall x :: x in refs ==> OneCountedDown(refs[x], LeftOf(left, x), x in left, Held(vv, n, front, x)))
    && (forall x :: Held(vv, n, front, x) > 0 ==> x in refs)
  }

  function LeftOf(left: map<int, int>, x: int): int {
    if x in left then left[x] else 0
  }

  ghost predicate OneCountedDown(all: int, left: int, isLeft: bool, held: nat) {
    left == all - held && (isLeft <==> left > 0) && left >= 0
  }

  ghost function Held(vv: seq<set<int>>, n: nat, front: set<int>, x: int): nat
    requires n <= |vv|
  {
    Holding(vv[..n], x) + if x in front then 1 else 0
  }

  lemma {:induction false} HeldBound(vv: seq<set<int>>, n: nat, x: int)
    requires n <= |vv|
    ensures Holding(vv[..n], x) <= Holding(vv, x)
    decreases |vv|
  {
    if n < |vv| {
      HeldBound(vv[..|vv| - 1], n, x);
      assert vv[..|vv| - 1][..n] == vv[..n];
    } else {
      assert vv[..n] == vv;
    }
  }

  /** An element whose count is used up, or that has none, fails the check. */
  lemma NotCounted(refs: map<int, int>, left: map<int, int>, vv: seq<set<int>>, n: nat, front: set<int>, x: int)
    requires n < |vv| && CountedDown(refs, left, vv, n, front) && x in vv[n] && x !in front && x !in left
    ensures !HoldsCounted(vv, refs)
  {
    if x in refs {
      HeldBound(vv, n + 1, x);
      assert vv[..n + 1][..n] == vv[..n];
      assert OneCountedDown(refs[x], 0, false, Held(vv, n, front, x));
    }
  }

  lemma CountOneDown(refs: map<int, int>, left: map<int, int>, vv: seq<set<int>>, n: nat, front: set<int>, x: int)
    requires n < |vv| && CountedDown(refs, left, vv, n, front) && x !in front && x in left
    ensures left[x] == 1 ==> CountedDown(refs, left - {x}, vv, n, front + {x})
    ensures left[x] != 1 ==> CountedDown(refs, left[x := left[x] - 1], vv, n, front + {x})
  {
    assert OneCountedDown(refs[x], left[x], true, Held(vv, n, front, x));
    forall y | y != x ensures Held(vv, n, front + {x}, y) == Held(vv, n, front, y) {
    }
    assert Held(vv, n, front + {x}, x) == Held(vv, n, front, x) + 1;
    hide Held;
  }

  lemma NextBucket(refs: map<int, int>, left: map<int, int>, vv: seq<set<int>>, n: nat)
    requires n < |vv| && CountedDown(refs, left, vv, n, vv[n])
    ensures CountedDown(refs, left, vv, n + 1, {})
  {
    forall x ensures Held(vv, n + 1, {}, x) == Held(vv, n, vv[n], x) {
      assert vv[..n + 1][..n] == vv[..n];
    }
    hide Held;
  }

  method CheckNewBucket(vv: seq<set<int>>, n: nat, refs: map<int, int>, before: map<int, int>)
    returns (code: int, left: map<int, int>)
    requires n < |vv| && CountedDown(refs, before, vv, n, {})
    ensures code != 0 ==> !HoldsCounted(vv, refs)
    ensures code == 0 ==> CountedDown(refs, left, vv, n + 1, {})
  {
    code, left := 0, before;
    var walk := InOrder(vv[n]);
    ghost var front: set<int> := {};
    var p := 0;
    hide CountedDown, HoldsCounted;
    while p < |walk|
      invariant 0 <= p <= |walk| && (forall x :: x in front <==> x in walk[..p]) &&
        CountedDown(refs, left, vv, n, front)
    {
      var x := walk[p];
      assert x in walk && walk[..p + 1] == walk[..p] + [x];
      if x !in left {
        NotCounted(refs, left, vv, n, front, x);
        return -12, left;
      }
      CountOneDown(refs, left, vv, n, front, x);
      if left[x] - 1 == 0 {
        left := left - {x};
      } else {
        left := left[x := left[x] - 1];
      }
      front := front + {x};
      p := p + 1;
    }
    assert walk[..p] == walk;
    assert forall x :: x in front <==> x in vv[n];
    assert front == vv[n];
    NextBucket(refs, left, vv, n);
  }

  method CheckNew(vv: seq<set<int>>, refs: map<int, int>) returns (code: int, left: map<int, int>)
    requires forall x :: x in refs ==> refs[x] >= 1
    ensures code == 0 && left == map[] <==> HoldsCounted(vv, refs)
  {
    code, left := 0, refs;
    NothingMet(refs, vv);
    var n := 0;
    while n < |vv|
      invariant 0 <= n <= |vv| && CountedDown(refs, left, vv, n, {})
    {
      code, left := CheckNewBucket(vv, n, refs, left);
      if code != 0 {
        return;
      }
      n := n + 1;
    }
    AllMet(refs, left, vv);
    code := 0;
  }

  lemma NothingMet(refs: map<int, int>, vv: seq<set<int>>)
    requires forall x :: x in refs ==> refs[x] >= 1
    ensures CountedDown(refs, refs, vv, 0, {})
  {
  }

  lemma AllMet(refs: map<int, int>, left: map<int, int>, vv: seq<set<int>>)
    requires CountedDown(refs, left, vv, |vv|, {})
    ensures left == map[] <==> HoldsCounted(vv, refs)
  {
    assert vv[..|vv|] == vv;
    forall x ensures Held(vv, |vv|, {}, x) == Holding(vv, x) {
    }
    forall b, x | 0 <= b < |vv| && x in vv[b] ensures x in refs {
      HoldingPast(vv, b, x);
      assert Held(vv, |vv|, {}, x) > 0;
    }
    if HoldsCounted(vv, refs) {
      forall x ensures x !in left {
        if x in refs {
          assert OneCountedDown(refs[x], LeftOf(left, x), x in left, Held(vv, |vv|, {}, x));
        }
      }
    }
    if left == map[] {
      forall x | x in refs ensures Holding(vv, x) == refs[x] {
        assert OneCountedDown(refs[x], 0, false, Held(vv, |vv|, {}, x));
      }
    }
  }

  // ------------------------------------------------------------------------ the check

  /** Check_ returns 0 exactly when the tables are as Checked says. */
  method Check(am: CAddrMan) returns (code: int)
    ensures code == 0 <==> Checked(am)
  {
    if |am.vRandom| != am.nTried + am.nNew {
      return -7;
    }
    var setTried, mapNew;
    code, setTried, mapNew := CheckEntries(am.mapInfo, am.mapAddr, am.vRandom);
    if code != 0 {
      return;
    }
    CountNew(am.mapInfo);
    if |setTried| != am.nTried {
      return -9;
    }
    if |mapNew| != am.nNew {
      return -10;
    }
    assert forall x :: x in mapNew ==> EntryChecked(am.mapInfo, am.mapAddr, am.vRandom, x);
    hide HoldsOnce, HoldsCounted;
    var tried, untried;
    code, tried := CheckTried(am.vvTried, setTried);
    if code != 0 {
      return;
    }
    code, untried := CheckNew(am.vvNew, mapNew);
    if code != 0 {
      return;
    }
    if |tried| != 0 {
      return -13;
    }
    if |untried| != 0 {
      return -15;
    }
    code := 0;
  }

  lemma CountNew(info: Infos)
    ensures |RefCounts(info)| == |NewIds(info)|
  {
    assert RefCounts(info).Keys == NewIds(info);
  }

  // -------------------------------------------------------- the invariant passes the check

  lemma {:induction false} FlatOfTried(vv: seq<seq<int>>)
    requires forall k, p, q :: 0 <= k < |vv| && 0 <= p < q < |vv[k]| ==> vv[k][p] != vv[k][q]
    requires forall j, k, p, q :: 0 <= j < k < |vv| && 0 <= p < |vv[j]| && 0 <= q < |vv[k]| ==> vv[j][p] != vv[k][q]
    ensures Distinct(Flat(vv)) && forall x :: x in Flat(vv) <==> exists k :: 0 <= k < |vv| && x in vv[k]
  {
    if vv != [] {
      var n := |vv| - 1;
      var front := vv[..n];
      FlatOfTried(front);
      forall x ensures x in Flat(vv) <==> exists k :: 0 <= k < |vv| && x in vv[k] {
        assert x in Flat(front) ==> exists k :: 0 <= k < n && x in vv[k] by {
          if x in Flat(front) {
            var k :| 0 <= k < |front| && x in front[k];
            assert x in vv[k];
          }
        }
        if k :| 0 <= k < |vv| && x in vv[k] {
          assert k < n ==> x in front[k];
        }
      }
      forall i, q | 0 <= i < |Flat(front)| && 0 <= q < |vv[n]| ensures Flat(front)[i] != vv[n][q] {
        var y := Flat(front)[i];
        assert y in Flat(front);
        var k :| 0 <= k < |front| && y in front[k];
        var p :| 0 <= p < |front[k]| && front[k][p] == y;
        assert vv[k][p] != vv[n][q];
      }
    }
  }

  lemma TriedHeldOnce(info: Infos, vv: seq<seq<int>>, bucket: Service -> nat)
    requires TriedOk(info, vv, bucket)
    ensures HoldsOnce(vv, TriedIds(info))
  {
    forall j, k, p, q | 0 <= j < k < |vv| && 0 <= p < |vv[j]| && 0 <= q < |vv[k]| ensures vv[j][p] != vv[k][q] {
      assert bucket(info[vv[j][p]].addr) == j && bucket(info[vv[k][q]].addr) == k;
    }
    FlatOfTried(vv);
    forall x ensures x in Flat(vv) <==> x in TriedIds(info) {
      if x in Flat(vv) {
        var k :| 0 <= k < |vv| && x in vv[k];
        var p :| 0 <= p < |vv[k]| && vv[k][p] == x;
      }
    }
  }

  /** Every state the operations reach passes the check. */
  lemma ValidPasses(am: CAddrMan)
    requires am.Valid()
    ensures Checked(am)
  {
    TriedHeldOnce(am.mapInfo, am.vvTried, am.TriedBucket);
    RandLength(am.mapInfo, am.vRandom);
    CountsAddUp(am.mapInfo, am.nTried, am.nNew);
    forall id | id in am.mapInfo ensures EntryChecked(am.mapInfo, am.mapAddr, am.vRandom, id) {
      assert RefOk(am.mapInfo[id], Holding(am.vvNew, id), id == -1);
    }
    NewHeldCounted(am.mapInfo, am.vvNew);
  }

  lemma NewHeldCounted(info: Infos, vv: seq<set<int>>)
    requires NewOk(info, vv, -1) && forall id :: id in info ==> id >= 0
    ensures HoldsCounted(vv, RefCounts(info))
  {
    forall x | x in RefCounts(info) ensures Holding(vv, x) == RefCounts(info)[x] {
      assert RefOk(info[x], Holding(vv, x), x == -1);
    }
  }
}
