/**
 The tables of the address manager as values (src/addrman.h), the invariant the debug
 check of src/addrman.cpp states, part by part, and how each elementary change keeps it.
 */
module AddrTables {
  const TRIED_BUCKET_COUNT: nat := 64
  const TRIED_BUCKET_SIZE: nat := 64
  const NEW_BUCKET_COUNT: nat := 256
  const NEW_BUCKET_SIZE: nat := 64
  const NEW_BUCKETS_PER_ADDRESS: nat := 4
  const HORIZON_DAYS: int := 30
  const RETRIES: int := 3
  const MAX_FAILURES: int := 10
  const MIN_FAIL_DAYS: int := 7

  type NetAddr = nat

  datatype Service = Service(ip: NetAddr, port: nat)

  /** CAddrInfo.  `nTime` is an unsigned 32-bit field. */
  datatype AddrInfo = AddrInfo(
    addr: Service, services: bv64, nTime: int, nLastTry: int, source: NetAddr,
    nLastSuccess: int, nAttempts: int, nRefCount: int, fInTried: bool, nRandomPos: int)
  {
    predicate IsTerrible(now: int) {
      if nLastTry != 0 && nLastTry >= now - 60 then false
      else if nTime > now + 10 * 60 then true
      else if nTime == 0 || now - nTime > HORIZON_DAYS * 86400 then true
      else if nLastSuccess == 0 && nAttempts >= RETRIES then true
      else now - nLastSuccess > MIN_FAIL_DAYS * 86400 && nAttempts >= MAX_FAILURES
    }
  }

  type Infos = map<int, AddrInfo>

  /** Seen in the last 30 days, and never failed three times: not terrible. */
  lemma SeenLatelyIsGood(e: AddrInfo, now: int)
    requires e.nTime != 0 && e.nTime <= now + 600 && now - e.nTime <= 2_592_000 && e.nAttempts <= 2
    ensures !e.IsTerrible(now)
  {
  }

  /** Tried in the last minute: never terrible. */
  lemma JustTriedIsGood(e: AddrInfo, now: int)
    requires e.nLastTry != 0 && now - e.nLastTry <= 60
    ensures !e.IsTerrible(now)
  {
  }

  /** Unseen for 30 days, from more than ten minutes ahead, or failing: three times without any
      success, or ten times and without one for a week. */
  lemma WhenTerrible(e: AddrInfo, now: int)
    requires e.nLastTry == 0 || now - e.nLastTry > 60
    ensures e.IsTerrible(now) <==>
      || e.nTime == 0 || now - e.nTime > 2_592_000 || e.nTime - now > 600
      || (e.nAttempts >= 3 && e.nLastSuccess == 0)
      || (e.nAttempts >= 10 && now - e.nLastSuccess > 604_800)
  {
  }

  /** Unless it is tried again a terrible entry stays so, when its time is not ahead. */
  lemma StaysTerrible(e: AddrInfo, now: int, later: int)
    requires e.IsTerrible(now) && now <= later && e.nTime <= now + 600
    ensures e.IsTerrible(later)
  {
  }

  // ------------------------------------------------------------ parts of the invariant

  /** mapAddr and mapInfo are inverse. */
  ghost predicate AddrOk(info: Infos, addrs: map<NetAddr, int>) {
    && (forall id :: id in info ==> info[id].addr.ip in addrs && addrs[info[id].addr.ip] == id)
    && (forall ip :: ip in addrs ==> addrs[ip] in info && info[addrs[ip]].addr.ip == ip)
  }

  /** vRandom and nRandomPos are inverse. */
  ghost predicate RandOk(info: Infos, rnd: seq<int>) {
    && (forall id :: id in info ==> 0 <= info[id].nRandomPos < |rnd| && rnd[info[id].nRandomPos] == id)
    && (forall p :: 0 <= p < |rnd| ==> rnd[p] in info && info[rnd[p]].nRandomPos == p)
  }

  /** How many buckets hold an id. */
  ghost function Holding(vv: seq<set<int>>, id: int): nat {
    if vv == [] then 0 else Holding(vv[..|vv| - 1], id) + if id in vv[|vv| - 1] then 1 else 0
  }

  /** New buckets hold known new entries; nRefCount counts them.  The entry `ahead`, if any,
      has been counted for a bucket it is about to enter. */
  ghost predicate NewOk(info: Infos, vv: seq<set<int>>, ahead: int) {
    && |vv| == NEW_BUCKET_COUNT
    && (forall b :: 0 <= b < |vv| ==> |vv[b]| <= NEW_BUCKET_SIZE)
    && (forall b, id :: 0 <= b < |vv| && id in vv[b] ==> id in info && !info[id].fInTried)
    && (forall id :: id in info ==> RefOk(info[id], Holding(vv, id), id == ahead))
  }

  ghost predicate RefOk(e: AddrInfo, held: nat, ahead: bool) {
    && e.nRefCount == held + (if ahead then 1 else 0)
    && (e.fInTried ==> e.nRefCount == 0)
    && (!e.fInTried ==> 1 <= e.nRefCount <= NEW_BUCKETS_PER_ADDRESS)
  }

  /** Tried buckets hold the tried entries, each once, in the bucket its address hashes to. */
  ghost predicate TriedOk(info: Infos, vv: seq<seq<int>>, bucket: Service -> nat) {
    && |vv| == TRIED_BUCKET_COUNT
    && (forall k :: 0 <= k < |vv| ==> |vv[k]| <= TRIED_BUCKET_SIZE)
    && (forall k, p :: 0 <= k < |vv| && 0 <= p < |vv[k]| ==>
          vv[k][p] in info && info[vv[k][p]].fInTried && bucket(info[vv[k][p]].addr) == k)
    && (forall k, p, q :: 0 <= k < |vv| && 0 <= p < q < |vv[k]| ==> vv[k][p] != vv[k][q])
    && (forall id :: id in info && info[id].fInTried ==>
      bucket(info[id].addr) < |vv| && id in vv[bucket(info[id].addr)])
  }

  ghost function TriedIds(info: Infos): set<int> {
    set id | id in info && info[id].fInTried
  }

  ghost function NewIds(info: Infos): set<int> {
    set id | id in info && !info[id].fInTried
  }

  ghost predicate CountsOk(info: Infos, nTried: int, nNew: int) {
    nTried == |TriedIds(info)| && nNew == |NewIds(info)|
  }

  ghost predicate FieldsOk(info: Infos, nIdCount: int) {
    && nIdCount >= 0
    && forall id :: id in info ==>
         0 <= id < nIdCount && info[id].nLastTry >= 0 && info[id].nLastSuccess >= 0 && info[id].nAttempts >= 0
         && (info[id].fInTried ==> info[id].nLastSuccess != 0)
  }

  // --------------------------------------------------------------- laws of the counters

  lemma {:induction false} HoldingUpdate(vv: seq<set<int>>, b: nat, s: set<int>, id: int)
    requires b < |vv|
    ensures Holding(vv[b := s], id) == Holding(vv, id) - (if id in vv[b] then 1 else 0) + (if id in s then 1 else 0)
  {
    var k := |vv| - 1;
    if b < k {
      assert vv[b := s][..k] == vv[..k][b := s];
      HoldingUpdate(vv[..k], b, s, id);
    } else {
      assert vv[b := s][..k] == vv[..k];
    }
  }

  lemma {:induction false} HoldingPositive(vv: seq<set<int>>, id: int)
    ensures Holding(vv, id) > 0 <==> exists b :: 0 <= b < |vv| && id in vv[b]
  {
    if vv != [] {
      var k := |vv| - 1;
      HoldingPositive(vv[..k], id);
      assert forall b :: 0 <= b < k ==> vv[..k][b] == vv[b];
    }
  }

  lemma {:induction false} HoldingPast(vv: seq<set<int>>, b: nat, id: int)
    requires b < |vv| && id in vv[b]
    ensures Holding(vv, id) >= 1
  {
    HoldingPositive(vv, id);
  }

  lemma TriedIdsUpdate(info: Infos, id: int, e: AddrInfo)
    ensures TriedIds(info[id := e]) == if e.fInTried then TriedIds(info) + {id} else TriedIds(info) - {id}
    ensures NewIds(info[id := e]) == if e.fInTried then NewIds(info) - {id} else NewIds(info) + {id}
  {
  }

  // One entry changes, but not its address, its place in vRandom or the table it is in.

  lemma AddrTouched(info: Infos, addrs: map<NetAddr, int>, id: int, e: AddrInfo)
    requires AddrOk(info, addrs) && id in info && e.addr == info[id].addr
    ensures AddrOk(info[id := e], addrs)
  {
  }

  lemma RandTouched(info: Infos, rnd: seq<int>, id: int, e: AddrInfo)
    requires RandOk(info, rnd) && id in info && e.nRandomPos == info[id].nRandomPos
    ensures RandOk(info[id := e], rnd)
  {
  }

  lemma TriedTouched(info: Infos, vv: seq<seq<int>>, bucket: Service -> nat, id: int, e: AddrInfo)
    requires TriedOk(info, vv, bucket) && id in info && e.addr == info[id].addr && e.fInTried == info[id].fInTried
    ensures TriedOk(info[id := e], vv, bucket)
  {
  }

  lemma CountsTouched(info: Infos, nTried: int, nNew: int, id: int, e: AddrInfo)
    requires CountsOk(info, nTried, nNew) && id in info && e.fInTried == info[id].fInTried
    ensures CountsOk(info[id := e], nTried, nNew)
  {
    assert TriedIds(info[id := e]) == TriedIds(info) && NewIds(info[id := e]) == NewIds(info);
  }

  lemma IdsRemove(info: Infos, id: int)
    ensures TriedIds(info - {id}) == TriedIds(info) - {id}
    ensures NewIds(info - {id}) == NewIds(info) - {id}
  {
  }

  // --------------------------------------------------- changes that keep the structure

  /** Apart from positions in vRandom nothing differs. */
  ghost predicate OnlyPositions(info: Infos, moved: Infos) {
    && info.Keys == moved.Keys
    && forall id {:trigger info[id]} {:trigger moved[id]} :: id in info ==>
      moved[id] == info[id].(nRandomPos := moved[id].nRandomPos)
  }

  /** What the tables depend on is the same; times and attempts may differ. */
  ghost predicate SameShape(info: Infos, later: Infos) {
    && info.Keys == later.Keys
    && forall id {:trigger info[id]} {:trigger later[id]} :: id in info ==>
         && later[id].addr == info[id].addr && later[id].nRefCount == info[id].nRefCount
         && later[id].fInTried == info[id].fInTried && later[id].source == info[id].source
  }

  lemma ShapeKeeps(info: Infos, later: Infos, addrs: map<NetAddr, int>, vvNew: seq<set<int>>, ahead: int,
                   vvTried: seq<seq<int>>, bucket: Service -> nat, nTried: int, nNew: int)
    requires SameShape(info, later)
    ensures AddrOk(info, addrs) ==> AddrOk(later, addrs)
    ensures NewOk(info, vvNew, ahead) ==> NewOk(later, vvNew, ahead)
    ensures TriedOk(info, vvTried, bucket) ==> TriedOk(later, vvTried, bucket)
    ensures CountsOk(info, nTried, nNew) ==> CountsOk(later, nTried, nNew)
  {
    forall id ensures id in info <==> id in later {
    }
    forall id | id in info ensures later[id].fInTried == info[id].fInTried && later[id].addr == info[id].addr {
    }
    forall id ensures id in TriedIds(info) <==> id in TriedIds(later) {
    }
    assert TriedIds(info) == TriedIds(later) && NewIds(info) == NewIds(later);
  }

  /** Every id sits at one position, so vRandom is as long as mapInfo is large. */
  lemma {:induction false} RandLength(info: Infos, rnd: seq<int>)
    requires RandOk(info, rnd)
    ensures |rnd| == |info|
    decreases |rnd|
  {
    if rnd != [] {
      var n := |rnd| - 1;
      var id := rnd[n];
      var less := info - {id};
      assert forall g :: g in less ==> info[g].nRandomPos != n;
      assert RandOk(less, rnd[..n]);
      RandLength(less, rnd[..n]);
      assert info.Keys == less.Keys + {id};
    } else {
      assert forall id :: id in info ==> |rnd| > 0;
      assert info == map[];
    }
  }

  /** Every entry is tried or new. */
  lemma CountsAddUp(info: Infos, nTried: int, nNew: int)
    requires CountsOk(info, nTried, nNew)
    ensures |info| == nTried + nNew
  {
    assert info.Keys == TriedIds(info) + NewIds(info) && TriedIds(info) !! NewIds(info);
  }

  // --------------------------------------------------------- changes of the new buckets

  function Dec(e: AddrInfo): AddrInfo {
    e.(nRefCount := e.nRefCount - 1)
  }

  function Inc(e: AddrInfo): AddrInfo {
    e.(nRefCount := e.nRefCount + 1)
  }

  /** One bucket lets go of an entry; without another bucket holding it the entry goes. */
  lemma NewDrop(info: Infos, vv: seq<set<int>>, ahead: int, b: nat, id: int)
    requires NewOk(info, vv, ahead) && b < |vv| && id in vv[b] && id != ahead
    ensures id in info && !info[id].fInTried && info[id].nRefCount >= 1
    ensures info[id].nRefCount == 1 ==> NewOk(info - {id}, vv[b := vv[b] - {id}], ahead)
    ensures info[id].nRefCount > 1 ==> NewOk(info[id := Dec(info[id])], vv[b := vv[b] - {id}], ahead)
  {
    var less := vv[b := vv[b] - {id}];
    HoldingPast(vv, b, id);
    forall g ensures Holding(less, g) == Holding(vv, g) - if g == id then 1 else 0 {
      HoldingUpdate(vv, b, vv[b] - {id}, g);
    }
    if info[id].nRefCount == 1 {
      HoldingPositive(less, id);
    }
  }

  /** A known new entry is counted for one more bucket. */
  lemma NewAhead(info: Infos, vv: seq<set<int>>, id: int)
    requires NewOk(info, vv, -1) && id in info && !info[id].fInTried && info[id].nRefCount < NEW_BUCKETS_PER_ADDRESS
    requires forall g :: g in info ==> g >= 0
    ensures NewOk(info[id := Inc(info[id])], vv, id)
  {
  }

  /** A new entry is created and counted for its first bucket. */
  lemma NewCreated(info: Infos, vv: seq<set<int>>, id: int, e: AddrInfo)
    requires NewOk(info, vv, -1) && id !in info && !e.fInTried && e.nRefCount == 1
    requires forall g :: g in info ==> g >= 0
    ensures NewOk(info[id := e], vv, id)
  {
    HoldingPositive(vv, id);
  }

  /** The counted entry enters its bucket. */
  lemma NewEnter(info: Infos, vv: seq<set<int>>, id: int, b: nat)
    requires NewOk(info, vv, id) && b < |vv| && id in info && id !in vv[b] && |vv[b]| < NEW_BUCKET_SIZE &&
      !info[id].fInTried
    requires forall g :: g in info ==> g >= 0
    ensures NewOk(info, vv[b := vv[b] + {id}], -1)
  {
    var more := vv[b := vv[b] + {id}];
    forall g ensures Holding(more, g) == Holding(vv, g) + if g == id then 1 else 0 {
      HoldingUpdate(vv, b, vv[b] + {id}, g);
    }
  }

  // --------------------------------------------------------- moves to the tried buckets

  /** The first k buckets have let go of an entry. */
  ghost function Without(vv: seq<set<int>>, id: int, k: nat): seq<set<int>>
    requires k <= |vv|
  {
    seq(|vv|, b requires 0 <= b < |vv| => if b < k then vv[b] - {id} else vv[b])
  }

  lemma WithoutStep(vv: seq<set<int>>, id: int, k: nat)
    requires k < |vv|
    ensures Without(vv, id, 0) == vv
    ensures Without(vv, id, k + 1) == Without(vv, id, k)[k := vv[k] - {id}]
    ensures Without(vv, id, k)[k] == vv[k]
    ensures id !in vv[k] ==> Without(vv, id, k + 1) == Without(vv, id, k)
  {
    assert id !in vv[k] ==> vv[k] - {id} == vv[k];
  }

  lemma {:induction false} HoldingWithout(vv: seq<set<int>>, id: int, g: int)
    ensures Holding(Without(vv, id, |vv|), g) == if g == id then 0 else Holding(vv, g)
  {
    if vv != [] {
      var k := |vv| - 1;
      HoldingWithout(vv[..k], id, g);
      assert Without(vv, id, |vv|)[..k] == Without(vv[..k], id, k);
    }
  }

  function Promoted(e: AddrInfo): AddrInfo {
    e.(nRefCount := 0, fInTried := true)
  }

  function Evicted(e: AddrInfo): AddrInfo {
    e.(nRefCount := 1, fInTried := false)
  }

  /** An entry leaves every new bucket and becomes a tried one. */
  lemma NewPromote(info: Infos, vv: seq<set<int>>, id: int)
    requires NewOk(info, vv, -1) && id in info && id >= 0
    ensures NewOk(info[id := Promoted(info[id])], Without(vv, id, |vv|), -1)
  {
    var less := Without(vv, id, |vv|);
    forall g ensures Holding(less, g) == if g == id then 0 else Holding(vv, g) {
      HoldingWithout(vv, id, g);
    }
    forall b | 0 <= b < |vv| ensures |less[b]| <= |vv[b]| {
      if id in vv[b] {
        assert vv[b] == less[b] + {id};
      } else {
        assert vv[b] == less[b];
      }
    }
  }

  /** A tried entry goes back to one new bucket. */
  lemma NewEvict(info: Infos, vv: seq<set<int>>, id: int, b: nat)
    requires NewOk(info, vv, -1) && id in info && info[id].fInTried && b < |vv| && |vv[b]| < NEW_BUCKET_SIZE && id >= 0
    ensures NewOk(info[id := Evicted(info[id])], vv[b := vv[b] + {id}], -1)
  {
    var more := vv[b := vv[b] + {id}];
    assert id !in vv[b];
    forall g ensures Holding(more, g) == Holding(vv, g) + if g == id then 1 else 0 {
      HoldingUpdate(vv, b, vv[b] + {id}, g);
    }
  }

  /** A promoted entry is appended to the bucket its address hashes to. */
  lemma TriedAppend(info: Infos, vv: seq<seq<int>>, bucket: Service -> nat, id: int, k: nat)
    requires TriedOk(info, vv, bucket) && id in info && !info[id].fInTried
    requires k == bucket(info[id].addr) && k < |vv| && |vv[k]| < TRIED_BUCKET_SIZE
    ensures TriedOk(info[id := Promoted(info[id])], vv[k := vv[k] + [id]], bucket)
  {
    var i2, v2 := info[id := Promoted(info[id])], vv[k := vv[k] + [id]];
    forall j, p | 0 <= j < |v2| && 0 <= p < |v2[j]|
      ensures v2[j][p] in i2 && i2[v2[j][p]].fInTried && bucket(i2[v2[j][p]].addr) == j
    {
      if j != k || p < |vv[k]| {
        assert v2[j][p] == vv[j][p];
      }
    }
    forall g | g in i2 && i2[g].fInTried ensures bucket(i2[g].addr) < |v2| && g in v2[bucket(i2[g].addr)] {
      if g == id {
        assert v2[k][|vv[k]|] == id;
      } else {
        assert g in vv[bucket(info[g].addr)];
      }
    }
  }

  /** A bucket in another order is as good. */
  ghost predicate Permuted(a: seq<int>, b: seq<int>) {
    |a| == |b| && multiset(a) == multiset(b)
  }

  lemma NoDuplicates(a: seq<int>, b: seq<int>)
    requires Permuted(a, b) && forall p, q :: 0 <= p < q < |a| ==> a[p] != a[q]
    ensures forall p, q :: 0 <= p < q < |b| ==> b[p] != b[q]
    ensures forall x :: x in a <==> x in b
  {
    forall x ensures x in a <==> x in b {
      assert x in a <==> x in multiset(a);
      assert x in b <==> x in multiset(b);
    }
    forall p, q | 0 <= p < q < |b| ensures b[p] != b[q] {
      if b[p] == b[q] {
        TwiceCounts(b, p, q);
        OnceCounts(a, b[p]);
      }
    }
  }

  lemma TwiceCounts(b: seq<int>, p: nat, q: nat)
    requires p < q < |b| && b[p] == b[q]
    ensures multiset(b)[b[p]] >= 2
  {
    assert b == b[..q] + [b[q]] + b[q + 1..];
    assert b[p] in b[..q];
  }

  lemma {:induction false} OnceCounts(a: seq<int>, x: int)
    requires forall p, q :: 0 <= p < q < |a| ==> a[p] != a[q]
    ensures multiset(a)[x] <= 1
  {
    if a != [] {
      var n := |a| - 1;
      OnceCounts(a[..n], x);
      assert a == a[..n] + [a[n]];
      if a[n] == x {
        assert x !in a[..n];
      }
    }
  }

  lemma TriedPermute(info: Infos, vv: seq<seq<int>>, bucket: Service -> nat, k: nat, s: seq<int>)
    requires TriedOk(info, vv, bucket) && k < |vv| && Permuted(vv[k], s)
    ensures TriedOk(info, vv[k := s], bucket)
  {
    NoDuplicates(vv[k], s);
    var v2 := vv[k := s];
    forall j, p | 0 <= j < |v2| && 0 <= p < |v2[j]|
      ensures v2[j][p] in info && info[v2[j][p]].fInTried && bucket(info[v2[j][p]].addr) == j
    {
      assert j == k ==> s[p] in s;
      assert v2[j][p] in vv[j];
    }
  }

  /** A promoted entry takes the place of an evicted one of its bucket. */
  lemma TriedReplace(info: Infos, vv: seq<seq<int>>, bucket: Service -> nat, id: int, k: nat, pos: nat)
    requires TriedOk(info, vv, bucket) && id in info && !info[id].fInTried
    requires k == bucket(info[id].addr) && k < |vv| && pos < |vv[k]|
    ensures vv[k][pos] in info && vv[k][pos] != id && info[vv[k][pos]].fInTried
    ensures TriedOk(info[id := Promoted(info[id])][vv[k][pos] := Evicted(info[vv[k][pos]])],
                    vv[k := vv[k][pos := id]], bucket)
  {
    var out := vv[k][pos];
    var i2, v2 := info[id := Promoted(info[id])][out := Evicted(info[out])], vv[k := vv[k][pos := id]];
    forall j, p | 0 <= j < |v2| && 0 <= p < |v2[j]|
      ensures v2[j][p] in i2 && i2[v2[j][p]].fInTried && bucket(i2[v2[j][p]].addr) == j
    {
      if !(j == k && p == pos) {
        assert v2[j][p] == vv[j][p];
        assert j != k ==> bucket(info[vv[j][p]].addr) != bucket(info[out].addr);
      }
    }
    forall g | g in i2 && i2[g].fInTried ensures bucket(i2[g].addr) < |v2| && g in v2[bucket(i2[g].addr)] {
      if g == id {
        assert v2[k][pos] == id;
      } else {
        var j := bucket(info[g].addr);
        var p :| 0 <= p < |vv[j]| && vv[j][p] == g;
        assert v2[j][p] == g;
      }
    }
  }

  /** One entry promoted and one evicted leave both counters as they were. */
  lemma CountsSwap(info: Infos, id: int, out: int, nTried: int, nNew: int)
    requires CountsOk(info, nTried, nNew) && id in info && !info[id].fInTried && out in info && info[out].fInTried
    ensures CountsOk(info[id := Promoted(info[id])][out := Evicted(info[out])], nTried, nNew)
  {
    var promoted := info[id := Promoted(info[id])];
    TriedIdsUpdate(info, id, Promoted(info[id]));
    TriedIdsUpdate(promoted, out, Evicted(info[out]));
  }

  lemma CountsDrop(info: Infos, id: int, nTried: int, nNew: int)
    requires CountsOk(info, nTried, nNew) && id in info && !info[id].fInTried
    ensures CountsOk(info - {id}, nTried, nNew - 1) && CountsOk(info[id := Dec(info[id])], nTried, nNew)
  {
    TriedIdsUpdate(info, id, Dec(info[id]));
    IdsRemove(info, id);
    assert id in NewIds(info) && id !in TriedIds(info);
  }
}
