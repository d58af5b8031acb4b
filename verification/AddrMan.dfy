/** The address manager (CAddrMan in src/addrman.h and src/addrman.cpp). */
module AddrMan {
  import opened Numbers
  import opened AddrTables
  import opened Walk
  import opened Shuffle

  const GETADDR_MAX_PCT: nat := 23
  const GETADDR_MAX: nat := 2500
  const TRIED_ENTRIES_INSPECT_ON_EVICT: nat := 4

  function U32(x: int): int {
    x % 0x1_0000_0000
  }

  function Max0(x: int): (m: nat) {
    if x < 0 then 0 else x
  }

  /** The address as it comes from a peer. */
  datatype Address = Address(addr: Service, services: bv64, nTime: int)

  /** The entry is known and not terrible. */
  ghost predicate Sound(info: Infos, id: int, now: int) {
    id in info && !info[id].IsTerrible(now)
  }

  // ------------------------------------------------------------ who has to make room

  /** An entry without one of its references, or none at the last one. */
  ghost function Dropped(info: Infos, id: int): Infos {
    if id !in info then info
    else if info[id].nRefCount == 1 then info - {id}
    else info[id := Dec(info[id])]
  }

  ghost predicate AnyTerrible(info: Infos, bucket: set<int>, now: int) {
    exists id :: id in bucket && id in info && info[id].IsTerrible(now)
  }

  /** The entry of a bucket that the j-th random number picks. */
  ghost function Picked(bucket: set<int>, draws: Draws, j: nat): int {
    var order := Ascent(bucket);
    if order == [] then 0 else order[draws(j) % |order|]
  }

  /** Seen longer ago, or at the same time and with a lower id. */
  ghost predicate Older(info: Infos, a: int, b: int) {
    a in info && b in info &&
    (info[a].nTime < info[b].nTime || (info[a].nTime == info[b].nTime && a <= b))
  }

  /** The entry that leaves a full new bucket: the terrible one with the least id, or else, of
      four picked at random, the one seen longest ago. */
  ghost predicate Victim(info: Infos, bucket: set<int>, draws: Draws, now: int, id: int) {
    && id in bucket && id in info
    && (AnyTerrible(info, bucket, now) ==>
          info[id].IsTerrible(now) && forall g :: g in bucket && g < id ==> Sound(info, g, now))
    && (!AnyTerrible(info, bucket, now) ==>
          && (id == Picked(bucket, draws, 0) || id == Picked(bucket, draws, 1)
              || id == Picked(bucket, draws, 2) || id == Picked(bucket, draws, 3))
          && Older(info, id, Picked(bucket, draws, 0)) && Older(info, id, Picked(bucket, draws, 1))
          && Older(info, id, Picked(bucket, draws, 2)) && Older(info, id, Picked(bucket, draws, 3)))
  }

  /** The tables `more`, `now` are those with the counted entry `id` in bucket b; from a full
      one the victim has gone, and positions in vRandom aside nothing else has changed. */
  ghost predicate Entered(info: Infos, vv: seq<set<int>>, id: int, b: nat, draws: Draws, time: int, victim: int,
                          more: Infos, now: seq<set<int>>)
    requires b < |vv|
  {
    if |vv[b]| < NEW_BUCKET_SIZE then more == info && now == vv[b := vv[b] + {id}]
    else
      && Victim(info, vv[b], draws, time, victim) && victim != id
      && OnlyPositions(Dropped(info, victim), more) && now == vv[b := vv[b] - {victim} + {id}]
  }

  /** When a tried entry last succeeded. */
  ghost function LastSuccess(info: Infos, id: int): int {
    if id in info then info[id].nLastSuccess else 0
  }

  /** How many of a tried bucket are drawn. */
  function Inspected(v: seq<int>): (n: nat)
    ensures n <= |v| && (v != [] ==> n > 0)
  {
    if |v| < 4 then |v| else 4
  }

  /** The step, of the first n, that dealt the entry with the earliest success; the first such. */
  ghost function EarliestStep(info: Infos, v: seq<int>, draws: Draws, n: nat): (m: nat)
    requires 0 < n <= |v|
    ensures m < n
  {
    if n == 1 then 0
    else
      var m := EarliestStep(info, v, draws, n - 1);
      if LastSuccess(info, Dealt(v, draws, n - 1)) < LastSuccess(info, Dealt(v, draws, m)) then n - 1 else m
  }

  lemma {:induction false} EarliestIsLeast(info: Infos, v: seq<int>, draws: Draws, n: nat, j: nat)
    requires j < n <= |v|
    ensures var m := EarliestStep(info, v, draws, n);
      && LastSuccess(info, Dealt(v, draws, m)) <= LastSuccess(info, Dealt(v, draws, j))
      && (j < m ==> LastSuccess(info, Dealt(v, draws, m)) < LastSuccess(info, Dealt(v, draws, j)))
  {
    if j < n - 1 {
      EarliestIsLeast(info, v, draws, n - 1, j);
    } else if n > 1 {
      EarliestIsLeast(info, v, draws, n - 1, EarliestStep(info, v, draws, n - 1));
    }
  }

  lemma {:induction false} SameEarliest(info: Infos, other: Infos, v: seq<int>, draws: Draws, n: nat)
    requires 0 < n <= |v| && forall id :: LastSuccess(info, id) == LastSuccess(other, id)
    ensures EarliestStep(info, v, draws, n) == EarliestStep(other, v, draws, n)
  {
    if n > 1 {
      SameEarliest(info, other, v, draws, n - 1);
    }
  }

  /** The place in a full tried bucket that SelectTried returns, and what lies there then. */
  ghost function GivenUp(info: Infos, v: seq<int>, draws: Draws): (p: nat)
    requires v != []
    ensures p < |v|
  {
    Place(|v|, draws, EarliestStep(info, v, draws, Inspected(v)))
  }

  ghost function Outgoing(info: Infos, v: seq<int>, draws: Draws): int
    requires v != []
  {
    Shuffled(v, draws, Inspected(v))[GivenUp(info, v, draws)]
  }

  lemma SameGivenUp(info: Infos, other: Infos, v: seq<int>, draws: Draws)
    requires v != [] && forall id :: LastSuccess(info, id) == LastSuccess(other, id)
    ensures GivenUp(info, v, draws) == GivenUp(other, v, draws)
    ensures Outgoing(info, v, draws) == Shuffled(v, draws, Inspected(v))[GivenUp(info, v, draws)]
  {
    SameEarliest(info, other, v, draws, Inspected(v));
  }

  /** The entry that a full tried bucket gives up is the one with the earliest success of those
      drawn exactly when that one was drawn in the place it had. */
  lemma OutgoingIsEarliest(info: Infos, v: seq<int>, draws: Draws)
    requires v != [] && NoTwice(v)
    ensures var m := EarliestStep(info, v, draws, Inspected(v));
      Outgoing(info, v, draws) == Dealt(v, draws, m) <==> draws(m) % (|v| - m) == 0
  {
    InPlace(v, draws, EarliestStep(info, v, draws, Inspected(v)), Inspected(v));
  }

  /** So a full bucket can give up another entry than the earliest: the second one is drawn
      first and has the earliest success, and the first one goes. */
  lemma AnotherGivenUp(info: Infos, v: seq<int>, draws: Draws)
    requires |v| >= 4 && draws(0) % |v| == 1
    requires draws(1) % (|v| - 1) == draws(2) % (|v| - 2) == draws(3) % (|v| - 3) == 0
    requires forall i :: 0 <= i < 4 && i != 1 ==> LastSuccess(info, v[1]) < LastSuccess(info, v[i])
    ensures Outgoing(info, v, draws) == v[0]
  {
    var w := Swapped(v, 0, 1);
    assert Shuffled(v, draws, 0) == v && Shuffled(v, draws, 1) == w;
    assert Shuffled(v, draws, 2) == w && Shuffled(v, draws, 3) == w && Shuffled(v, draws, 4) == w;
    assert EarliestStep(info, v, draws, 1) == 0 && EarliestStep(info, v, draws, 2) == 0;
    assert EarliestStep(info, v, draws, 3) == 0 && EarliestStep(info, v, draws, 4) == 0;
  }

  class CAddrMan {
    /** Hashes of an address, and of an address with its source, under the secret key. */
    const triedHash: Service -> nat
    const newHash: (Service, NetAddr) -> nat
    var nIdCount: int
    var mapInfo: Infos
    var mapAddr: map<NetAddr, int>
    var vRandom: seq<int>
    var nTried: int
    var vvTried: seq<seq<int>>
    var nNew: int
    var vvNew: seq<set<int>>

    constructor (triedHash: Service -> nat, newHash: (Service, NetAddr) -> nat)
      ensures this.triedHash == triedHash && this.newHash == newHash
      ensures Valid() && mapInfo == map[]
    {
      this.triedHash, this.newHash := triedHash, newHash;
      nIdCount, mapInfo, mapAddr, vRandom, nTried, nNew := 0, map[], map[], [], 0, 0;
      vvTried := seq(TRIED_BUCKET_COUNT, _ => []);
      vvNew := seq(NEW_BUCKET_COUNT, _ => {});
      new;
      assert TriedIds(mapInfo) == {} && NewIds(mapInfo) == {};
    }

    function TriedBucket(a: Service): (b: nat)
      ensures b < TRIED_BUCKET_COUNT
    {
      triedHash(a) % TRIED_BUCKET_COUNT
    }

    function NewBucket(a: Service, source: NetAddr): (b: nat)
      ensures b < NEW_BUCKET_COUNT
    {
      newHash(a, source) % NEW_BUCKET_COUNT
    }

    /** The invariant, with the entry `ahead` counted for a bucket it is about to enter. */
    ghost predicate Inv(ahead: int)
      reads this
    {
      && AddrOk(mapInfo, mapAddr) && RandOk(mapInfo, vRandom) && FieldsOk(mapInfo, nIdCount)
      && NewOk(mapInfo, vvNew, ahead) && TriedOk(mapInfo, vvTried, TriedBucket)
      && CountsOk(mapInfo, nTried, nNew)
    }

    ghost predicate Valid()
      reads this
    {
      Inv(-1)
    }

    method Find(ip: NetAddr) returns (found: bool, nId: int)
      requires AddrOk(mapInfo, mapAddr)
      ensures found <==> ip in mapAddr
      ensures found ==> nId in mapInfo && nId == mapAddr[ip] && mapInfo[nId].addr.ip == ip
    {
      found := ip in mapAddr;
      nId := if found then mapAddr[ip] else -1;
    }

    // ------------------------------------------------------------------- vRandom

    method SwapRandom(p1: nat, p2: nat)
      requires RandOk(mapInfo, vRandom) && p1 < |vRandom| && p2 < |vRandom|
      modifies this`mapInfo, this`vRandom
      ensures RandOk(mapInfo, vRandom) && OnlyPositions(old(mapInfo), mapInfo)
      ensures vRandom == old(vRandom)[p1 := old(vRandom)[p2]][p2 := old(vRandom)[p1]]
    {
      if p1 == p2 {
        return;
      }
      var id1, id2 := vRandom[p1], vRandom[p2];
      mapInfo := mapInfo[id1 := mapInfo[id1].(nRandomPos := p2)];
      mapInfo := mapInfo[id2 := mapInfo[id2].(nRandomPos := p1)];
      vRandom := vRandom[p1 := id2];
      vRandom := vRandom[p2 := id1];
    }

    /** Takes an entry out of mapInfo, mapAddr and vRandom: it is swapped to the end first. */
    method EraseEntry(nId: int)
      requires RandOk(mapInfo, vRandom) && AddrOk(mapInfo, mapAddr) && nId in mapInfo
      modifies this`mapInfo, this`vRandom, this`mapAddr
      ensures RandOk(mapInfo, vRandom) && AddrOk(mapInfo, mapAddr)
      ensures OnlyPositions(old(mapInfo) - {nId}, mapInfo)
    {
      ghost var before := mapInfo;
      SwapRandom(mapInfo[nId].nRandomPos, |vRandom| - 1);
      ghost var swapped := mapInfo;
      vRandom := vRandom[..|vRandom| - 1];
      mapAddr := mapAddr - {mapInfo[nId].addr.ip};
      mapInfo := mapInfo - {nId};
      forall id | id in mapInfo ensures mapInfo[id] == before[id].(nRandomPos := mapInfo[id].nRandomPos) {
        assert swapped[id] == before[id].(nRandomPos := swapped[id].nRandomPos);
      }
    }

    // ---------------------------------------------------------------- new buckets

    /** A new bucket lets go of an entry, which is deleted when no bucket holds it any more. */
    method DropFromBucket(b: nat, nId: int, ghost ahead: int)
      requires Inv(ahead) && b < |vvNew| && nId in vvNew[b] && nId != ahead
      modifies this`mapInfo, this`vRandom, this`mapAddr, this`nNew, this`vvNew
      ensures Inv(ahead) && vvNew == old(vvNew)[b := old(vvNew)[b] - {nId}]
      ensures nId in old(mapInfo) && OnlyPositions(Dropped(old(mapInfo), nId), mapInfo)
    {
      ghost var info := mapInfo;
      NewDrop(info, vvNew, ahead, b, nId);
      CountsDrop(info, nId, nTried, nNew);
      DropKeeps(info, nId);
      DecKeeps(info, nId);
      ghost var left := Dropped(info, nId);
      hide NewOk, TriedOk, FieldsOk, CountsOk, AddrOk, RandOk, OnlyPositions;
      CountDown(nId);
      vvNew := vvNew[b := vvNew[b] - {nId}];
      PositionsKeep(left, vvNew, ahead, nTried, nNew);
    }

    /** One reference less; at none the entry is deleted. */
    method CountDown(nId: int)
      requires RandOk(mapInfo, vRandom) && AddrOk(mapInfo, mapAddr) && nId in mapInfo
      modifies this`mapInfo, this`vRandom, this`mapAddr, this`nNew
      ensures RandOk(mapInfo, vRandom) && AddrOk(mapInfo, mapAddr)
      ensures OnlyPositions(Dropped(old(mapInfo), nId), mapInfo)
      ensures nNew == old(nNew) - if old(mapInfo)[nId].nRefCount == 1 then 1 else 0
    {
      ghost var info := mapInfo;
      DecKeeps(info, nId);
      mapInfo := mapInfo[nId := Dec(mapInfo[nId])];
      if mapInfo[nId].nRefCount == 0 {
        assert mapInfo - {nId} == info - {nId};
        EraseEntry(nId);
        nNew := nNew - 1;
      }
    }

    lemma SamePositions(info: Infos)
      ensures OnlyPositions(info, info)
    {
    }

    /** Without a new entry the tried buckets and the recorded times are as good. */
    lemma DropKeeps(info: Infos, nId: int)
      requires nId in info && !info[nId].fInTried
      ensures TriedOk(info, vvTried, TriedBucket) ==> TriedOk(info - {nId}, vvTried, TriedBucket)
      ensures FieldsOk(info, nIdCount) ==> FieldsOk(info - {nId}, nIdCount)
    {
    }

    lemma DecKeeps(info: Infos, nId: int)
      requires nId in info
      ensures var less := info[nId := Dec(info[nId])];
        && (AddrOk(info, mapAddr) ==> AddrOk(less, mapAddr))
        && (RandOk(info, vRandom) ==> RandOk(less, vRandom))
        && (TriedOk(info, vvTried, TriedBucket) ==> TriedOk(less, vvTried, TriedBucket))
        && (FieldsOk(info, nIdCount) ==> FieldsOk(less, nIdCount))
    {
    }

    /** Moving entries about in vRandom changes none of the other tables. */
    lemma PositionsKeep(info: Infos, vv: seq<set<int>>, ahead: int, tried: int, untried: int)
      requires OnlyPositions(info, mapInfo)
      ensures NewOk(info, vv, ahead) ==> NewOk(mapInfo, vv, ahead)
      ensures TriedOk(info, vvTried, TriedBucket) ==> TriedOk(mapInfo, vvTried, TriedBucket)
      ensures FieldsOk(info, nIdCount) ==> FieldsOk(mapInfo, nIdCount)
      ensures CountsOk(info, tried, untried) ==> CountsOk(mapInfo, tried, untried)
      ensures AddrOk(info, mapAddr) ==> AddrOk(mapInfo, mapAddr)
    {
      forall id ensures id in info <==> id in mapInfo {
      }
      ShapeKeeps(info, mapInfo, mapAddr, vv, ahead, vvTried, TriedBucket, tried, untried);
    }

    /** The selection loop of ShrinkNew: the one seen longest ago of those at four positions. */
    method PickOldest(order: seq<int>, n: seq<nat>) returns (nOldest: int)
      requires order != [] && n != [] && forall j :: 0 <= j < |n| ==> n[j] < |order|
      requires Ascending(order) && forall i :: 0 <= i < |order| ==> order[i] in mapInfo && order[i] >= 0
      ensures exists k :: 0 <= k < |n| && order[n[k]] == nOldest
      ensures forall j :: 0 <= j < |n| ==> Older(mapInfo, nOldest, order[n[j]])
    {
      nOldest := -1;
      ghost var at := 0;
      var nI := 0;
      while nI < |order|
        invariant 0 <= nI <= |order|
        invariant nOldest == -1 ==> forall j :: 0 <= j < |n| ==> n[j] >= nI
        invariant nOldest != -1 ==> 0 <= at < |n| && n[at] < nI && order[n[at]] == nOldest && nOldest in mapInfo
        invariant nOldest != -1 ==> forall j :: 0 <= j < |n| && n[j] < nI ==> Older(mapInfo, nOldest, order[n[j]])
      {
        if exists k :: 0 <= k < |n| && n[k] == nI {
          if nOldest == -1 || mapInfo[order[nI]].nTime < mapInfo[nOldest].nTime {
            nOldest := order[nI];
            at :| 0 <= at < |n| && n[at] == nI;
          }
        }
        nI := nI + 1;
      }
      assert n[0] < |order|;
    }

    /** ShrinkNew: removes the first terrible entry, or else the one seen longest ago of four
        picked at random. */
    method ShrinkNew(b: nat, now: int, draws: Draws, ghost ahead: int) returns (code: int, ghost victim: int)
      requires Inv(ahead) && b < |vvNew| && vvNew[b] != {} && ahead !in vvNew[b]
      modifies this`mapInfo, this`vRandom, this`mapAddr, this`nNew, this`vvNew
      ensures Inv(ahead) && Victim(old(mapInfo), old(vvNew)[b], draws, now, victim)
      ensures vvNew == old(vvNew)[b := old(vvNew)[b] - {victim}]
      ensures OnlyPositions(Dropped(old(mapInfo), victim), mapInfo)
      ensures code == if AnyTerrible(old(mapInfo), old(vvNew)[b], now) then 0 else 1
    {
      var walk := InOrder(vvNew[b]);
      OneAscent(walk, vvNew[b]);
      var i := 0;
      while i < |walk|
        invariant 0 <= i <= |walk|
        invariant forall j :: 0 <= j < i ==> walk[j] in mapInfo && !mapInfo[walk[j]].IsTerrible(now)
      {
        assert walk[i] in walk;
        if mapInfo[walk[i]].IsTerrible(now) {
          victim := walk[i];
          FirstTerrible(mapInfo, vvNew[b], walk, i, draws, now);
          DropFromBucket(b, walk[i], ahead);
          return 0, victim;
        }
        i := i + 1;
      }
      forall j | 0 <= j < |walk| ensures walk[j] in mapInfo && walk[j] >= 0 {
        assert walk[j] in walk;
      }
      var n := FourPlaces(|walk|, draws);
      var nOldest := PickOldest(walk, n);
      victim := nOldest;
      assert nOldest in walk;
      OldestPicked(mapInfo, vvNew[b], walk, draws, now, n, nOldest);
      DropFromBucket(b, nOldest, ahead);
      code := 1;
    }

    static lemma FirstTerrible(info: Infos, bucket: set<int>, walk: seq<int>, i: nat, draws: Draws, now: int)
      requires Lists(walk, bucket) && i < |walk| && walk[i] in info && info[walk[i]].IsTerrible(now)
      requires forall j :: 0 <= j < i ==> walk[j] in info && !info[walk[j]].IsTerrible(now)
      ensures AnyTerrible(info, bucket, now) && Victim(info, bucket, draws, now, walk[i])
    {
      assert walk[i] in walk;
      forall g | g in bucket && g < walk[i] ensures Sound(info, g, now) {
        assert g in walk;
      }
    }

    static lemma OldestPicked(info: Infos, bucket: set<int>, walk: seq<int>, draws: Draws, now: int, n: seq<nat>,
                              id: int)
      requires Lists(walk, bucket) && walk == Ascent(bucket) && walk != [] && n == FourPlaces(|walk|, draws)
      requires forall j :: 0 <= j < |walk| ==> walk[j] in info && !info[walk[j]].IsTerrible(now)
      requires exists k :: 0 <= k < |n| && walk[n[k]] == id
      requires forall j :: 0 <= j < |n| ==> Older(info, id, walk[n[j]])
      ensures !AnyTerrible(info, bucket, now) && Victim(info, bucket, draws, now, id)
    {
      assert forall j :: 0 <= j < 4 ==> walk[n[j]] == Picked(bucket, draws, j);
      assert id in walk;
    }

    /** Four random positions; one may come twice. */
    static function FourPlaces(size: nat, draws: Draws): (n: seq<nat>)
      requires size > 0
      ensures |n| == 4 && forall j :: 0 <= j < 4 ==> n[j] < size && n[j] == draws(j) % size
    {
      [draws(0) % size, draws(1) % size, draws(2) % size, draws(3) % size]
    }

    // --------------------------------------------------------------- tried buckets

    /** The loop of SelectTried, on the bucket it shuffles. */
    method ShuffleFront(v: seq<int>, draws: Draws) returns (w: seq<int>, nOldestPos: int)
      requires v != [] && forall p :: 0 <= p < |v| ==> v[p] in mapInfo && v[p] >= 0
      ensures w == Shuffled(v, draws, Inspected(v)) && nOldestPos == GivenUp(mapInfo, v, draws)
      ensures Permuted(v, w)
    {
      hide Shuffled, Dealt, EarliestStep, Place, Permuted;
      var nOldest := -1;
      w, nOldestPos := v, -1;
      NothingDealt(v, draws);
      var i := 0;
      while i < TRIED_ENTRIES_INSPECT_ON_EVICT && i < |w|
        invariant 0 <= i <= Inspected(v) && |w| == |v| && w == Shuffled(v, draws, i)
        invariant forall p :: 0 <= p < |w| ==> w[p] in mapInfo && w[p] >= 0
        invariant i > 0 ==>
          var m := EarliestStep(mapInfo, v, draws, i);
          nOldest == Dealt(v, draws, m) && nOldest in mapInfo && nOldestPos == Place(|v|, draws, m)
        invariant i > 0 <==> nOldest != -1
      {
        var nPos := draws(i) % (|w| - i) + i;
        var nTemp := w[nPos];
        DealNext(mapInfo, v, draws, i, w, nPos);
        w := w[nPos := w[i]][i := nTemp];
        if nOldest == -1 || mapInfo[nTemp].nLastSuccess < mapInfo[nOldest].nLastSuccess {
          nOldest := nTemp;
          nOldestPos := nPos;
        }
        i := i + 1;
      }
      SamePermuted(v, draws, i);
    }

    static lemma SamePermuted(v: seq<int>, draws: Draws, n: nat)
      requires n <= |v|
      ensures Permuted(v, Shuffled(v, draws, n))
    {
      ShuffledKeeps(v, draws, n);
    }

    static lemma NothingDealt(v: seq<int>, draws: Draws)
      ensures Shuffled(v, draws, 0) == v
    {
    }

    static lemma DealNext(info: Infos, v: seq<int>, draws: Draws, i: nat, w: seq<int>, p: nat)
      requires i < |v| == |w| && w == Shuffled(v, draws, i) && p == draws(i) % (|w| - i) + i
      ensures p < |w| && w[p := w[i]][i := w[p]] == Shuffled(v, draws, i + 1)
      ensures w[p] == Dealt(v, draws, i) && p == Place(|v|, draws, i)
      ensures EarliestStep(info, v, draws, i + 1) ==
        if i == 0 then 0
        else if LastSuccess(info, w[p]) < LastSuccess(info, Dealt(v, draws, EarliestStep(info, v, draws, i))) then i
        else EarliestStep(info, v, draws, i)
    {
    }

    /** SelectTried: shuffles the front of a bucket and returns a position in it. */
    method SelectTried(k: nat, draws: Draws) returns (nOldestPos: int)
      requires k < |vvTried| && vvTried[k] != []
      requires forall p :: 0 <= p < |vvTried[k]| ==> vvTried[k][p] in mapInfo && vvTried[k][p] >= 0
      modifies this`vvTried
      ensures vvTried == old(vvTried)[k := Shuffled(old(vvTried)[k], draws, Inspected(old(vvTried)[k]))]
      ensures nOldestPos == GivenUp(mapInfo, old(vvTried)[k], draws)
      ensures Permuted(old(vvTried)[k], vvTried[k])
    {
      var w;
      w, nOldestPos := ShuffleFront(vvTried[k], draws);
      vvTried := vvTried[k := w];
    }

    /** Takes an entry out of every new bucket, counting down its references. */
    method LeaveNewBuckets(nId: int)
      requires NewOk(mapInfo, vvNew, -1) && nId in mapInfo && nId >= 0
      modifies this`mapInfo, this`vvNew
      ensures vvNew == Without(old(vvNew), nId, |old(vvNew)|)
      ensures mapInfo == old(mapInfo)[nId := old(mapInfo)[nId].(nRefCount := 0)]
    {
      ghost var info, start := mapInfo, vvNew;
      var b := 0;
      while b < |vvNew|
        invariant 0 <= b <= |vvNew| == |start| && vvNew == Without(start, nId, b)
        invariant mapInfo == info[nId := info[nId].(nRefCount := Holding(vvNew, nId))]
      {
        WithoutStep(start, nId, b);
        if nId in vvNew[b] {
          HoldingUpdate(vvNew, b, vvNew[b] - {nId}, nId);
          mapInfo := mapInfo[nId := Dec(mapInfo[nId])];
          vvNew := vvNew[b := vvNew[b] - {nId}];
        }
        b := b + 1;
      }
      HoldingWithout(start, nId, nId);
    }

    /** MakeTried: moves an entry from the new buckets to the tried one its address hashes
        to; from a full bucket one entry goes back to a new bucket. */
    method MakeTried(nId: int, nOrigin: nat, draws: Draws) returns (ghost evicted: int)
      requires Valid() && nOrigin < |vvNew| && nId in vvNew[nOrigin] && nId in mapInfo && mapInfo[nId].nLastSuccess != 0
      modifies this`mapInfo, this`vvNew, this`vvTried, this`nTried, this`nNew
      ensures Valid()
      ensures evicted == -1 <==> |old(vvTried)[TriedBucket(old(mapInfo)[nId].addr)]| < TRIED_BUCKET_SIZE
      ensures evicted == -1 ==> mapInfo == old(mapInfo)[nId := Promoted(old(mapInfo)[nId])]
      ensures evicted != -1 ==>
        (evicted != nId && evicted in old(mapInfo) && old(mapInfo)[evicted].fInTried &&
          evicted in old(vvTried)[TriedBucket(old(mapInfo)[nId].addr)])
      ensures evicted != -1 ==>
        mapInfo == old(mapInfo)[nId := Promoted(old(mapInfo)[nId])][evicted := Evicted(old(mapInfo)[evicted])]
      ensures var left := Without(old(vvNew), nId, |old(vvNew)|);
        vvNew == if evicted == -1 then left else Returned(left, evicted, old(mapInfo)[evicted], nOrigin)
      ensures var k := TriedBucket(old(mapInfo)[nId].addr); var v := old(vvTried)[k];
        && (evicted == -1 ==> vvTried == old(vvTried)[k := v + [nId]])
        && (evicted != -1 ==>
              && evicted == Outgoing(old(mapInfo), v, draws)
              && vvTried == old(vvTried)[k :=
                   Shuffled(v, draws, Inspected(v))[GivenUp(old(mapInfo), v, draws) := nId]])
    {
      hide NewOk, TriedOk, AddrOk, RandOk, FieldsOk, CountsOk;
      ghost var info, vNewBefore := mapInfo, vvNew;
      NewEntry(nId, nOrigin);
      NewPromote(info, vvNew, nId);
      LeaveNewBuckets(nId);
      nNew := nNew - 1;
      assert mapInfo[nId].nRefCount == 0;
      RoomLeft(vNewBefore, nId, nOrigin);
      var k := TriedBucket(mapInfo[nId].addr);
      TriedLength(info, vvTried, k);
      if |vvTried[k]| < TRIED_BUCKET_SIZE {
        JoinTried(nId, k, info);
        return -1;
      }
      evicted := EvictFor(nId, nOrigin, k, info, draws);
    }

    lemma NewEntry(nId: int, b: nat)
      requires Valid() && b < |vvNew| && nId in vvNew[b]
      ensures nId in mapInfo && !mapInfo[nId].fInTried && nId >= 0
      ensures |vvNew| == NEW_BUCKET_COUNT && |vvNew[b]| <= NEW_BUCKET_SIZE
    {
    }

    lemma TriedLength(info: Infos, vv: seq<seq<int>>, k: nat)
      requires TriedOk(info, vv, TriedBucket) && k < TRIED_BUCKET_COUNT
      ensures |vv| == TRIED_BUCKET_COUNT && |vv[k]| <= TRIED_BUCKET_SIZE
    {
    }

    /** The bucket an entry has left is not full. */
    static lemma RoomLeft(before: seq<set<int>>, nId: int, b: nat)
      requires b < |before| && nId in before[b] && |before[b]| <= NEW_BUCKET_SIZE
      ensures var left := Without(before, nId, |before|); |left| == |before| && |left[b]| < NEW_BUCKET_SIZE
    {
      assert before[b] == Without(before, nId, |before|)[b] + {nId};
    }

    /** MakeTried for a bucket with room. */
    method JoinTried(nId: int, k: nat, ghost info: Infos)
      requires nId in info && nId >= 0 && !info[nId].fInTried && info[nId].nLastSuccess != 0
      requires mapInfo == info[nId := info[nId].(nRefCount := 0)]
      requires NewOk(info[nId := Promoted(info[nId])], vvNew, -1) && TriedOk(info, vvTried, TriedBucket)
      requires CountsOk(info, nTried, nNew + 1)
      requires AddrOk(info, mapAddr) && RandOk(info, vRandom) && FieldsOk(info, nIdCount)
      requires k == TriedBucket(info[nId].addr) && k < |vvTried| && |vvTried[k]| < TRIED_BUCKET_SIZE
      modifies this`mapInfo, this`vvTried, this`nTried
      ensures Valid() && mapInfo == info[nId := Promoted(info[nId])]
      ensures vvTried == old(vvTried)[k := old(vvTried)[k] + [nId]]
    {
      hide NewOk, TriedOk, AddrOk, RandOk, FieldsOk;
      TriedIdsUpdate(info, nId, Promoted(info[nId]));
      TriedAppend(info, vvTried, TriedBucket, nId, k);
      vvTried := vvTried[k := vvTried[k] + [nId]];
      nTried := nTried + 1;
      mapInfo := mapInfo[nId := mapInfo[nId].(fInTried := true)];
      assert mapInfo == info[nId := Promoted(info[nId])];
      MoveKeeps(info, nId, -1);
    }

    lemma TriedEntries(info: Infos, vv: seq<seq<int>>, k: nat)
      requires TriedOk(info, vv, TriedBucket) && FieldsOk(info, nIdCount) && k < |vv|
      ensures forall p :: 0 <= p < |vv[k]| ==> vv[k][p] in info && info[vv[k][p]].fInTried && vv[k][p] >= 0
    {
    }

    /** The other half of MakeTried, for a full bucket. */
    method EvictFor(nId: int, nOrigin: nat, k: nat, ghost info: Infos, draws: Draws) returns (ghost evicted: int)
      requires nId in info && nId >= 0 && !info[nId].fInTried && info[nId].nLastSuccess != 0
      requires mapInfo == info[nId := info[nId].(nRefCount := 0)]
      requires NewOk(info[nId := Promoted(info[nId])], vvNew, -1) && TriedOk(info, vvTried, TriedBucket)
      requires CountsOk(info, nTried, nNew + 1)
      requires AddrOk(info, mapAddr) && RandOk(info, vRandom) && FieldsOk(info, nIdCount)
      requires nOrigin < |vvNew| && |vvNew[nOrigin]| < NEW_BUCKET_SIZE
      requires k == TriedBucket(info[nId].addr) && vvTried[k] != []
      modifies this`mapInfo, this`vvNew, this`vvTried, this`nNew
      ensures Valid() && evicted in old(vvTried)[k] && evicted in info && evicted != nId && evicted >= 0
      ensures info[evicted].fInTried
      ensures mapInfo == info[nId := Promoted(info[nId])][evicted := Evicted(info[evicted])]
      ensures vvNew == Returned(old(vvNew), evicted, info[evicted], nOrigin)
      ensures var v := old(vvTried)[k];
        && evicted == Outgoing(info, v, draws)
        && vvTried ==
           old(vvTried)[k := Shuffled(v, draws, Inspected(v))[GivenUp(info, v, draws) := nId]]
    {
      hide NewOk, TriedOk, AddrOk, RandOk, FieldsOk, CountsOk, Permuted, GivenUp, Outgoing, Shuffled, Returned;
      TriedLength(info, vvTried, k);
      TriedEntries(info, vvTried, k);
      SameGivenUp(info, mapInfo, vvTried[k], draws);
      var nPos := SelectTried(k, draws);
      TriedPermuteBack(info, old(vvTried), k, vvTried[k]);
      var out := vvTried[k][nPos];
      evicted := out;
      assert out in vvTried[k];
      TriedEntries(info, vvTried, k);
      TriedReplace(info, vvTried, TriedBucket, nId, k, nPos);
      ghost var promoted := info[nId := Promoted(info[nId])];
      CountsSwap(info, nId, out, nTried, nNew + 1);
      assert promoted[out] == info[out] == mapInfo[out];
      ReturnToNew(out, nOrigin, promoted);
      vvTried := vvTried[k := vvTried[k][nPos := nId]];
      mapInfo := mapInfo[nId := mapInfo[nId].(fInTried := true)];
      assert mapInfo == promoted[out := Evicted(promoted[out])];
      MoveKeeps(info, nId, out);
    }

    /** The new buckets with an evicted entry back: in the bucket of its own source, or in the
        one the promoted entry came from when that is full. */
    ghost function Returned(vv: seq<set<int>>, id: int, e: AddrInfo, nOrigin: nat): seq<set<int>>
      requires |vv| == NEW_BUCKET_COUNT && nOrigin < |vv|
    {
      var b := NewBucket(e.addr, e.source);
      var c := if |vv[b]| < NEW_BUCKET_SIZE then b else nOrigin;
      vv[c := vv[c] + {id}]
    }

    /** Gives a tried entry back to the new bucket of its own source, or to the one the
        promoted entry came from when that is full. */
    method ReturnToNew(out: int, nOrigin: nat, ghost promoted: Infos)
      requires NewOk(promoted, vvNew, -1) && out in promoted && out in mapInfo && promoted[out].fInTried && out >= 0
      requires nOrigin < |vvNew| && |vvNew[nOrigin]| < NEW_BUCKET_SIZE
      modifies this`mapInfo, this`vvNew, this`nNew
      ensures NewOk(promoted[out := Evicted(promoted[out])], vvNew, -1)
      ensures mapInfo == old(mapInfo)[out := Evicted(old(mapInfo)[out])] && nNew == old(nNew) + 1
      ensures vvNew == Returned(old(vvNew), out, old(mapInfo)[out], nOrigin)
    {
      var b := NewBucket(mapInfo[out].addr, mapInfo[out].source);
      mapInfo := mapInfo[out := mapInfo[out].(fInTried := false, nRefCount := 1)];
      if |vvNew[b]| < NEW_BUCKET_SIZE {
        NewEvict(promoted, vvNew, out, b);
        vvNew := vvNew[b := vvNew[b] + {out}];
      } else {
        NewEvict(promoted, vvNew, out, nOrigin);
        vvNew := vvNew[nOrigin := vvNew[nOrigin] + {out}];
      }
      nNew := nNew + 1;
    }

    lemma TriedPermuteBack(info: Infos, before: seq<seq<int>>, k: nat, s: seq<int>)
      requires TriedOk(info, before, TriedBucket) && k < |before| && Permuted(before[k], s)
      ensures TriedOk(info, before[k := s], TriedBucket)
      ensures forall x :: x in s ==> x in before[k]
    {
      TriedPermute(info, before, TriedBucket, k, s);
      NoDuplicates(before[k], s);
    }

    /** Moving entries between new and tried leaves addresses, positions and times alone. */
    lemma MoveKeeps(info: Infos, nId: int, out: int)
      requires nId in info && (out == -1 || (out in info && out != nId))
      requires mapInfo == if out == -1 then info[nId := Promoted(info[nId])]
                          else info[nId := Promoted(info[nId])][out := Evicted(info[out])]
      ensures AddrOk(info, mapAddr) ==> AddrOk(mapInfo, mapAddr)
      ensures RandOk(info, vRandom) ==> RandOk(mapInfo, vRandom)
      ensures FieldsOk(info, nIdCount) && info[nId].nLastSuccess != 0 ==> FieldsOk(mapInfo, nIdCount)
    {
    }

    // ------------------------------------------------------------------ operations

    ghost predicate Touched(was: AddrInfo, e: AddrInfo) {
      && e.addr == was.addr && e.source == was.source && e.nRefCount == was.nRefCount
      && e.fInTried == was.fInTried && e.nRandomPos == was.nRandomPos
      && (was.nLastTry >= 0 ==> e.nLastTry >= 0) && (was.nLastSuccess >= 0 ==> e.nLastSuccess >= 0)
      && (was.nAttempts >= 0 ==> e.nAttempts >= 0) && (was.nLastSuccess != 0 ==> e.nLastSuccess != 0)
    }

    /** Times and attempts of one entry change; the tables do not. */
    lemma TouchKeeps(info: Infos, nId: int, e: AddrInfo)
      requires nId in info && Valid() && mapInfo == info
      requires Touched(info[nId], e)
      ensures AddrOk(info[nId := e], mapAddr) && RandOk(info[nId := e], vRandom) && FieldsOk(info[nId := e], nIdCount)
      ensures NewOk(info[nId := e], vvNew, -1) && TriedOk(info[nId := e], vvTried, TriedBucket)
      ensures CountsOk(info[nId := e], nTried, nNew)
    {
      ShapeKeeps(info, info[nId := e], mapAddr, vvNew, -1, vvTried, TriedBucket, nTried, nNew);
    }

    /** Looks for a new bucket that holds an entry, from a random start around the ring. */
    method FindBucket(nId: int, nRnd: nat) returns (b: nat)
      requires NewOk(mapInfo, vvNew, -1) && nId in mapInfo && !mapInfo[nId].fInTried && nId >= 0
      ensures |vvNew| == NEW_BUCKET_COUNT && b < |vvNew| && nId in vvNew[b] && FirstAround(vvNew, nId, nRnd, b)
    {
      HoldingPositive(vvNew, nId);
      var n := 0;
      while n < |vvNew|
        invariant 0 <= n <= |vvNew|
        invariant forall c :: 0 <= c < n ==> nId !in vvNew[Around(c, nRnd)]
      {
        var nB := Around(n, nRnd);
        if nId in vvNew[nB] {
          return nB;
        }
        n := n + 1;
      }
      // the source bails out here; the reference count says some bucket holds the entry
      ghost var held :| 0 <= held < |vvNew| && nId in vvNew[held];
      AroundCovers(held, nRnd);
      assert false;
    }

    /** The first bucket with the entry, from a start around the ring. */
    static ghost predicate FirstAround(vv: seq<set<int>>, nId: int, start: nat, b: nat)
      requires |vv| == NEW_BUCKET_COUNT
    {
      && b < |vv| && nId in vv[b]
      && exists n: nat :: n < |vv| && Around(n, start) == b && forall c: nat :: c < n ==> nId !in vv[Around(c, start)]
    }

    static function Around(n: nat, start: nat): (r: nat)
      ensures r < NEW_BUCKET_COUNT
    {
      (n + start) % NEW_BUCKET_COUNT
    }

    static lemma AroundCovers(b: nat, start: nat)
      requires b < NEW_BUCKET_COUNT
      ensures exists n :: 0 <= n < NEW_BUCKET_COUNT && Around(n, start) == b
    {
      var s := start % NEW_BUCKET_COUNT;
      var n := if b >= s then b - s else b + NEW_BUCKET_COUNT - s;
      assert (n + start) % NEW_BUCKET_COUNT == (n + s) % NEW_BUCKET_COUNT;
      assert Around(n, start) == b;
    }

    /** An entry that was new in `info` has become a tried one, and `evicted`, if any, a new one;
        `origin` is the new bucket in which the entry was found. */
    ghost predicate MovedToTried(info: Infos, vvN: seq<set<int>>, vvT: seq<seq<int>>, nId: int, nRnd: nat, draws: Draws,
                                 origin: nat, evicted: int)
      requires nId in info && |vvN| == NEW_BUCKET_COUNT && |vvT| == TRIED_BUCKET_COUNT
      reads this
    {
      var k, left, e := TriedBucket(info[nId].addr), Without(vvN, nId, |vvN|),
        info[nId].(nRefCount := 0, fInTried := true);
      && FirstAround(vvN, nId, nRnd, origin)
      && (|vvT[k]| < TRIED_BUCKET_SIZE ==>
            mapInfo == info[nId := e] && vvNew == left && vvTried == vvT[k := vvT[k] + [nId]])
      && (|vvT[k]| >= TRIED_BUCKET_SIZE ==>
            && evicted == Outgoing(info, vvT[k], draws) && evicted in info
            && mapInfo == info[nId := e][evicted := info[evicted].(nRefCount := 1, fInTried := false)]
            && vvNew == Returned(left, evicted, info[evicted], origin)
            && vvTried == vvT[k := Shuffled(vvT[k], draws, Inspected(vvT[k]))[GivenUp(info, vvT[k], draws) := nId]])
    }

    /** Good_: records a success; an entry that was new becomes a tried one. */
    method Good(addr: Service, nTime: int, nRnd: nat, draws: Draws) returns (ghost origin: nat, ghost evicted: int)
      requires Valid() && nTime > 0
      modifies this`mapInfo, this`vvNew, this`vvTried, this`nTried, this`nNew
      ensures Valid() && mapInfo.Keys == old(mapInfo).Keys
      ensures !(addr.ip in mapAddr && old(mapInfo)[mapAddr[addr.ip]].addr == addr) ==>
        mapInfo == old(mapInfo) && vvNew == old(vvNew) && vvTried == old(vvTried)
      ensures addr.ip in mapAddr && old(mapInfo)[mapAddr[addr.ip]].addr == addr ==>
        var id := mapAddr[addr.ip];
        var e := old(mapInfo)[id].(nLastSuccess := nTime, nLastTry := nTime, nTime := U32(nTime), nAttempts := 0);
        var marked := old(mapInfo)[id := e];
        && (e.fInTried ==> mapInfo == marked && vvNew == old(vvNew) && vvTried == old(vvTried))
        && (!e.fInTried ==>
              && |old(vvNew)| == NEW_BUCKET_COUNT && |old(vvTried)| == TRIED_BUCKET_COUNT
              && MovedToTried(marked, old(vvNew), old(vvTried), id, nRnd, draws, origin, evicted))
    {
      origin, evicted := 0, -1;
      var found, nId := Find(addr.ip);
      if !found {
        return;
      }
      if mapInfo[nId].addr != addr {
        return;
      }
      var e := mapInfo[nId].(nLastSuccess := nTime, nLastTry := nTime, nTime := U32(nTime), nAttempts := 0);
      TouchKeeps(mapInfo, nId, e);
      KnownEntry(nId);
      hide Inv;
      mapInfo := mapInfo[nId := e];
      if mapInfo[nId].fInTried {
        return;
      }
      origin, evicted := Promote(nId, nRnd, draws);
    }

    lemma KnownEntry(nId: int)
      requires Valid() && nId in mapInfo
      ensures nId >= 0 && (mapInfo[nId].fInTried ==> mapInfo[nId].nRefCount == 0)
    {
    }

    /** The end of Good_: an entry that was new becomes a tried one. */
    method Promote(nId: int, nRnd: nat, draws: Draws) returns (ghost origin: nat, ghost evicted: int)
      requires Valid() && nId in mapInfo && !mapInfo[nId].fInTried && nId >= 0 && mapInfo[nId].nLastSuccess != 0
      modifies this`mapInfo, this`vvNew, this`vvTried, this`nTried, this`nNew
      ensures Valid() && mapInfo.Keys == old(mapInfo).Keys
      ensures |old(vvNew)| == NEW_BUCKET_COUNT && |old(vvTried)| == TRIED_BUCKET_COUNT
      ensures MovedToTried(old(mapInfo), old(vvNew), old(vvTried), nId, nRnd, draws, origin, evicted)
    {
      hide NewOk, TriedOk, CountsOk, AddrOk, RandOk, FieldsOk, FirstAround, GivenUp, Outgoing;
      TriedLength(mapInfo, vvTried, TriedBucket(mapInfo[nId].addr));
      var nUBucket := FindBucket(nId, nRnd);
      origin := nUBucket;
      evicted := MakeTried(nId, nUBucket, draws);
    }

    /** Attempt_: records an attempt. */
    method Attempt(addr: Service, nTime: int)
      requires Valid() && nTime > 0
      modifies this`mapInfo
      ensures Valid()
      ensures mapInfo ==
        if addr.ip in mapAddr && old(mapInfo)[mapAddr[addr.ip]].addr == addr then
          var id := mapAddr[addr.ip];
          old(mapInfo)[id := old(mapInfo)[id].(nLastTry := nTime, nAttempts := old(mapInfo)[id].nAttempts + 1)]
        else old(mapInfo)
    {
      var found, nId := Find(addr.ip);
      if !found {
        return;
      }
      if mapInfo[nId].addr != addr {
        return;
      }
      var e := mapInfo[nId].(nLastTry := nTime, nAttempts := mapInfo[nId].nAttempts + 1);
      TouchKeeps(mapInfo, nId, e);
      mapInfo := mapInfo[nId := e];
    }

    /** Connected_: moves the time an address was last seen, at most every 20 minutes. */
    method Connected(addr: Service, nTime: int)
      requires Valid() && nTime > 0
      modifies this`mapInfo
      ensures Valid()
      ensures mapInfo ==
        if addr.ip in mapAddr && old(mapInfo)[mapAddr[addr.ip]].addr == addr
           && nTime - old(mapInfo)[mapAddr[addr.ip]].nTime > 20 * 60 then
          old(mapInfo)[mapAddr[addr.ip] := old(mapInfo)[mapAddr[addr.ip]].(nTime := U32(nTime))]
        else old(mapInfo)
    {
      var found, nId := Find(addr.ip);
      if !found {
        return;
      }
      if mapInfo[nId].addr != addr {
        return;
      }
      if nTime - mapInfo[nId].nTime > 20 * 60 {
        var e := mapInfo[nId].(nTime := U32(nTime));
        TouchKeeps(mapInfo, nId, e);
        mapInfo := mapInfo[nId := e];
      }
    }

    // ------------------------------------------------------------------------- Add_

    /** The time a known entry was last seen, after news of it: later, less the penalty. */
    static function SeenTime(was: int, news: int, penalty: int, adjusted: int): int {
      var online := adjusted - news < 24 * 60 * 60;
      var interval := if online then 60 * 60 else 24 * 60 * 60;
      if news != 0 && (was == 0 || was < news - interval - penalty) then U32(Max0(news - penalty)) else was
    }

    /** What Add_ learns about a known entry: a newer time, and services. */
    function Seen(e: AddrInfo, a: Address, penalty: int, adjusted: int): AddrInfo {
      e.(nTime := SeenTime(e.nTime, a.nTime, penalty, adjusted), services := e.services | a.services)
    }

    /** An address that is claimed to be online moves the time by more than an hour, another one
        by more than a day; the time never goes back. */
    static lemma SeenMoves(was: int, news: int, penalty: int, adjusted: int)
      requires 0 <= was && 0 <= penalty && 0 <= news < 0x1_0000_0000
      ensures var later := SeenTime(was, news, penalty, adjusted);
        var wait := if adjusted - news < 86_400 then 3_600 else 86_400;
        && (was != 0 ==> later == if news - penalty > was + wait then news - penalty else was)
        && (was == 0 ==> later == if news > penalty then news - penalty else 0)
    {
    }

    /** Services that were known stay, and those in the news are added; the rest is kept. */
    lemma SeenAdds(e: AddrInfo, a: Address, penalty: int, adjusted: int)
      ensures var later := Seen(e, a, penalty, adjusted);
        && later.services == e.services | a.services
        && later.(nTime := e.nTime, services := e.services) == e
    {
    }

    /** Create: a fresh id, filed under its address and at the end of vRandom; the first
        bucket it is about to enter is already counted. */
    method Create(a: Address, source: NetAddr, nTime: int) returns (nId: int)
      requires Valid() && a.addr.ip !in mapAddr
      modifies this`nIdCount, this`mapInfo, this`mapAddr, this`vRandom, this`nNew
      ensures nId == old(nIdCount) && nId !in old(mapInfo) && nIdCount == old(nIdCount) + 1
      ensures mapInfo ==
        old(mapInfo)[nId := AddrInfo(a.addr, a.services, nTime, 0, source, 0, 0, 1, false, |old(vRandom)|)]
      ensures mapAddr == old(mapAddr)[a.addr.ip := nId]
      ensures Inv(nId)
    {
      nId := nIdCount;
      ghost var info := mapInfo;
      var e := AddrInfo(a.addr, a.services, nTime, 0, source, 0, 0, 1, false, |vRandom|);
      NewCreated(info, vvNew, nId, e);
      CreateKeeps(nId, e);
      CreateFiles(nId, e);
      hide NewOk, TriedOk, AddrOk, RandOk, FieldsOk, CountsOk;
      nIdCount := nIdCount + 1;
      mapInfo := mapInfo[nId := e];
      mapAddr := mapAddr[a.addr.ip := nId];
      vRandom := vRandom + [nId];
      nNew := nNew + 1;
    }

    lemma CreateKeeps(nId: int, e: AddrInfo)
      requires Valid() && nId == nIdCount && !e.fInTried
      ensures TriedOk(mapInfo[nId := e], vvTried, TriedBucket)
      ensures CountsOk(mapInfo[nId := e], nTried, nNew + 1)
    {
      TriedIdsUpdate(mapInfo, nId, e);
    }

    lemma CreateFiles(nId: int, e: AddrInfo)
      requires AddrOk(mapInfo, mapAddr) && RandOk(mapInfo, vRandom) && FieldsOk(mapInfo, nIdCount) && nId == nIdCount
      requires e.nRandomPos == |vRandom| && e.addr.ip !in mapAddr
      requires e.nLastTry >= 0 && e.nLastSuccess >= 0 && e.nAttempts >= 0 && !e.fInTried
      ensures nId !in mapInfo && AddrOk(mapInfo[nId := e], mapAddr[e.addr.ip := nId])
      ensures RandOk(mapInfo[nId := e], vRandom + [nId]) && FieldsOk(mapInfo[nId := e], nIdCount + 1)
    {
    }

    /** The end of Add_: the counted entry enters its bucket, which is made room in first. */
    method EnterBucket(nId: int, b: nat, now: int, draws: Draws) returns (ghost victim: int)
      requires Inv(nId) && nId in mapInfo && !mapInfo[nId].fInTried && b < |vvNew| && nId !in vvNew[b]
      modifies this`mapInfo, this`vRandom, this`mapAddr, this`nNew, this`vvNew
      ensures Valid() && nId in mapInfo && nId in vvNew[b]
      ensures mapInfo[nId] == old(mapInfo)[nId].(nRandomPos := mapInfo[nId].nRandomPos)
      ensures Entered(old(mapInfo), old(vvNew), nId, b, draws, now, victim, mapInfo, vvNew)
    {
      hide NewOk, TriedOk, AddrOk, RandOk, FieldsOk, CountsOk, Victim, Dropped, OnlyPositions;
      victim := -1;
      BucketFits(nId, b);
      ghost var info, bucket := mapInfo, vvNew[b];
      if |vvNew[b]| == NEW_BUCKET_SIZE {
        var code;
        assert vvNew[b] != {};
        code, victim := ShrinkNew(b, now, draws, nId);
        VictimLeaves(info, bucket, draws, now, victim, mapInfo, nId);
      }
      BucketFits(nId, b);
      NewEnter(mapInfo, vvNew, nId, b);
      vvNew := vvNew[b := vvNew[b] + {nId}];
    }

    lemma BucketFits(ahead: int, b: nat)
      requires Inv(ahead) && b < |vvNew|
      ensures |vvNew[b]| <= NEW_BUCKET_SIZE && forall g :: g in mapInfo ==> g >= 0
    {
    }

    static lemma VictimLeaves(info: Infos, bucket: set<int>, draws: Draws, now: int, victim: int, more: Infos, nId: int)
      requires Victim(info, bucket, draws, now, victim) && OnlyPositions(Dropped(info, victim), more)
      requires nId in info && nId !in bucket
      ensures victim != nId && nId in more && more[nId] == info[nId].(nRandomPos := more[nId].nRandomPos)
    {
    }

    /** Every bucket that holds an address halves its chance of entering one more. */
    static method RefFactor(nRefCount: int) returns (nFactor: nat)
      ensures nFactor == Pow2(Max0(nRefCount))
    {
      nFactor := 1;
      var n: nat := 0;
      while n < nRefCount
        invariant n <= Max0(nRefCount) && nFactor == Pow2(n)
      {
        nFactor := nFactor * 2;
        n := n + 1;
      }
    }

    /** A known address enters a further bucket: its time is news, it is new, in fewer than
        four buckets, and the draw is lucky. */
    static predicate EntersAnother(e: AddrInfo, a: Address, draw: nat) {
      && a.nTime != 0 && (e.nTime == 0 || a.nTime > e.nTime)
      && !e.fInTried && e.nRefCount != NEW_BUCKETS_PER_ADDRESS && draw % Pow2(Max0(e.nRefCount)) == 0
    }

    /** Add_ for an address that is already known. */
    method AddKnown(nId: int, a: Address, source: NetAddr, penalty: int, adjusted: int, draw: nat, draws: Draws)
      returns (ghost victim: int)
      requires Valid() && nId in mapInfo && mapAddr[mapInfo[nId].addr.ip] == nId
      modifies this`mapInfo, this`vRandom, this`mapAddr, this`nNew, this`vvNew
      ensures Valid() && nId in mapInfo && |old(vvNew)| == NEW_BUCKET_COUNT
      ensures var e, b := Seen(old(mapInfo)[nId], a, penalty, adjusted), NewBucket(old(mapInfo)[nId].addr, source);
        if EntersAnother(e, a, draw) && nId !in old(vvNew)[b] then
          && nId in vvNew[b] && mapInfo[nId] == Inc(e).(nRandomPos := mapInfo[nId].nRandomPos)
          && Entered(old(mapInfo)[nId := Inc(e)], old(vvNew), nId, b, draws, adjusted, victim, mapInfo, vvNew)
        else mapInfo == old(mapInfo)[nId := e] && vvNew == old(vvNew)
    {
      victim := -1;
      var e := Seen(mapInfo[nId], a, penalty, adjusted);
      SeenTouches(mapInfo[nId], a, penalty, adjusted);
      hide Seen;
      TouchKeeps(mapInfo, nId, e);
      hide NewOk, TriedOk, CountsOk, AddrOk, RandOk, Entered;
      ghost var was := mapInfo;
      mapInfo := mapInfo[nId := e];
      if a.nTime == 0 || (e.nTime != 0 && a.nTime <= e.nTime) {
        return;
      }
      if e.fInTried {
        return;
      }
      if e.nRefCount == NEW_BUCKETS_PER_ADDRESS {
        return;
      }
      var nFactor := RefFactor(e.nRefCount);
      if nFactor > 1 && draw % nFactor != 0 {
        return;
      }
      var b := NewBucket(mapInfo[nId].addr, source);
      if nId !in vvNew[b] {
        assert mapInfo[nId := Inc(mapInfo[nId])] == was[nId := Inc(e)];
        victim := EnterAnother(nId, b, adjusted, draws);
      }
    }

    lemma SeenTouches(e: AddrInfo, a: Address, penalty: int, adjusted: int)
      ensures Touched(e, Seen(e, a, penalty, adjusted))
    {
    }

    /** A known new address enters one more bucket. */
    method EnterAnother(nId: int, b: nat, adjusted: int, draws: Draws) returns (ghost victim: int)
      requires Valid() && nId in mapInfo && !mapInfo[nId].fInTried && mapInfo[nId].nRefCount != NEW_BUCKETS_PER_ADDRESS
      requires b < |vvNew| && nId !in vvNew[b]
      modifies this`mapInfo, this`vRandom, this`mapAddr, this`nNew, this`vvNew
      ensures Valid() && nId in mapInfo && nId in vvNew[b]
      ensures mapInfo[nId] ==
        old(mapInfo)[nId].(nRefCount := old(mapInfo)[nId].nRefCount + 1, nRandomPos := mapInfo[nId].nRandomPos)
      ensures Entered(old(mapInfo)[nId := Inc(old(mapInfo)[nId])], old(vvNew), nId, b, draws, adjusted, victim,
                      mapInfo, vvNew)
    {
      NewAhead(mapInfo, vvNew, nId);
      IncKeeps(nId);
      hide NewOk, TriedOk, CountsOk, AddrOk, RandOk, FieldsOk, Entered;
      mapInfo := mapInfo[nId := Inc(mapInfo[nId])];
      victim := EnterBucket(nId, b, adjusted, draws);
    }

    lemma IncKeeps(nId: int)
      requires Valid() && nId in mapInfo
      ensures var more := mapInfo[nId := Inc(mapInfo[nId])];
        && AddrOk(more, mapAddr) && RandOk(more, vRandom) && FieldsOk(more, nIdCount)
        && TriedOk(more, vvTried, TriedBucket) && CountsOk(more, nTried, nNew)
    {
      hide NewOk, TriedOk, AddrOk, RandOk, CountsOk;
      var e := Inc(mapInfo[nId]);
      AddrTouched(mapInfo, mapAddr, nId, e);
      RandTouched(mapInfo, vRandom, nId, e);
      TriedTouched(mapInfo, vvTried, TriedBucket, nId, e);
      CountsTouched(mapInfo, nTried, nNew, nId, e);
    }

    /** The half of Add_ for an unknown address. */
    method AddUnknown(a: Address, source: NetAddr, penalty: int, adjusted: int, draws: Draws)
      returns (ghost victim: int)
      requires Valid() && a.addr.ip !in mapAddr
      modifies this`nIdCount, this`mapInfo, this`vRandom, this`mapAddr, this`nNew, this`vvNew
      ensures Valid() && a.addr.ip in mapAddr && nIdCount == old(nIdCount) + 1 && |old(vvNew)| == NEW_BUCKET_COUNT
      ensures var id := mapAddr[a.addr.ip];
        var e := AddrInfo(a.addr, a.services, U32(Max0(a.nTime - penalty)), 0, source, 0, 0, 1, false, |old(vRandom)|);
        && id == old(nIdCount) && id !in old(mapInfo) && id in mapInfo
        && mapInfo[id] == e.(nRandomPos := mapInfo[id].nRandomPos)
        && |vvNew| == NEW_BUCKET_COUNT && id in vvNew[NewBucket(a.addr, source)]
        && Entered(old(mapInfo)[id := e], old(vvNew), id, NewBucket(a.addr, source), draws, adjusted, victim,
                   mapInfo, vvNew)
    {
      hide TriedOk, RandOk, FieldsOk, CountsOk, Entered;
      var nId := Create(a, source, U32(Max0(a.nTime - penalty)));
      var b := NewBucket(a.addr, source);
      // a fresh id is in no bucket yet
      assert nId !in vvNew[b];
      victim := EnterBucket(nId, b, adjusted, draws);
    }

    /** Add_. */
    method Add(a: Address, routable: bool, source: NetAddr, penalty: int, adjusted: int, draw: nat, draws: Draws)
      returns (fNew: bool, ghost victim: int)
      requires Valid() && a.nTime >= 0
      modifies this`nIdCount, this`mapInfo, this`vRandom, this`mapAddr, this`nNew, this`vvNew
      ensures Valid() && |old(vvNew)| == NEW_BUCKET_COUNT
      ensures fNew <==> routable && a.addr.ip !in old(mapAddr)
      ensures nIdCount == old(nIdCount) + if fNew then 1 else 0
      ensures !routable ==>
        mapInfo == old(mapInfo) && vvNew == old(vvNew) && mapAddr == old(mapAddr) && vRandom == old(vRandom)
      ensures routable ==> a.addr.ip in mapAddr
      ensures fNew ==>
        var id, b := old(nIdCount), NewBucket(a.addr, source);
        var e := AddrInfo(a.addr, a.services, U32(Max0(a.nTime - penalty)), 0, source, 0, 0, 1, false, |old(vRandom)|);
        && mapAddr[a.addr.ip] == id && id !in old(mapInfo) && id in mapInfo && id in vvNew[b]
        && mapInfo[id] == e.(nRandomPos := mapInfo[id].nRandomPos)
        && Entered(old(mapInfo)[id := e], old(vvNew), id, b, draws, adjusted, victim, mapInfo, vvNew)
      ensures routable && !fNew ==>
        var id := old(mapAddr)[a.addr.ip];
        var e, b := Seen(old(mapInfo)[id], a, penalty, adjusted), NewBucket(old(mapInfo)[id].addr, source);
        && mapAddr[a.addr.ip] == id
        && if EntersAnother(e, a, draw) && id !in old(vvNew)[b] then
             && id in vvNew[b] && mapInfo[id] == Inc(e).(nRandomPos := mapInfo[id].nRandomPos)
             && Entered(old(mapInfo)[id := Inc(e)], old(vvNew), id, b, draws, adjusted, victim, mapInfo, vvNew)
           else mapInfo == old(mapInfo)[id := e] && vvNew == old(vvNew)
    {
      hide TriedOk, RandOk, FieldsOk, CountsOk, Entered;
      fNew, victim := false, -1;
      if !routable {
        return;
      }
      var found, nId := Find(a.addr.ip);
      if found {
        victim := AddKnown(nId, a, source, penalty, adjusted, draw, draws);
      } else {
        victim := AddUnknown(a, source, penalty, adjusted, draws);
        fNew := true;
      }
    }

    // ---------------------------------------------------------------------- GetAddr_

    /** The addresses drawn so far are those of the front of vRandom. */
    ghost predicate Drawn(info: Infos, vAddr: seq<AddrInfo>)
      reads this
    {
      |vAddr| <= |vRandom| && forall i :: 0 <= i < |vAddr| ==>
        vRandom[i] in info && vAddr[i] == info[vRandom[i]].(nRandomPos := i)
    }

    static ghost predicate KnownAddr(info: Infos, a: Service) {
      exists id :: id in info && info[id].addr == a
    }

    /** One round of GetAddr_: a random entry is swapped to position |vAddr| and copied. */
    method DrawOne(vAddr: seq<AddrInfo>, ghost info: Infos, draws: Draws) returns (more: seq<AddrInfo>)
      requires |vAddr| < |vRandom| && RandOk(mapInfo, vRandom) && OnlyPositions(info, mapInfo) && Drawn(info, vAddr)
      modifies this`mapInfo, this`vRandom
      ensures |vRandom| == |old(vRandom)| && RandOk(mapInfo, vRandom) && OnlyPositions(info, mapInfo)
      ensures |more| == |vAddr| + 1 && Drawn(info, more)
      ensures vRandom == Swapped(old(vRandom), |vAddr|, Place(|old(vRandom)|, draws, |vAddr|))
    {
      var n := |vAddr|;
      ghost var before := mapInfo;
      var nRndPos := draws(n) % (|vRandom| - n) + n;
      SwapRandom(n, nRndPos);
      PositionsTwice(info, before, mapInfo);
      var id := vRandom[n];
      more := vAddr + [mapInfo[id]];
      assert id in info && mapInfo[id] == info[id].(nRandomPos := mapInfo[id].nRandomPos);
      forall i | 0 <= i < n ensures vRandom[i] == old(vRandom)[i] {
      }
    }

    static lemma PositionsTwice(info: Infos, moved: Infos, again: Infos)
      requires OnlyPositions(info, moved) && OnlyPositions(moved, again)
      ensures OnlyPositions(info, again)
    {
      forall id | id in info ensures again[id] == info[id].(nRandomPos := again[id].nRandomPos) {
        assert id in moved.Keys;
      }
    }

    /** Different positions hold entries with different addresses. */
    lemma DrawnDistinct(info: Infos, vAddr: seq<AddrInfo>, i: nat, j: nat)
      requires AddrOk(info, mapAddr) && RandOk(mapInfo, vRandom) && Drawn(info, vAddr) && i < j < |vAddr|
      ensures vAddr[i].addr.ip != vAddr[j].addr.ip
    {
      var a, b := vRandom[i], vRandom[j];
      assert mapInfo[a].nRandomPos == i && mapInfo[b].nRandomPos == j;
      assert mapAddr[info[a].addr.ip] == a && mapAddr[info[b].addr.ip] == b;
    }

    lemma DrawnKnown(info: Infos, vAddr: seq<AddrInfo>, i: nat)
      requires Drawn(info, vAddr) && i < |vAddr|
      ensures KnownAddr(info, vAddr[i].addr)
    {
      var id := vRandom[i];
      assert id in info && info[id].addr == vAddr[i].addr;
    }

    /** GetAddr_: a random selection of at most 23 percent, and 2500, of all addresses. */
    method GetAddr(draws: Draws) returns (vAddr: seq<AddrInfo>)
      requires Valid()
      modifies this`mapInfo, this`vRandom
      ensures Valid() && OnlyPositions(old(mapInfo), mapInfo)
      ensures |vAddr| == var n := GETADDR_MAX_PCT * |mapInfo| / 100; if n > GETADDR_MAX then GETADDR_MAX else n
      ensures |vAddr| <= |old(vRandom)| && vRandom == Shuffled(old(vRandom), draws, |vAddr|)
      ensures forall i :: 0 <= i < |vAddr| ==>
        var id := Dealt(old(vRandom), draws, i);
        id in old(mapInfo) && vAddr[i] == old(mapInfo)[id].(nRandomPos := i)
      ensures forall i :: 0 <= i < |vAddr| ==> KnownAddr(old(mapInfo), vAddr[i].addr)
      ensures forall i, j :: 0 <= i < j < |vAddr| ==> vAddr[i].addr.ip != vAddr[j].addr.ip
    {
      hide NewOk, TriedOk, FieldsOk, CountsOk, AddrOk, RandOk, OnlyPositions, Swapped, Place, Dealt;
      ghost var info, start := mapInfo, vRandom;
      RandLength(mapInfo, vRandom);
      var nNodes := GETADDR_MAX_PCT * |vRandom| / 100;
      if nNodes > GETADDR_MAX {
        nNodes := GETADDR_MAX;
      }
      vAddr := [];
      SamePositions(mapInfo);
      while |vAddr| < nNodes
        invariant |vAddr| <= nNodes <= |vRandom| == |old(vRandom)|
        invariant RandOk(mapInfo, vRandom) && OnlyPositions(info, mapInfo) && Drawn(info, vAddr)
        invariant vRandom == Shuffled(start, draws, |vAddr|)
      {
        vAddr := DrawOne(vAddr, info, draws);
      }
      forall i | 0 <= i < |vAddr| ensures vRandom[i] == Dealt(start, draws, i) {
        Settled(start, draws, i, |vAddr|);
      }
      RandLength(mapInfo, vRandom);
      PositionsKeep(info, vvNew, -1, nTried, nNew);
      forall i, j | 0 <= i < j < |vAddr| ensures vAddr[i].addr.ip != vAddr[j].addr.ip {
        DrawnDistinct(info, vAddr, i, j);
      }
      forall i | 0 <= i < |vAddr| ensures KnownAddr(info, vAddr[i].addr) {
        DrawnKnown(info, vAddr, i);
      }
    }
  }
}
