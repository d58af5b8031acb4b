/** Saving and loading the address manager (the serialisation body in src/addrman.h). */
module AddrStore {
  import opened AddrTables
  import opened Walk
  import opened AddrMan

  /** The fields of an entry that go to disk; the rest is rebuilt. */
  datatype SavedInfo = SavedInfo(addr: Service, services: bv64, nTime: int, source: NetAddr, nLastSuccess: int,
    nAttempts: int)

  /** What the stream holds after the version and the key. */
  datatype Saved = Saved(nNew: int, nTried: int, nUBuckets: int, infos: seq<SavedInfo>, tried: seq<SavedInfo>,
    buckets: seq<seq<int>>)

  function Persist(e: AddrInfo): SavedInfo {
    SavedInfo(e.addr, e.services, e.nTime, e.source, e.nLastSuccess, e.nAttempts)
  }

  /** A default entry with the saved fields read into it. */
  function Restore(s: SavedInfo): AddrInfo {
    AddrInfo(s.addr, s.services, s.nTime, 0, s.source, s.nLastSuccess, s.nAttempts, 0, false, -1)
  }

  // ------------------------------------------------------------------------- saving

  /** A list of saved entries is that of a list of ids. */
  ghost predicate PersistAll(out: seq<SavedInfo>, ids: seq<int>, info: Infos) {
    |out| == |ids| && forall i :: 0 <= i < |ids| ==> ids[i] in info && out[i] == Persist(info[ids[i]])
  }

  ghost predicate Indexes(unk: map<int, int>, ids: seq<int>) {
    forall i :: 0 <= i < |ids| ==> ids[i] in unk && unk[ids[i]] == i
  }

  /** Each bucket is saved as the positions of its ids in the list of new ids. */
  ghost predicate BucketSaved(out: seq<int>, ids: seq<int>, bucket: set<int>) {
    && (forall j :: 0 <= j < |out| ==> 0 <= out[j] < |ids|)
    && (forall i :: 0 <= i < |ids| ==> (i in out <==> ids[i] in bucket))
    && (forall j, k :: 0 <= j < k < |out| ==> out[j] != out[k])
    && |out| == |bucket|
  }

  /** `s` is what the tables are saved as; the two lists give the order of the entries. */
  ghost predicate SavedAs(s: Saved, newIds: seq<int>, triedIds: seq<int>, info: Infos, vvNew: seq<set<int>>) {
    && Lists(newIds, NewIds(info)) && Lists(triedIds, TriedIds(info))
    && s.nNew == |newIds| && s.nTried == |triedIds| && s.nUBuckets == NEW_BUCKET_COUNT == |s.buckets| == |vvNew|
    && PersistAll(s.infos, newIds, info) && PersistAll(s.tried, triedIds, info)
    && forall b :: 0 <= b < NEW_BUCKET_COUNT ==> BucketSaved(s.buckets[b], newIds, vvNew[b])
  }

  /** Ascending ids drawn from a set, as many as it has, are all of it. */
  lemma AllOfThem(ids: seq<int>, all: set<int>)
    requires Ascending(ids) && (forall x :: x in ids ==> x in all) && |ids| == |all|
    ensures ids == Ascent(all) && Lists(ids, all)
  {
    var s := set x | x in ids;
    AscendingSize(ids);
    assert s <= all && |s| == |all|;
    SubsetOfSize(s, all);
    OneAscent(ids, all);
  }

  lemma SubsetOfSize(s: set<int>, all: set<int>)
    requires s <= all && |s| == |all|
    ensures s == all
  {
    assert all == s + (all - s);
    assert |all| == |s| + |all - s|;
  }

  lemma {:induction false} AscendingSize(ids: seq<int>)
    requires Ascending(ids)
    ensures |set x | x in ids| == |ids|
  {
    if ids != [] {
      var n := |ids| - 1;
      AscendingSize(ids[..n]);
      assert ids == ids[..n] + [ids[n]];
      assert (set x | x in ids) == (set x | x in ids[..n]) + {ids[n]};
      assert ids[n] !in ids[..n];
    }
  }

  /** The loop that writes the new entries, and numbers them. */
  method SaveNew(info: Infos, walk: seq<int>, nNew: int) returns (out: seq<SavedInfo>, unk: map<int, int>)
    requires Lists(walk, info.Keys) && nNew == |NewIds(info)|
    requires forall id :: id in info ==> (info[id].nRefCount != 0 <==> !info[id].fInTried)
    ensures var ids := Ascent(NewIds(info)); Lists(ids, NewIds(info)) && PersistAll(out, ids, info) && Indexes(unk, ids)
  {
    out, unk := [], map[];
    ghost var ids := [];
    var i := 0;
    while i < |walk|
      invariant 0 <= i <= |walk| && Ascending(ids) && PersistAll(out, ids, info) && Indexes(unk, ids)
      invariant forall x :: x in ids <==> x in walk[..i] && x in NewIds(info)
      invariant i < |walk| ==> forall j :: 0 <= j < |ids| ==> ids[j] < walk[i]
      invariant forall x :: x in unk ==> x in walk[..i]
    {
      assert walk[i] in walk && walk[..i + 1] == walk[..i] + [walk[i]];
      if |out| == nNew {
        break;
      }
      unk := unk[walk[i] := |out|];
      var e := info[walk[i]];
      if e.nRefCount != 0 {
        out := out + [Persist(e)];
        ids := ids + [walk[i]];
      }
      i := i + 1;
    }
    if i == |walk| {
      assert walk[..i] == walk;
      forall x | x in NewIds(info) ensures x in ids {
        assert x in info.Keys;
      }
      assert (set x | x in ids) == NewIds(info);
      AscendingSize(ids);
    }
    AllOfThem(ids, NewIds(info));
  }

  /** The loop that writes the tried entries. */
  method SaveTried(info: Infos, walk: seq<int>, nTried: int) returns (out: seq<SavedInfo>)
    requires Lists(walk, info.Keys) && nTried == |TriedIds(info)|
    ensures var ids := Ascent(TriedIds(info)); Lists(ids, TriedIds(info)) && PersistAll(out, ids, info)
  {
    out := [];
    ghost var ids := [];
    var i := 0;
    while i < |walk|
      invariant 0 <= i <= |walk| && Ascending(ids) && PersistAll(out, ids, info)
      invariant forall x :: x in ids <==> x in walk[..i] && x in TriedIds(info)
      invariant i < |walk| ==> forall j :: 0 <= j < |ids| ==> ids[j] < walk[i]
    {
      assert walk[i] in walk && walk[..i + 1] == walk[..i] + [walk[i]];
      if |out| == nTried {
        break;
      }
      var e := info[walk[i]];
      if e.fInTried {
        out := out + [Persist(e)];
        ids := ids + [walk[i]];
      }
      i := i + 1;
    }
    if i == |walk| {
      assert walk[..i] == walk;
      forall x | x in TriedIds(info) ensures x in ids {
        assert x in info.Keys;
      }
      assert (set x | x in ids) == TriedIds(info);
      AscendingSize(ids);
    }
    AllOfThem(ids, TriedIds(info));
  }

  /** The loop that writes one bucket. */
  method SaveBucket(bucket: set<int>, unk: map<int, int>, ghost ids: seq<int>) returns (out: seq<int>)
    requires Indexes(unk, ids) && forall x :: x in bucket ==> x in ids
    ensures BucketSaved(out, ids, bucket)
  {
    var walk := InOrder(bucket);
    out := [];
    var n := 0;
    while n < |walk|
      invariant 0 <= n <= |walk| && |out| == n
      invariant forall j :: 0 <= j < n ==> 0 <= out[j] < |ids| && ids[out[j]] == walk[j]
    {
      assert walk[n] in walk;
      out := out + [unk[walk[n]]];
      n := n + 1;
    }
    forall i | 0 <= i < |ids| ensures i in out <==> ids[i] in bucket {
      if ids[i] in bucket {
        var j :| 0 <= j < |walk| && walk[j] == ids[i];
        assert unk[ids[i]] == i && unk[ids[out[j]]] == out[j];
        assert out[j] in out;
      }
      if i in out {
        var j :| 0 <= j < |out| && out[j] == i;
        assert walk[j] in walk;
      }
    }
  }

  method Save(am: CAddrMan) returns (s: Saved)
    requires am.Valid()
    ensures SavedAs(s, Ascent(NewIds(am.mapInfo)), Ascent(TriedIds(am.mapInfo)), am.mapInfo, am.vvNew)
  {
    var walk := InOrder(am.mapInfo.Keys);
    var infos, unk := SaveNew(am.mapInfo, walk, am.nNew);
    var tried := SaveTried(am.mapInfo, walk, am.nTried);
    var buckets := SaveBuckets(am.mapInfo, am.vvNew, unk, Ascent(NewIds(am.mapInfo)));
    s := Saved(am.nNew, am.nTried, NEW_BUCKET_COUNT, infos, tried, buckets);
  }

  lemma HeldAreListed(info: Infos, vvNew: seq<set<int>>, ids: seq<int>, b: nat)
    requires NewOk(info, vvNew, -1) && Lists(ids, NewIds(info)) && b < |vvNew|
    ensures forall x :: x in vvNew[b] ==> x in ids
  {
    forall x | x in vvNew[b] ensures x in ids {
      assert x in NewIds(info);
    }
  }

  method SaveBuckets(ghost info: Infos, vvNew: seq<set<int>>, unk: map<int, int>, ghost ids: seq<int>)
    returns (out: seq<seq<int>>)
    requires NewOk(info, vvNew, -1) && Lists(ids, NewIds(info)) && Indexes(unk, ids)
    ensures |out| == |vvNew| && forall b :: 0 <= b < |vvNew| ==> BucketSaved(out[b], ids, vvNew[b])
  {
    out := [];
    while |out| < |vvNew|
      invariant |out| <= |vvNew| && forall b :: 0 <= b < |out| ==> BucketSaved(out[b], ids, vvNew[b])
    {
      var bucket := vvNew[|out|];
      HeldAreListed(info, vvNew, ids, |out|);
      hide NewOk, Lists, Indexes;
      var one := SaveBucket(bucket, unk, ids);
      out := out + [one];
    }
  }

  // ------------------------------------------------------------------------ loading

  ghost function Elements(s: seq<int>): set<int> {
    set x | x in s
  }

  ghost function Sets(buckets: seq<seq<int>>): seq<set<int>> {
    seq(|buckets|, b requires 0 <= b < |buckets| => Elements(buckets[b]))
  }

  ghost predicate DistinctIps(entries: seq<SavedInfo>) {
    forall i, j :: 0 <= i < j < |entries| ==> entries[i].addr.ip != entries[j].addr.ip
  }

  ghost predicate InRange(list: seq<int>, nNew: int) {
    forall j :: 0 <= j < |list| ==> 0 <= list[j] < nNew
  }

  ghost predicate BucketFine(list: seq<int>, nNew: int) {
    && |list| <= NEW_BUCKET_SIZE && InRange(list, nNew)
    && (forall j, k :: 0 <= j < k < |list| ==> list[j] != list[k])
  }

  ghost predicate Referenced(held: nat) {
    1 <= held <= NEW_BUCKETS_PER_ADDRESS
  }

  /** Buckets that keep the limits, with every new entry in some. */
  ghost predicate Bucketed(s: Saved) {
    && (forall b :: 0 <= b < |s.buckets| ==> BucketFine(s.buckets[b], s.nNew))
    && (forall i: int :: 0 <= i < s.nNew ==> Referenced(Holding(Sets(s.buckets), i)))
  }

  /** A stream as Save writes it, with any number of new buckets. */
  ghost predicate WellFormed(s: Saved) {
    && s.nNew == |s.infos| && s.nTried == |s.tried| && s.nUBuckets == |s.buckets|
    && (forall b :: 0 <= b < |s.buckets| ==> InRange(s.buckets[b], s.nNew))
    && (s.nUBuckets == NEW_BUCKET_COUNT ==> Bucketed(s))
    && DistinctIps(s.infos + s.tried)
    && (forall i :: 0 <= i < |s.infos| ==> s.infos[i].nLastSuccess >= 0 && s.infos[i].nAttempts >= 0)
    && (forall i :: 0 <= i < |s.tried| ==> s.tried[i].nLastSuccess > 0 && s.tried[i].nAttempts >= 0)
  }

  /** The saved tried entries among the first n that hash to bucket k. */
  ghost function Hashed(tried: seq<SavedInfo>, n: nat, bucket: Service -> nat, k: int): set<int>
    requires n <= |tried|
  {
    set i | 0 <= i < n && bucket(tried[i].addr) == k
  }

  /** No tried bucket gets more entries than it has room for. */
  ghost predicate Fits(tried: seq<SavedInfo>, bucket: Service -> nat) {
    forall k :: |Hashed(tried, |tried|, bucket, k)| <= TRIED_BUCKET_SIZE
  }

  /** The first n new entries, each in the bucket that its address and source hash to. */
  ghost function Spread(infos: seq<SavedInfo>, n: nat, bucket: (Service, NetAddr) -> nat): seq<set<int>>
    requires n <= |infos|
  {
    seq(NEW_BUCKET_COUNT, b requires 0 <= b < NEW_BUCKET_COUNT =>
      set i | 0 <= i < n && bucket(infos[i].addr, infos[i].source) == b)
  }

  /** The new buckets after n new entries: with another bucket count they are built anew. */
  ghost function Begun(s: Saved, n: nat, bucket: (Service, NetAddr) -> nat): seq<set<int>>
    requires n <= |s.infos|
  {
    if s.nUBuckets == NEW_BUCKET_COUNT then seq(NEW_BUCKET_COUNT, _ => {}) else Spread(s.infos, n, bucket)
  }

  /** The new buckets after loading. */
  ghost function Loaded(s: Saved, bucket: (Service, NetAddr) -> nat): seq<set<int>> {
    if s.nUBuckets == NEW_BUCKET_COUNT then Sets(s.buckets) else Spread(s.infos, |s.infos|, bucket)
  }

  /** No new bucket is given more entries than it has room for; loading does not look. */
  ghost predicate NewFits(s: Saved, bucket: (Service, NetAddr) -> nat) {
    s.nUBuckets == NEW_BUCKET_COUNT ||
    forall b :: 0 <= b < NEW_BUCKET_COUNT ==> |Spread(s.infos, |s.infos|, bucket)[b]| <= NEW_BUCKET_SIZE
  }

  /** The entries have ids 0, 1, 2, ..., are in that order in vRandom and are filed by address. */
  ghost predicate Filed(info: Infos, addrs: map<NetAddr, int>, rnd: seq<int>, entries: seq<SavedInfo>) {
    && |rnd| == |entries| && AddrOk(info, addrs)
    && (forall id :: id in info <==> 0 <= id < |entries|)
    && (forall n :: 0 <= n < |entries| ==> rnd[n] == n)
    && (forall n :: 0 <= n < |entries| ==>
      Persist(info[n]) == entries[n] && info[n].nRandomPos == n && info[n].nLastTry == 0)
  }

  ghost function Pick(tried: seq<SavedInfo>, kept: seq<nat>): (r: seq<SavedInfo>)
    requires forall j :: 0 <= j < |kept| ==> kept[j] < |tried|
    ensures |r| == |kept|
  {
    seq(|kept|, j requires 0 <= j < |kept| => tried[kept[j]])
  }

  lemma FileOne(info: Infos, addrs: map<NetAddr, int>, rnd: seq<int>, entries: seq<SavedInfo>, s: SavedInfo,
                e: AddrInfo)
    requires Filed(info, addrs, rnd, entries) && forall i :: 0 <= i < |entries| ==> entries[i].addr.ip != s.addr.ip
    requires Persist(e) == s && e.nLastTry == 0 && e.nRandomPos == |rnd|
    ensures |rnd| !in info && Filed(info[|rnd| := e], addrs[s.addr.ip := |rnd|], rnd + [|rnd|], entries + [s])
  {
    forall id | id in info ensures info[id].addr.ip != s.addr.ip {
      assert entries[id] == Persist(info[id]);
    }
  }

  /** Entries count the buckets that hold them, and only new ones are held. */
  ghost predicate Fresh(info: Infos, nNew: int, vv: seq<set<int>>) {
    && (forall id :: id in info ==> info[id].nRefCount == Holding(vv, id) && (info[id].fInTried <==> id >= nNew))
    && (forall b, id :: 0 <= b < |vv| && id in vv[b] ==> id in info && id < nNew)
  }

  lemma FreshEmpty(nNew: int)
    ensures Fresh(map[], nNew, seq(NEW_BUCKET_COUNT, _ => {}))
  {
  }

  /** A further entry that no bucket holds. */
  lemma FreshMore(info: Infos, nNew: int, vv: seq<set<int>>, id: int, e: AddrInfo)
    requires Fresh(info, nNew, vv) && id !in info && e.nRefCount == 0 && (e.fInTried <==> id >= nNew)
    ensures Fresh(info[id := e], nNew, vv)
  {
    HoldingPositive(vv, id);
    var later := info[id := e];
    forall g | g in later ensures later[g].nRefCount == Holding(vv, g) && (later[g].fInTried <==> g >= nNew) {
      if g != id {
        assert g in info;
      }
    }
    assert Fresh(later, nNew, vv);
  }

  /** A new entry joins a bucket. */
  lemma FreshJoin(info: Infos, nNew: int, vv: seq<set<int>>, id: int, b: nat)
    requires Fresh(info, nNew, vv) && id in info && id < nNew && b < |vv| && id !in vv[b]
    ensures Fresh(info[id := Inc(info[id])], nNew, vv[b := vv[b] + {id}])
  {
    var ww, later := vv[b := vv[b] + {id}], info[id := Inc(info[id])];
    forall g | g in later
      ensures later[g].nRefCount == Holding(ww, g) && (later[g].fInTried <==> g >= nNew)
    {
      assert g in info;
      HoldingUpdate(vv, b, vv[b] + {id}, g);
    }
    forall c, g | 0 <= c < |ww| && g in ww[c] ensures g in later && g < nNew {
      if c != b || g != id {
        assert g in vv[c];
      }
    }
    assert Fresh(later, nNew, ww);
  }

  /** The loop that reads the new entries. */
  method LoadNew(am: CAddrMan, s: Saved)
    requires WellFormed(s) && am.mapInfo == map[] && am.mapAddr == map[] && am.vRandom == [] && am.nNew == s.nNew
    requires am.vvNew == seq(NEW_BUCKET_COUNT, _ => {})
    modifies am`mapInfo, am`mapAddr, am`vRandom, am`vvNew
    ensures Filed(am.mapInfo, am.mapAddr, am.vRandom, s.infos) && Fresh(am.mapInfo, s.nNew, am.vvNew)
    ensures am.vvNew == Begun(s, |s.infos|, am.NewBucket)
  {
    FreshEmpty(s.nNew);
    SpreadNone(s.infos, am.NewBucket);
    var n := 0;
    while n < am.nNew
      invariant 0 <= n <= am.nNew && Filed(am.mapInfo, am.mapAddr, am.vRandom, s.infos[..n])
      invariant Fresh(am.mapInfo, s.nNew, am.vvNew) && am.vvNew == Begun(s, n, am.NewBucket)
    {
      LoadOneNew(am, s, n);
      n := n + 1;
    }
    assert s.infos[..n] == s.infos;
  }

  method LoadOneNew(am: CAddrMan, s: Saved, n: nat)
    requires WellFormed(s) && n < s.nNew == |s.infos| && Filed(am.mapInfo, am.mapAddr, am.vRandom, s.infos[..n])
    requires Fresh(am.mapInfo, s.nNew, am.vvNew) && am.vvNew == Begun(s, n, am.NewBucket)
    modifies am`mapInfo, am`mapAddr, am`vRandom, am`vvNew
    ensures Filed(am.mapInfo, am.mapAddr, am.vRandom, s.infos[..n + 1])
    ensures Fresh(am.mapInfo, s.nNew, am.vvNew) && am.vvNew == Begun(s, n + 1, am.NewBucket)
  {
    hide Filed, Fresh, WellFormed, Spread;
    var e := Restore(s.infos[n]).(nRandomPos := |am.vRandom|);
    KeepNew(s, n, am.mapInfo, am.mapAddr, am.vRandom, am.vvNew, e);
    am.mapInfo := am.mapInfo[n := e];
    am.mapAddr := am.mapAddr[e.addr.ip := n];
    am.vRandom := am.vRandom + [n];
    if s.nUBuckets != NEW_BUCKET_COUNT {
      var b := am.NewBucket(e.addr, e.source);
      SpreadStep(s.infos, n, am.NewBucket, b);
      FreshJoin(am.mapInfo, s.nNew, am.vvNew, n, b);
      am.vvNew := am.vvNew[b := am.vvNew[b] + {n}];
      am.mapInfo := am.mapInfo[n := Inc(am.mapInfo[n])];
    }
  }

  lemma KeepNew(s: Saved, n: nat, info: Infos, addrs: map<NetAddr, int>, rnd: seq<int>, vv: seq<set<int>>, e: AddrInfo)
    requires WellFormed(s) && n < s.nNew && Filed(info, addrs, rnd, s.infos[..n]) && Fresh(info, s.nNew, vv)
    requires e == Restore(s.infos[n]).(nRandomPos := |rnd|)
    ensures n !in info && Fresh(info[n := e], s.nNew, vv)
    ensures Filed(info[n := e], addrs[e.addr.ip := n], rnd + [n], s.infos[..n + 1])
    ensures Filed(info[n := e][n := Inc(e)], addrs[e.addr.ip := n], rnd + [n], s.infos[..n + 1])
  {
    NewIpsDiffer(s, n);
    FileOne(info, addrs, rnd, s.infos[..n], s.infos[n], e);
    FileOne(info, addrs, rnd, s.infos[..n], s.infos[n], Inc(e));
    FreshMore(info, s.nNew, vv, n, e);
    assert s.infos[..n] + [s.infos[n]] == s.infos[..n + 1];
    assert info[n := e][n := Inc(e)] == info[n := Inc(e)];
  }

  lemma SpreadNone(infos: seq<SavedInfo>, bucket: (Service, NetAddr) -> nat)
    ensures Spread(infos, 0, bucket) == seq(NEW_BUCKET_COUNT, _ => {})
  {
    forall b | 0 <= b < NEW_BUCKET_COUNT ensures Spread(infos, 0, bucket)[b] == {} {
    }
  }

  lemma SpreadStep(infos: seq<SavedInfo>, n: nat, bucket: (Service, NetAddr) -> nat, b: nat)
    requires n < |infos| && b == bucket(infos[n].addr, infos[n].source) && b < NEW_BUCKET_COUNT
    ensures |Spread(infos, n, bucket)| == NEW_BUCKET_COUNT && n !in Spread(infos, n, bucket)[b]
    ensures var vv := Spread(infos, n, bucket); Spread(infos, n + 1, bucket) == vv[b := vv[b] + {n}]
  {
    var vv, ww := Spread(infos, n, bucket), Spread(infos, n + 1, bucket);
    assert ww[b] == vv[b] + {n};
    forall c | 0 <= c < NEW_BUCKET_COUNT && c != b ensures ww[c] == vv[c] {
    }
  }

  lemma NewIpsDiffer(s: Saved, n: nat)
    requires WellFormed(s) && n < s.nNew
    ensures forall i :: 0 <= i < n ==> s.infos[..n][i].addr.ip != s.infos[n].addr.ip
  {
    forall i | 0 <= i < n ensures s.infos[..n][i].addr.ip != s.infos[n].addr.ip {
      assert (s.infos + s.tried)[i] == s.infos[i] && (s.infos + s.tried)[n] == s.infos[n];
    }
  }

  /** The positions of the tried entries that were kept, of the first n. */
  ghost predicate Kept(kept: seq<nat>, n: int, nLost: int) {
    && |kept| + nLost == n && nLost >= 0
    && (forall j :: 0 <= j < |kept| ==> kept[j] < n)
    && (nLost == 0 ==> forall j :: 0 <= j < |kept| ==> kept[j] == j)
  }

  lemma TriedIpsDiffer(s: Saved, kept: seq<nat>, n: nat, nLost: int)
    requires WellFormed(s) && n < s.nTried && Kept(kept, n, nLost)
    ensures var entries := s.infos + Pick(s.tried, kept);
      forall i :: 0 <= i < |entries| ==> entries[i].addr.ip != s.tried[n].addr.ip
  {
    var all := s.infos + s.tried;
    assert all[|s.infos| + n] == s.tried[n];
    forall i | 0 <= i < |s.infos| + |kept|
      ensures (s.infos + Pick(s.tried, kept))[i].addr.ip != s.tried[n].addr.ip
    {
      if i < |s.infos| {
        assert all[i] == s.infos[i];
      } else {
        var j := kept[i - |s.infos|];
        assert all[|s.infos| + j] == s.tried[j];
      }
    }
  }

  /** How full the tried buckets are after n entries; an overflowing one explains a loss. */
  ghost predicate Levels(vv: seq<seq<int>>, tried: seq<SavedInfo>, n: nat, bucket: Service -> nat, nLost: int)
    requires n <= |tried|
  {
    && (forall k :: 0 <= k < |vv| ==> |vv[k]| <= |Hashed(tried, n, bucket, k)|)
    && (nLost == 0 ==> forall k :: 0 <= k < |vv| ==> |vv[k]| == |Hashed(tried, n, bucket, k)|)
    && (nLost > 0 ==> exists k :: |Hashed(tried, n, bucket, k)| > TRIED_BUCKET_SIZE)
  }

  lemma HashedStep(tried: seq<SavedInfo>, n: nat, bucket: Service -> nat, k: int)
    requires n < |tried|
    ensures |Hashed(tried, n + 1, bucket, k)| ==
      |Hashed(tried, n, bucket, k)| + if bucket(tried[n].addr) == k then 1 else 0
  {
    var was, now := Hashed(tried, n, bucket, k), Hashed(tried, n + 1, bucket, k);
    forall i: int ensures i in now <==> i in was || (i == n && bucket(tried[n].addr) == k) {
    }
    hide Hashed;
    assert n !in was by {
      HashedBelow(tried, n, bucket, k);
    }
    assert now == was + if bucket(tried[n].addr) == k then {n} else {};
  }

  lemma HashedBelow(tried: seq<SavedInfo>, n: nat, bucket: Service -> nat, k: int)
    requires n < |tried|
    ensures n !in Hashed(tried, n, bucket, k)
  {
  }

  lemma LevelsStep(vv: seq<seq<int>>, tried: seq<SavedInfo>, n: nat, bucket: Service -> nat, nLost: int, k: nat,
                   id: int)
    requires n < |tried| && Levels(vv, tried, n, bucket, nLost) && k < |vv| && k == bucket(tried[n].addr) && nLost >= 0
    ensures |vv[k]| < TRIED_BUCKET_SIZE ==> Levels(vv[k := vv[k] + [id]], tried, n + 1, bucket, nLost)
    ensures |vv[k]| >= TRIED_BUCKET_SIZE ==> Levels(vv, tried, n + 1, bucket, nLost + 1)
  {
    forall j ensures |Hashed(tried, n + 1, bucket, j)| == |Hashed(tried, n, bucket, j)| + if k == j then 1 else 0 {
      HashedStep(tried, n, bucket, j);
    }
    if nLost > 0 {
      var f :| |Hashed(tried, n, bucket, f)| > TRIED_BUCKET_SIZE;
      assert |Hashed(tried, n + 1, bucket, f)| > TRIED_BUCKET_SIZE;
    }
    if |vv[k]| >= TRIED_BUCKET_SIZE {
      assert |Hashed(tried, n + 1, bucket, k)| > TRIED_BUCKET_SIZE;
    }
  }

  /** A fresh tried entry is appended to its bucket. */
  lemma TriedLoad(info: Infos, vv: seq<seq<int>>, bucket: Service -> nat, id: int, e: AddrInfo, k: nat)
    requires TriedOk(info, vv, bucket) && id !in info && e.fInTried && e.nRefCount == 0 && k == bucket(e.addr) &&
      k < |vv| && |vv[k]| < TRIED_BUCKET_SIZE
    ensures TriedOk(info[id := e], vv[k := vv[k] + [id]], bucket)
  {
    var plain := info[id := e.(fInTried := false)];
    assert TriedOk(plain, vv, bucket);
    TriedAppend(plain, vv, bucket, id, k);
    assert plain[id := Promoted(plain[id])] == info[id := e];
  }

  /** The loop that reads the tried entries; those for a full bucket are lost. */
  method LoadTried(am: CAddrMan, s: Saved) returns (nLost: int, ghost kept: seq<nat>)
    requires WellFormed(s) && Filed(am.mapInfo, am.mapAddr, am.vRandom, s.infos) && Fresh(am.mapInfo, s.nNew, am.vvNew)
    requires am.nIdCount == s.nNew && am.nTried == s.nTried && am.vvTried == seq(TRIED_BUCKET_COUNT, _ => [])
    modifies am`mapInfo, am`mapAddr, am`vRandom, am`vvTried, am`nIdCount
    ensures Kept(kept, s.nTried, nLost) && Filed(am.mapInfo, am.mapAddr, am.vRandom, s.infos + Pick(s.tried, kept))
    ensures Fresh(am.mapInfo, s.nNew, am.vvNew) && am.nIdCount == s.nNew + |kept| &&
      TriedOk(am.mapInfo, am.vvTried, am.TriedBucket)
    ensures Levels(am.vvTried, s.tried, |s.tried|, am.TriedBucket, nLost)
  {
    nLost, kept := 0, [];
    assert s.infos + Pick(s.tried, kept) == s.infos;
    hide Filed, Fresh;
    var n := 0;
    while n < am.nTried
      invariant 0 <= n <= am.nTried && Kept(kept, n, nLost)
      invariant Filed(am.mapInfo, am.mapAddr, am.vRandom, s.infos + Pick(s.tried, kept))
      invariant Fresh(am.mapInfo, s.nNew, am.vvNew) && am.nIdCount == s.nNew + |kept| &&
        TriedOk(am.mapInfo, am.vvTried, am.TriedBucket)
      invariant Levels(am.vvTried, s.tried, n, am.TriedBucket, nLost)
    {
      nLost, kept := LoadOneTried(am, s, n, nLost, kept);
      n := n + 1;
    }
  }

  lemma KeepEntry(s: Saved, n: nat, nLost: int, kept: seq<nat>, info: Infos, addrs: map<NetAddr, int>, rnd: seq<int>,
                  vv: seq<set<int>>, e: AddrInfo)
    requires WellFormed(s) && n < s.nTried && Kept(kept, n, nLost)
    requires Filed(info, addrs, rnd, s.infos + Pick(s.tried, kept)) && Fresh(info, s.nNew, vv)
    requires e == Restore(s.tried[n]).(nRandomPos := |rnd|, fInTried := true)
    ensures var id, more := |rnd|, kept + [n];
      && id == s.nNew + |kept| && id !in info && Kept(more, n + 1, nLost) && Fresh(info[id := e], s.nNew, vv)
      && Filed(info[id := e], addrs[e.addr.ip := id], rnd + [id], s.infos + Pick(s.tried, more))
  {
    var entries := s.infos + Pick(s.tried, kept);
    TriedIpsDiffer(s, kept, n, nLost);
    FileOne(info, addrs, rnd, entries, s.tried[n], e);
    FreshMore(info, s.nNew, vv, |rnd|, e);
    assert s.infos + Pick(s.tried, kept + [n]) == entries + [s.tried[n]];
  }

  method LoadOneTried(am: CAddrMan, s: Saved, n: nat, nLost: int, ghost kept: seq<nat>)
    returns (lost: int, ghost more: seq<nat>)
    requires WellFormed(s) && n < s.nTried && Kept(kept, n, nLost)
    requires Filed(am.mapInfo, am.mapAddr, am.vRandom, s.infos + Pick(s.tried, kept))
    requires Fresh(am.mapInfo, s.nNew, am.vvNew) && am.nIdCount == s.nNew + |kept| &&
      TriedOk(am.mapInfo, am.vvTried, am.TriedBucket)
    requires Levels(am.vvTried, s.tried, n, am.TriedBucket, nLost)
    modifies am`mapInfo, am`mapAddr, am`vRandom, am`vvTried, am`nIdCount
    ensures Kept(more, n + 1, lost) && Filed(am.mapInfo, am.mapAddr, am.vRandom, s.infos + Pick(s.tried, more))
    ensures Fresh(am.mapInfo, s.nNew, am.vvNew) && am.nIdCount == s.nNew + |more| &&
      TriedOk(am.mapInfo, am.vvTried, am.TriedBucket)
    ensures Levels(am.vvTried, s.tried, n + 1, am.TriedBucket, lost)
  {
    hide Filed, Fresh, Levels;
    lost, more := nLost, kept;
    var e := Restore(s.tried[n]);
    var k := am.TriedBucket(e.addr);
    LevelsStep(am.vvTried, s.tried, n, am.TriedBucket, nLost, k, am.nIdCount);
    if |am.vvTried[k]| < TRIED_BUCKET_SIZE {
      e := e.(nRandomPos := |am.vRandom|, fInTried := true);
      KeepEntry(s, n, nLost, kept, am.mapInfo, am.mapAddr, am.vRandom, am.vvNew, e);
      TriedLoad(am.mapInfo, am.vvTried, am.TriedBucket, am.nIdCount, e, k);
      more := kept + [n];
      hide *;
      am.vRandom := am.vRandom + [am.nIdCount];
      am.mapInfo := am.mapInfo[am.nIdCount := e];
      am.mapAddr := am.mapAddr[e.addr.ip := am.nIdCount];
      am.vvTried := am.vvTried[k := am.vvTried[k] + [am.nIdCount]];
      am.nIdCount := am.nIdCount + 1;
    } else {
      lost := nLost + 1;
    }
  }

  /** Every entry counts the buckets that hold it. */
  ghost function Counted(info: Infos, vv: seq<set<int>>): Infos {
    map id | id in info :: info[id].(nRefCount := Holding(vv, id))
  }

  lemma CountOne(info: Infos, vv: seq<set<int>>, b: nat, i: int)
    requires b < |vv| && i in info && i !in vv[b]
    ensures Counted(info, vv)[i := Inc(Counted(info, vv)[i])] == Counted(info, vv[b := vv[b] + {i}])
  {
    forall g ensures Holding(vv[b := vv[b] + {i}], g) == Holding(vv, g) + if g == i then 1 else 0 {
      HoldingUpdate(vv, b, vv[b] + {i}, g);
    }
  }

  /** The first b buckets are read. */
  ghost function Partial(buckets: seq<seq<int>>, b: nat): seq<set<int>> {
    seq(|buckets|, j requires 0 <= j < |buckets| => if j < b then Elements(buckets[j]) else {})
  }

  lemma {:induction false} HoldingMono(vv: seq<set<int>>, ww: seq<set<int>>, i: int)
    requires |vv| == |ww| && forall b :: 0 <= b < |vv| && i in vv[b] ==> i in ww[b]
    ensures Holding(vv, i) <= Holding(ww, i)
  {
    if vv != [] {
      HoldingMono(vv[..|vv| - 1], ww[..|ww| - 1], i);
    }
  }

  /** An entry of the next bucket is in less than four of the buckets read so far. */
  lemma RoomForMore(s: Saved, b: nat, i: int)
    requires WellFormed(s) && s.nUBuckets == NEW_BUCKET_COUNT && b < |s.buckets| && i in s.buckets[b]
    ensures Holding(Partial(s.buckets, b), i) < NEW_BUCKETS_PER_ADDRESS
  {
    var now := Partial(s.buckets, b);
    assert i in Elements(s.buckets[b]);
    HoldingUpdate(now, b, Elements(s.buckets[b]), i);
    HoldingMono(now[b := Elements(s.buckets[b])], Sets(s.buckets), i);
    assert 0 <= i < s.nNew;
    assert Referenced(Holding(Sets(s.buckets), i));
  }

  /** The loop that reads one bucket. */
  method LoadBucket(am: CAddrMan, s: Saved, b: nat, ghost info: Infos)
    requires WellFormed(s) && b < |s.buckets| && am.mapInfo == Counted(info, am.vvNew)
    requires forall i :: 0 <= i < s.nNew ==> i in info
    requires s.nUBuckets == NEW_BUCKET_COUNT ==> am.vvNew == Partial(s.buckets, b)
    modifies am`mapInfo, am`vvNew
    ensures am.vvNew == if s.nUBuckets == NEW_BUCKET_COUNT then Partial(s.buckets, b + 1) else old(am.vvNew)
    ensures am.mapInfo == Counted(info, am.vvNew)
  {
    var list := s.buckets[b];
    ghost var start := am.vvNew;
    var n := 0;
    BucketBegun(s, b);
    while n < |list|
      invariant 0 <= n <= |list| && am.mapInfo == Counted(info, am.vvNew)
      invariant am.vvNew == if s.nUBuckets == NEW_BUCKET_COUNT then start[b := Elements(list[..n])] else start
    {
      var nIndex := list[n];
      assert InRange(list, s.nNew);
      if s.nUBuckets == NEW_BUCKET_COUNT && am.mapInfo[nIndex].nRefCount < NEW_BUCKETS_PER_ADDRESS {
        JoinNext(s, b, n, info);
        am.mapInfo := am.mapInfo[nIndex := Inc(am.mapInfo[nIndex])];
        am.vvNew := am.vvNew[b := am.vvNew[b] + {nIndex}];
      } else {
        NoneRefused(s, b, n);
      }
      n := n + 1;
    }
    assert list[..n] == list;
    assert s.nUBuckets == NEW_BUCKET_COUNT ==> start[b := Elements(list)] == Partial(s.buckets, b + 1);
  }

  lemma BucketBegun(s: Saved, b: nat)
    requires b < |s.buckets|
    ensures Partial(s.buckets, b)[b := Elements(s.buckets[b][..0])] == Partial(s.buckets, b)
  {
    assert Elements(s.buckets[b][..0]) == {};
  }

  /** The next entry of a bucket joins it. */
  lemma JoinNext(s: Saved, b: nat, n: nat, info: Infos)
    requires WellFormed(s) && s.nUBuckets == NEW_BUCKET_COUNT && b < |s.buckets| && n < |s.buckets[b]|
    requires s.buckets[b][n] in info
    ensures var list, i := s.buckets[b], s.buckets[b][n];
      var vv := Partial(s.buckets, b)[b := Elements(list[..n])];
      && vv[b := vv[b] + {i}] == Partial(s.buckets, b)[b := Elements(list[..n + 1])]
      && Counted(info, vv)[i := Inc(Counted(info, vv)[i])] == Counted(info, vv[b := vv[b] + {i}])
  {
    var list, i := s.buckets[b], s.buckets[b][n];
    var vv := Partial(s.buckets, b)[b := Elements(list[..n])];
    assert list[..n + 1] == list[..n] + [i];
    assert Elements(list[..n + 1]) == Elements(list[..n]) + {i};
    assert BucketFine(list, s.nNew);
    CountOne(info, vv, b, i);
  }

  /** No reference is refused, since every entry is in four buckets at most. */
  lemma NoneRefused(s: Saved, b: nat, n: nat)
    requires WellFormed(s) && b < |s.buckets| && n < |s.buckets[b]|
    ensures s.nUBuckets == NEW_BUCKET_COUNT ==>
      Holding(Partial(s.buckets, b)[b := Elements(s.buckets[b][..n])], s.buckets[b][n]) < NEW_BUCKETS_PER_ADDRESS
  {
    if s.nUBuckets == NEW_BUCKET_COUNT {
      var list, i := s.buckets[b], s.buckets[b][n];
      assert BucketFine(list, s.nNew);
      RoomForMore(s, b, i);
      HoldingUpdate(Partial(s.buckets, b), b, Elements(list[..n]), i);
    }
  }

  /** The loop that reads the buckets; with another bucket count they are read and dropped. */
  method LoadBuckets(am: CAddrMan, s: Saved)
    requires WellFormed(s) && am.vvNew == Begun(s, |s.infos|, am.NewBucket) && Fresh(am.mapInfo, s.nNew, am.vvNew)
    requires forall i :: 0 <= i < s.nNew ==> i in am.mapInfo
    modifies am`mapInfo, am`vvNew
    ensures am.vvNew == Loaded(s, am.NewBucket) && am.mapInfo == Counted(old(am.mapInfo), am.vvNew)
  {
    ghost var info := am.mapInfo;
    assert am.mapInfo == Counted(info, am.vvNew);
    assert s.nUBuckets == NEW_BUCKET_COUNT ==> am.vvNew == Partial(s.buckets, 0);
    var b := 0;
    while b < s.nUBuckets
      invariant 0 <= b <= s.nUBuckets && am.mapInfo == Counted(info, am.vvNew)
      invariant am.vvNew == if s.nUBuckets == NEW_BUCKET_COUNT then Partial(s.buckets, b) else old(am.vvNew)
    {
      LoadBucket(am, s, b, info);
      b := b + 1;
    }
    assert s.nUBuckets == NEW_BUCKET_COUNT ==> Partial(s.buckets, b) == Sets(s.buckets);
  }

  /** Rebuilds the tables from a stream; everything the invariant asks for is kept but the
      size of new buckets, which is not looked at when they are built anew. */
  method Load(am: CAddrMan, s: Saved) returns (nLost: int, ghost kept: seq<nat>)
    requires WellFormed(s)
    modifies am
    ensures am.Valid() <==> NewFits(s, am.NewBucket)
    ensures Kept(kept, s.nTried, nLost) && (nLost == 0 <==> Fits(s.tried, am.TriedBucket))
    ensures am.nNew == s.nNew && am.nTried == s.nTried - nLost && am.vvNew == Loaded(s, am.NewBucket)
    ensures Filed(am.mapInfo, am.mapAddr, am.vRandom, s.infos + Pick(s.tried, kept))
    ensures forall id :: id in am.mapInfo ==>
      (am.mapInfo[id].fInTried <==> id >= s.nNew) && am.mapInfo[id].nRefCount == Holding(am.vvNew, id)
    ensures TriedOk(am.mapInfo, am.vvTried, am.TriedBucket)
  {
    am.nNew, am.nTried := s.nNew, s.nTried;
    am.nIdCount, am.mapInfo, am.mapAddr, am.vRandom := 0, map[], map[], [];
    am.vvTried := seq(TRIED_BUCKET_COUNT, _ => []);
    am.vvNew := seq(NEW_BUCKET_COUNT, _ => {});
    LoadNew(am, s);
    am.nIdCount := am.nNew;
    nLost, kept := LoadTried(am, s);
    am.nTried := am.nTried - nLost;
    ghost var info := am.mapInfo;
    LoadBuckets(am, s);
    LoadedValid(am, s, nLost, kept, info);
    LostIff(am.mapInfo, am.vvTried, am.TriedBucket, s.tried, nLost);
  }

  lemma LostIff(info: Infos, vv: seq<seq<int>>, bucket: Service -> nat, tried: seq<SavedInfo>, nLost: int)
    requires TriedOk(info, vv, bucket) && Levels(vv, tried, |tried|, bucket, nLost) && nLost >= 0
    requires forall a :: bucket(a) < TRIED_BUCKET_COUNT
    ensures nLost == 0 <==> Fits(tried, bucket)
  {
    if nLost == 0 {
      forall k ensures |Hashed(tried, |tried|, bucket, k)| <= TRIED_BUCKET_SIZE {
        if 0 <= k < |vv| {
          assert |vv[k]| == |Hashed(tried, |tried|, bucket, k)|;
        } else {
          assert Hashed(tried, |tried|, bucket, k) == {};
        }
      }
    }
  }

  lemma {:induction false} ElementsSize(list: seq<int>)
    ensures |Elements(list)| <= |list|
  {
    if list != [] {
      var n := |list| - 1;
      ElementsSize(list[..n]);
      assert list == list[..n] + [list[n]];
      assert Elements(list) == Elements(list[..n]) + {list[n]};
    } else {
      assert Elements(list) == {};
    }
  }

  ghost function Range(lo: int, hi: int): (r: set<int>)
    requires lo <= hi
    ensures |r| == hi - lo && forall x :: x in r <==> lo <= x < hi
    decreases hi - lo
  {
    if lo == hi then {} else Range(lo, hi - 1) + {hi - 1}
  }

  lemma LoadedNew(s: Saved, info: Infos, vv: seq<set<int>>, bucket: (Service, NetAddr) -> nat)
    requires WellFormed(s) && vv == Loaded(s, bucket) && forall a, c :: bucket(a, c) < NEW_BUCKET_COUNT
    requires forall i :: 0 <= i < s.nNew ==> i in info
    requires forall id :: id in info ==> id >= 0 && (info[id].fInTried <==> id >= s.nNew)
    ensures NewOk(Counted(info, vv), vv, -1) <==> NewFits(s, bucket)
  {
    var later := Counted(info, vv);
    if s.nUBuckets == NEW_BUCKET_COUNT {
      forall b | 0 <= b < |vv| ensures |vv[b]| <= NEW_BUCKET_SIZE && forall id :: id in vv[b] ==> 0 <= id < s.nNew {
        assert BucketFine(s.buckets[b], s.nNew);
        ElementsSize(s.buckets[b]);
      }
    }
    forall id | id in later ensures RefOk(later[id], Holding(vv, id), false) {
      if id >= s.nNew {
        HoldingPositive(vv, id);
      } else if s.nUBuckets == NEW_BUCKET_COUNT {
        assert Referenced(Holding(vv, id));
      } else {
        SpreadOnce(s.infos, bucket, id);
      }
    }
  }

  /** A bucket built anew holds an entry exactly when the entry hashes to it. */
  lemma SpreadOnce(infos: seq<SavedInfo>, bucket: (Service, NetAddr) -> nat, i: nat)
    requires i < |infos| && bucket(infos[i].addr, infos[i].source) < NEW_BUCKET_COUNT
    ensures Holding(Spread(infos, |infos|, bucket), i) == 1
  {
    HeldOnce(Spread(infos, |infos|, bucket), bucket(infos[i].addr, infos[i].source), i);
  }

  lemma HeldOnce(vv: seq<set<int>>, b: nat, i: int)
    requires b < |vv| && forall c :: 0 <= c < |vv| ==> (i in vv[c] <==> c == b)
    ensures Holding(vv, i) == 1
  {
    HoldingUpdate(vv, b, {}, i);
    HoldingPositive(vv[b := {}], i);
  }

  ghost function Total(vv: seq<set<int>>): nat {
    if vv == [] then 0 else Total(vv[..|vv| - 1]) + |vv[|vv| - 1]|
  }

  lemma {:induction false} TotalUpdate(vv: seq<set<int>>, b: nat, s: set<int>)
    requires b < |vv|
    ensures Total(vv[b := s]) == Total(vv) - |vv[b]| + |s|
  {
    var k := |vv| - 1;
    if b < k {
      TotalUpdate(vv[..k], b, s);
      assert vv[b := s][..k] == vv[..k][b := s];
    } else {
      assert vv[b := s][..k] == vv[..k];
    }
  }

  lemma {:induction false} TotalBounded(vv: seq<set<int>>, most: nat)
    requires forall b :: 0 <= b < |vv| ==> |vv[b]| <= most
    ensures Total(vv) <= |vv| * most
  {
    if vv != [] {
      TotalBounded(vv[..|vv| - 1], most);
    }
  }

  lemma {:induction false} TotalSpread(infos: seq<SavedInfo>, n: nat, bucket: (Service, NetAddr) -> nat)
    requires n <= |infos| && forall a, c :: bucket(a, c) < NEW_BUCKET_COUNT
    ensures Total(Spread(infos, n, bucket)) == n
    decreases n
  {
    hide Spread, Total;
    if n == 0 {
      SpreadNone(infos, bucket);
      TotalBounded(Spread(infos, 0, bucket), 0);
    } else {
      var b := bucket(infos[n - 1].addr, infos[n - 1].source);
      var vv := Spread(infos, n - 1, bucket);
      SpreadStep(infos, n - 1, bucket, b);
      TotalUpdate(vv, b, vv[b] + {n - 1});
      TotalSpread(infos, n - 1, bucket);
    }
  }

  lemma {:induction false} PickSome(from: set<int>, n: nat) returns (ids: seq<int>)
    requires n <= |from|
    ensures |ids| == n && (forall i :: 0 <= i < n ==> ids[i] in from)
    ensures forall i, j :: 0 <= i < j < n ==> ids[i] != ids[j]
  {
    ids := [];
    if n > 0 {
      HasElement(from);
      var x: int :| x in from;
      var more := PickSome(from - {x}, n - 1);
      ids := [x] + more;
    }
  }

  ghost function At(i: int): SavedInfo {
    SavedInfo(Service(if i < 0 then 0 else i, 0), 0, 0, 0, 0, 0)
  }

  ghost predicate AllDiffer(ids: seq<int>) {
    && |ids| == NEW_BUCKET_SIZE + 1 && (forall i :: 0 <= i < |ids| ==> ids[i] >= 0)
    && forall i, j :: 0 <= i < j < |ids| ==> ids[i] != ids[j]
  }

  /** Of enough addresses, more than a bucket has room for hash to the same one. */
  lemma Collision(bucket: (Service, NetAddr) -> nat) returns (ids: seq<int>, b: nat)
    requires forall a, c :: bucket(a, c) < NEW_BUCKET_COUNT
    ensures AllDiffer(ids) && b < NEW_BUCKET_COUNT
    ensures forall i :: 0 <= i < |ids| ==> bucket(At(ids[i]).addr, 0) == b
  {
    var n := NEW_BUCKET_COUNT * NEW_BUCKET_SIZE + 1;
    var infos := seq(n, i requires 0 <= i => At(i));
    var vv := Spread(infos, n, bucket);
    TotalSpread(infos, n, bucket);
    if forall c :: 0 <= c < |vv| ==> |vv[c]| <= NEW_BUCKET_SIZE {
      TotalBounded(vv, NEW_BUCKET_SIZE);
    }
    b :| 0 <= b < |vv| && |vv[b]| > NEW_BUCKET_SIZE;
    ids := PickSome(vv[b], NEW_BUCKET_SIZE + 1);
  }

  /** The numbers below 65 in two buckets. */
  ghost function TwoBuckets(): seq<seq<int>> {
    [seq(NEW_BUCKET_SIZE, j => j), [NEW_BUCKET_SIZE]]
  }

  lemma HeldInTwo(i: nat)
    requires i <= NEW_BUCKET_SIZE
    ensures Holding(Sets(TwoBuckets()), i) == 1
  {
    var b := if i < NEW_BUCKET_SIZE then 0 else 1;
    assert TwoBuckets()[0] == seq(NEW_BUCKET_SIZE, j => j);
    if b == 0 {
      assert TwoBuckets()[0][i] == i;
    }
    HeldOnce(Sets(TwoBuckets()), b, i);
  }

  ghost function Crowd(ids: seq<int>): (s: Saved)
    ensures s.nNew == |s.infos| == |ids| && forall i :: 0 <= i < |ids| ==> s.infos[i] == At(ids[i])
    ensures s.nTried == 0 && s.tried == [] && s.nUBuckets == 2 && s.buckets == TwoBuckets()
  {
    Saved(|ids|, 0, 2, seq(|ids|, i requires 0 <= i < |ids| => At(ids[i])), [], TwoBuckets())
  }

  lemma CrowdBucketed(ids: seq<int>)
    requires AllDiffer(ids)
    ensures Bucketed(Crowd(ids))
  {
    var s := Crowd(ids);
    forall b | 0 <= b < |s.buckets| ensures BucketFine(s.buckets[b], s.nNew) {
    }
    hide AllDiffer, Crowd, TwoBuckets;
    forall i: int | 0 <= i < s.nNew ensures Referenced(Holding(Sets(s.buckets), i)) {
      HeldInTwo(i);
    }
  }

  lemma CrowdWellFormed(ids: seq<int>)
    requires AllDiffer(ids)
    ensures WellFormed(Crowd(ids))
  {
    var s := Crowd(ids);
    CrowdBucketed(ids);
    assert forall b :: 0 <= b < |s.buckets| ==> BucketFine(s.buckets[b], s.nNew);
    hide Bucketed, TwoBuckets, Crowd;
    assert s.infos + s.tried == s.infos;
  }

  lemma CrowdOverfull(ids: seq<int>, bucket: (Service, NetAddr) -> nat, b: nat)
    requires AllDiffer(ids) && b < NEW_BUCKET_COUNT
    requires forall i :: 0 <= i < |ids| ==> bucket(At(ids[i]).addr, 0) == b
    ensures !NewFits(Crowd(ids), bucket)
  {
    hide TwoBuckets;
    var infos := Crowd(ids).infos;
    assert Spread(infos, |infos|, bucket)[b] == Range(0, |infos|);
  }

  /** Whatever addresses hash to, loading a stream that kept all limits with two new buckets can
      overfill one. */
  lemma OverfullAfterLoad(bucket: (Service, NetAddr) -> nat)
    requires forall a, c :: bucket(a, c) < NEW_BUCKET_COUNT
    ensures exists s :: WellFormed(s) && Bucketed(s) && s.nUBuckets == 2 && !NewFits(s, bucket)
  {
    var ids, b := Collision(bucket);
    var s := Crowd(ids);
    CrowdBucketed(ids);
    CrowdWellFormed(ids);
    CrowdOverfull(ids, bucket, b);
    hide WellFormed, Bucketed, TwoBuckets, NewFits;
    assert s.nUBuckets == 2;
  }

  lemma LoadedCounts(info: Infos, nNew: int, n: int)
    requires 0 <= nNew <= n && (forall id :: id in info <==> 0 <= id < n)
    requires forall id :: id in info ==> (info[id].fInTried <==> id >= nNew)
    ensures CountsOk(info, n - nNew, nNew)
  {
    assert NewIds(info) == Range(0, nNew);
    assert TriedIds(info) == Range(nNew, n);
  }

  lemma LoadedFields(s: Saved, kept: seq<nat>, nLost: int, info: Infos, addrs: map<NetAddr, int>, rnd: seq<int>)
    requires WellFormed(s) && Kept(kept, s.nTried, nLost) && Filed(info, addrs, rnd, s.infos + Pick(s.tried, kept))
    requires forall id :: id in info ==> (info[id].fInTried <==> id >= s.nNew)
    ensures FieldsOk(info, s.nNew + |kept|) && RandOk(info, rnd)
  {
    var entries := s.infos + Pick(s.tried, kept);
    forall id | id in info
      ensures info[id].nLastSuccess >= 0 && info[id].nAttempts >= 0 &&
        (info[id].fInTried ==> info[id].nLastSuccess != 0)
    {
      assert Persist(info[id]) == entries[id];
    }
  }

  /** Counting references changes nothing else. */
  lemma CountedFiled(info: Infos, vv: seq<set<int>>, addrs: map<NetAddr, int>, rnd: seq<int>, entries: seq<SavedInfo>)
    requires Filed(info, addrs, rnd, entries)
    ensures Filed(Counted(info, vv), addrs, rnd, entries)
  {
  }

  lemma CountedTried(info: Infos, vv: seq<set<int>>, vvTried: seq<seq<int>>, bucket: Service -> nat)
    requires TriedOk(info, vvTried, bucket)
    ensures TriedOk(Counted(info, vv), vvTried, bucket)
  {
    var later := Counted(info, vv);
    forall id ensures id in info <==> id in later {
    }
    forall id | id in info ensures later[id].fInTried == info[id].fInTried && later[id].addr == info[id].addr {
    }
  }

  lemma LoadedValid(am: CAddrMan, s: Saved, nLost: int, kept: seq<nat>, info: Infos)
    requires WellFormed(s) && Kept(kept, s.nTried, nLost)
    requires forall id :: id in info ==> (info[id].fInTried <==> id >= s.nNew)
    requires Filed(info, am.mapAddr, am.vRandom, s.infos + Pick(s.tried, kept))
    requires TriedOk(info, am.vvTried, am.TriedBucket) && am.vvNew == Loaded(s, am.NewBucket) &&
      am.mapInfo == Counted(info, am.vvNew)
    requires am.nIdCount == s.nNew + |kept| && am.nNew == s.nNew && am.nTried == |kept|
    ensures am.Valid() <==> NewFits(s, am.NewBucket)
    ensures Filed(am.mapInfo, am.mapAddr, am.vRandom, s.infos + Pick(s.tried, kept))
    ensures TriedOk(am.mapInfo, am.vvTried, am.TriedBucket)
  {
    hide NewOk, TriedOk, CountsOk, AddrOk, RandOk, FieldsOk, NewFits, Loaded;
    LoadedNew(s, info, am.vvNew, am.NewBucket);
    CountedFiled(info, am.vvNew, am.mapAddr, am.vRandom, s.infos + Pick(s.tried, kept));
    CountedTried(info, am.vvNew, am.vvTried, am.TriedBucket);
    LoadedFields(s, kept, nLost, am.mapInfo, am.mapAddr, am.vRandom);
    LoadedCounts(am.mapInfo, s.nNew, s.nNew + |kept|);
  }

  // --------------------------------------------------------------------- round trip

  lemma {:induction false} HoldingSame(vv: seq<set<int>>, ww: seq<set<int>>, i: int, j: int)
    requires |vv| == |ww| && forall b :: 0 <= b < |vv| ==> (i in vv[b] <==> j in ww[b])
    ensures Holding(vv, i) == Holding(ww, j)
  {
    if vv != [] {
      HoldingSame(vv[..|vv| - 1], ww[..|ww| - 1], i, j);
    }
  }

  /** An index is saved in the buckets that hold its id. */
  lemma IndexHeld(s: Saved, newIds: seq<int>, triedIds: seq<int>, info: Infos, vvNew: seq<set<int>>, i: nat)
    requires SavedAs(s, newIds, triedIds, info, vvNew) && i < |newIds|
    ensures forall b :: 0 <= b < |vvNew| ==> (i in Sets(s.buckets)[b] <==> newIds[i] in vvNew[b])
    ensures Holding(Sets(s.buckets), i) == Holding(vvNew, newIds[i])
  {
    forall b | 0 <= b < |vvNew| ensures i in Sets(s.buckets)[b] <==> newIds[i] in vvNew[b] {
      assert BucketSaved(s.buckets[b], newIds, vvNew[b]);
    }
    HoldingSame(Sets(s.buckets), vvNew, i, newIds[i]);
  }

  lemma SavedIps(s: Saved, newIds: seq<int>, triedIds: seq<int>, info: Infos, vvNew: seq<set<int>>,
                 addrs: map<NetAddr, int>)
    requires SavedAs(s, newIds, triedIds, info, vvNew) && AddrOk(info, addrs)
    ensures DistinctIps(s.infos + s.tried)
  {
    var ids, entries := newIds + triedIds, s.infos + s.tried;
    forall i | 0 <= i < |ids| ensures ids[i] in info && entries[i] == Persist(info[ids[i]]) {
      if i < |newIds| {
        assert ids[i] == newIds[i];
      } else {
        assert ids[i] == triedIds[i - |newIds|];
      }
    }
    forall i, j | 0 <= i < j < |ids| ensures ids[i] != ids[j] {
      if i < |newIds| <= j {
        assert ids[i] in newIds && ids[j] in triedIds;
        assert ids[i] in NewIds(info) && ids[j] in TriedIds(info);
      }
    }
    forall i, j | 0 <= i < j < |entries| ensures entries[i].addr.ip != entries[j].addr.ip {
      assert ids[i] in info && ids[j] in info;
      assert addrs[info[ids[i]].addr.ip] == ids[i] && addrs[info[ids[j]].addr.ip] == ids[j];
    }
  }

  lemma SavedFields(s: Saved, newIds: seq<int>, triedIds: seq<int>, info: Infos, vvNew: seq<set<int>>, nIdCount: int)
    requires SavedAs(s, newIds, triedIds, info, vvNew) && FieldsOk(info, nIdCount)
    ensures forall i :: 0 <= i < |s.infos| ==> s.infos[i].nLastSuccess >= 0 && s.infos[i].nAttempts >= 0
    ensures forall i :: 0 <= i < |s.tried| ==> s.tried[i].nLastSuccess > 0 && s.tried[i].nAttempts >= 0
  {
    forall i | 0 <= i < |s.infos| ensures s.infos[i].nLastSuccess >= 0 && s.infos[i].nAttempts >= 0 {
      var id := newIds[i];
      assert id in info && s.infos[i] == Persist(info[id]);
    }
    forall i | 0 <= i < |s.tried| ensures s.tried[i].nLastSuccess > 0 && s.tried[i].nAttempts >= 0 {
      assert triedIds[i] in triedIds;
      assert triedIds[i] in TriedIds(info);
    }
  }

  /** What Save writes is well formed. */
  lemma SavedWellFormed(am: CAddrMan, s: Saved, newIds: seq<int>, triedIds: seq<int>)
    requires am.Valid() && SavedAs(s, newIds, triedIds, am.mapInfo, am.vvNew)
    ensures WellFormed(s)
  {
    SavedIps(s, newIds, triedIds, am.mapInfo, am.vvNew, am.mapAddr);
    SavedFields(s, newIds, triedIds, am.mapInfo, am.vvNew, am.nIdCount);
    forall i: int | 0 <= i < s.nNew ensures Referenced(Holding(Sets(s.buckets), i)) {
      IndexHeld(s, newIds, triedIds, am.mapInfo, am.vvNew, i);
      assert newIds[i] in newIds;
      assert newIds[i] in NewIds(am.mapInfo);
      assert RefOk(am.mapInfo[newIds[i]], Holding(am.vvNew, newIds[i]), newIds[i] == -1);
    }
    forall b | 0 <= b < |s.buckets| ensures BucketFine(s.buckets[b], s.nNew) {
      assert BucketSaved(s.buckets[b], newIds, am.vvNew[b]);
    }
  }

  /** Distinct ids picked by a set of positions are as many. */
  lemma {:induction false} PickedSize(positions: set<int>, ids: seq<int>, all: set<int>)
    requires Ascending(ids) && forall i :: i in positions ==> 0 <= i < |ids| && ids[i] in all
    ensures |positions| <= |all|
    decreases |positions|
  {
    if positions != {} {
      HasElement(positions);
      var i: int :| i in positions;
      PickedSize(positions - {i}, ids, all - {ids[i]});
    }
  }

  /** The saved tried entries fit, since they fitted before. */
  lemma SavedFits(am: CAddrMan, s: Saved, newIds: seq<int>, triedIds: seq<int>)
    requires am.Valid() && SavedAs(s, newIds, triedIds, am.mapInfo, am.vvNew)
    ensures Fits(s.tried, am.TriedBucket)
  {
    forall k ensures |Hashed(s.tried, |s.tried|, am.TriedBucket, k)| <= TRIED_BUCKET_SIZE {
      var h := Hashed(s.tried, |s.tried|, am.TriedBucket, k);
      if 0 <= k < |am.vvTried| {
        forall i | i in h ensures triedIds[i] in Elements(am.vvTried[k]) {
          assert triedIds[i] in triedIds;
          assert triedIds[i] in TriedIds(am.mapInfo);
        }
        PickedSize(h, triedIds, Elements(am.vvTried[k]));
        ElementsSize(am.vvTried[k]);
      } else {
        assert h == {};
      }
    }
  }

  lemma SameFits(tried: seq<SavedInfo>, bucket: Service -> nat, other: Service -> nat)
    requires Fits(tried, bucket) && forall a :: bucket(a) == other(a)
    ensures Fits(tried, other)
  {
    forall k ensures |Hashed(tried, |tried|, other, k)| <= TRIED_BUCKET_SIZE {
      assert Hashed(tried, |tried|, other, k) == Hashed(tried, |tried|, bucket, k);
    }
  }

  /** Where an old id is found after a reload: new entries first, then tried ones, each in
      ascending order of their old ids. */
  ghost predicate Renamed(newIds: seq<int>, triedIds: seq<int>, id: int, now: int) {
    || (0 <= now < |newIds| && newIds[now] == id)
    || (|newIds| <= now < |newIds| + |triedIds| && triedIds[now - |newIds|] == id)
  }

  /** Every entry of the one address manager is in the other under its new id. */
  ghost predicate Preserved(newIds: seq<int>, triedIds: seq<int>, info: Infos, vvNew: seq<set<int>>,
                            vvTried: seq<seq<int>>,
                            info2: Infos, vvNew2: seq<set<int>>, vvTried2: seq<seq<int>>)
  {
    && |vvNew2| == |vvNew| && |vvTried2| == |vvTried|
    && (forall id :: id in info ==> exists now :: Renamed(newIds, triedIds, id, now))
    && (forall now :: now in info2 ==> exists id :: id in info && Renamed(newIds, triedIds, id, now))
    && (forall id, now :: Renamed(newIds, triedIds, id, now) ==>
          id in info && now in info2 && SameEntry(info[id], info2[now])
          && SamePlaces(vvNew, vvTried, id, vvNew2, vvTried2, now))
  }

  /** One id sits in the buckets that the other sits in. */
  ghost predicate SamePlaces(vvNew: seq<set<int>>, vvTried: seq<seq<int>>, id: int, vvNew2: seq<set<int>>,
                             vvTried2: seq<seq<int>>, now: int)
    requires |vvNew2| == |vvNew| && |vvTried2| == |vvTried|
  {
    && (forall b :: 0 <= b < |vvNew| ==> (id in vvNew[b] <==> now in vvNew2[b]))
    && (forall k :: 0 <= k < |vvTried| ==> (id in vvTried[k] <==> now in vvTried2[k]))
  }

  ghost predicate SameEntry(e: AddrInfo, f: AddrInfo) {
    && e.addr == f.addr && e.services == f.services && e.nTime == f.nTime && e.source == f.source
    && e.nLastSuccess == f.nLastSuccess && e.nAttempts == f.nAttempts
    && e.fInTried == f.fInTried && e.nRefCount == f.nRefCount
  }

  /** A saved and reloaded address manager, at the same bucket counts and under the same key:
      no tried entry is lost, and entries, reference counts and buckets are those from before. */
  method Reload(am: CAddrMan) returns (later: CAddrMan, nLost: int)
    requires am.Valid()
    ensures fresh(later) && later.Valid() && nLost == 0
    ensures Preserved(Ascent(NewIds(am.mapInfo)), Ascent(TriedIds(am.mapInfo)), am.mapInfo, am.vvNew, am.vvTried,
                      later.mapInfo, later.vvNew, later.vvTried)
  {
    ghost var newIds, triedIds := Ascent(NewIds(am.mapInfo)), Ascent(TriedIds(am.mapInfo));
    var s := Save(am);
    SavedWellFormed(am, s, newIds, triedIds);
    SavedFits(am, s, newIds, triedIds);
    later := new CAddrMan(am.triedHash, am.newHash);
    ghost var kept;
    nLost, kept := Load(later, s);
    assert Fits(s.tried, later.TriedBucket) by {
      SameFits(s.tried, am.TriedBucket, later.TriedBucket);
    }
    assert Reloaded(am, later, s, newIds, triedIds, kept);
    hide *;
    ReloadPreserves(am, later, s, newIds, triedIds, kept);
  }

  lemma ReloadPreserves(am: CAddrMan, later: CAddrMan, s: Saved, newIds: seq<int>, triedIds: seq<int>, kept: seq<nat>)
    requires Reloaded(am, later, s, newIds, triedIds, kept)
    ensures Preserved(newIds, triedIds, am.mapInfo, am.vvNew, am.vvTried, later.mapInfo, later.vvNew, later.vvTried)
  {
    hide Reloaded, Renamed, SameEntry, SamePlaces;
    SameShape(am, later, s, newIds, triedIds, kept);
    forall id, now | Renamed(newIds, triedIds, id, now)
      ensures id in am.mapInfo && now in later.mapInfo && SameEntry(am.mapInfo[id], later.mapInfo[now])
      ensures SamePlaces(am.vvNew, am.vvTried, id, later.vvNew, later.vvTried, now)
    {
      RenamedPreserved(am, later, s, newIds, triedIds, kept, id, now);
    }
    forall id | id in am.mapInfo ensures exists now :: Renamed(newIds, triedIds, id, now) {
      AllRenamed(am, newIds, triedIds, id);
    }
    forall now | now in later.mapInfo ensures exists id :: id in am.mapInfo && Renamed(newIds, triedIds, id, now) {
      var id := FromOld(am, later, s, newIds, triedIds, kept, now);
    }
  }

  lemma SameShape(am: CAddrMan, later: CAddrMan, s: Saved, newIds: seq<int>, triedIds: seq<int>, kept: seq<nat>)
    requires Reloaded(am, later, s, newIds, triedIds, kept)
    ensures |later.vvNew| == |am.vvNew| && |later.vvTried| == |am.vvTried|
    ensures Lists(newIds, NewIds(am.mapInfo)) && Lists(triedIds, TriedIds(am.mapInfo))
  {
  }

  lemma RenamedPreserved(am: CAddrMan, later: CAddrMan, s: Saved, newIds: seq<int>, triedIds: seq<int>,
                         kept: seq<nat>, id: int, now: int)
    requires Reloaded(am, later, s, newIds, triedIds, kept) && Renamed(newIds, triedIds, id, now)
    ensures id in am.mapInfo && now in later.mapInfo && SameEntry(am.mapInfo[id], later.mapInfo[now])
    ensures |later.vvNew| == |am.vvNew| && |later.vvTried| == |am.vvTried|
    ensures SamePlaces(am.vvNew, am.vvTried, id, later.vvNew, later.vvTried, now)
  {
    hide Reloaded, SameEntry, SamePlaces;
    SameShape(am, later, s, newIds, triedIds, kept);
    if now < |newIds| {
      NewPreserved(am, later, s, newIds, triedIds, kept, now);
    } else {
      TriedPreserved(am, later, s, newIds, triedIds, kept, now - |newIds|);
    }
  }

  lemma FromOld(am: CAddrMan, later: CAddrMan, s: Saved, newIds: seq<int>, triedIds: seq<int>, kept: seq<nat>,
                now: int) returns (id: int)
    requires Reloaded(am, later, s, newIds, triedIds, kept) && now in later.mapInfo
    ensures id in am.mapInfo && Renamed(newIds, triedIds, id, now)
  {
    assert 0 <= now < |newIds| + |triedIds|;
    id := if now < |newIds| then newIds[now] else triedIds[now - |newIds|];
    RenamedPreserved(am, later, s, newIds, triedIds, kept, id, now);
  }

  lemma AllRenamed(am: CAddrMan, newIds: seq<int>, triedIds: seq<int>, id: int)
    requires Lists(newIds, NewIds(am.mapInfo)) && Lists(triedIds, TriedIds(am.mapInfo)) && id in am.mapInfo
    ensures exists now :: Renamed(newIds, triedIds, id, now)
  {
    if am.mapInfo[id].fInTried {
      assert id in TriedIds(am.mapInfo);
      var j :| 0 <= j < |triedIds| && triedIds[j] == id;
      assert Renamed(newIds, triedIds, id, |newIds| + j);
    } else {
      assert id in NewIds(am.mapInfo);
      var j :| 0 <= j < |newIds| && newIds[j] == id;
      assert Renamed(newIds, triedIds, id, j);
    }
  }

  ghost predicate Reloaded(am: CAddrMan, later: CAddrMan, s: Saved, newIds: seq<int>, triedIds: seq<int>,
                           kept: seq<nat>)
    reads am, later
  {
    && am.Valid() && later.Valid() && later.triedHash == am.triedHash
    && SavedAs(s, newIds, triedIds, am.mapInfo, am.vvNew)
    && Kept(kept, s.nTried, 0) && later.vvNew == Sets(s.buckets)
    && Filed(later.mapInfo, later.mapAddr, later.vRandom, s.infos + Pick(s.tried, kept))
    && forall id :: id in later.mapInfo ==> (later.mapInfo[id].fInTried <==> id >= s.nNew)
  }

  lemma NewPreserved(am: CAddrMan, later: CAddrMan, s: Saved, newIds: seq<int>, triedIds: seq<int>, kept: seq<nat>,
                     i: nat)
    requires Reloaded(am, later, s, newIds, triedIds, kept) && i < |newIds|
    ensures newIds[i] in am.mapInfo && i in later.mapInfo && SameEntry(am.mapInfo[newIds[i]], later.mapInfo[i])
    ensures SamePlaces(am.vvNew, am.vvTried, newIds[i], later.vvNew, later.vvTried, i)
  {
    var id := newIds[i];
    assert id in newIds;
    assert id in NewIds(am.mapInfo);
    IndexHeld(s, newIds, triedIds, am.mapInfo, am.vvNew, i);
    assert RefOk(am.mapInfo[id], Holding(am.vvNew, id), id == -1);
    assert RefOk(later.mapInfo[i], Holding(later.vvNew, i), i == -1);
    assert Persist(later.mapInfo[i]) == (s.infos + Pick(s.tried, kept))[i] == s.infos[i];
    assert forall k :: 0 <= k < |am.vvTried| ==> id !in am.vvTried[k] && i !in later.vvTried[k];
  }

  lemma TriedPreserved(am: CAddrMan, later: CAddrMan, s: Saved, newIds: seq<int>, triedIds: seq<int>, kept: seq<nat>,
                       j: nat)
    requires Reloaded(am, later, s, newIds, triedIds, kept) && j < |triedIds|
    ensures var id, now := triedIds[j], |newIds| + j;
      && id in am.mapInfo && now in later.mapInfo && SameEntry(am.mapInfo[id], later.mapInfo[now])
      && SamePlaces(am.vvNew, am.vvTried, id, later.vvNew, later.vvTried, now)
  {
    var id, now := triedIds[j], |newIds| + j;
    assert id in triedIds;
    assert id in TriedIds(am.mapInfo);
    assert Persist(later.mapInfo[now]) == (s.infos + Pick(s.tried, kept))[now] == s.tried[j];
    assert RefOk(am.mapInfo[id], Holding(am.vvNew, id), id == -1);
    assert RefOk(later.mapInfo[now], Holding(later.vvNew, now), now == -1);
    forall k | 0 <= k < |am.vvTried| ensures id in am.vvTried[k] <==> k == am.TriedBucket(am.mapInfo[id].addr) {
    }
    forall k | 0 <= k < |later.vvTried| ensures now in later.vvTried[k] <==>
      k == later.TriedBucket(later.mapInfo[now].addr) {
    }
  }
}
