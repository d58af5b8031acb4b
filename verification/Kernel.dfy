/** The stake modifier (src/kernel.cpp): 64 bits, each from a block picked by hash out of the
    recent past. */
module Kernel {
  import opened Wrappers
  import opened Numbers
  import opened Sorting
  import opened Transactions
  import opened Blocks

  const MODIFIER_INTERVAL: nat := 10 * 60
  const MODIFIER_INTERVAL_RATIO: nat := 3
  const ROUNDS: nat := 64

  /** What the block index keeps beside the block, and the hash the selection uses. */
  datatype StakeData = StakeData(
    hashProof: Hash -> nat,
    entropyBit: Hash -> bool,
    generated: Hash -> bool,
    modifier: Hash -> nat,
    hash: (nat, nat) -> nat)

  type Candidate = (int, Hash)

  // ------------------------------------------------------------------ selection intervals

  function Section(nSection: nat): (s: nat)
    requires nSection < ROUNDS
  {
    MODIFIER_INTERVAL * 63 / (63 + (63 - nSection) * (MODIFIER_INTERVAL_RATIO - 1))
  }

  /** Later sections are longer, the last three times as long as the first. */
  lemma SectionsGrow(n: nat, m: nat)
    requires n <= m < ROUNDS
    ensures Section(n) <= Section(m) && Section(0) == MODIFIER_INTERVAL / 3 && Section(63) == MODIFIER_INTERVAL
  {
    var ratio := MODIFIER_INTERVAL_RATIO - 1;
    assert 63 + (63 - m) * ratio <= 63 + (63 - n) * ratio;
    QuotientGrows(MODIFIER_INTERVAL * 63, 63 + (63 - n) * ratio, 63 + (63 - m) * ratio);
  }

  /** The length of the first n sections. */
  function Sections(n: nat): nat
    requires n <= ROUNDS
  {
    if n == 0 then 0 else Sections(n - 1) + Section(n - 1)
  }

  method GetStakeModifierSelectionInterval() returns (nSelectionInterval: nat)
    ensures nSelectionInterval == Sections(ROUNDS)
  {
    nSelectionInterval := SumSections(ROUNDS);
  }

  method SumSections(n: nat) returns (sum: nat)
    requires n <= ROUNDS
    ensures sum == Sections(n)
  {
    sum := 0;
    var nSection := 0;
    while nSection < n
      invariant 0 <= nSection <= n && sum == Sections(nSection)
    {
      sum := sum + Section(nSection);
      nSection := nSection + 1;
    }
  }

  // ------------------------------------------------------------------------- one round

  function SelectionHash(d: StakeData, b: CBlockIndex, nStakeModifierPrev: nat): nat {
    var h := d.hash(d.hashProof(b.hash), nStakeModifierPrev);
    if b.block.IsProofOfStake() then h / 0x1_0000_0000 else h
  }

  /** A proof-of-stake candidate comes before a proof-of-work one exactly when its hash is less
      than 2^32 times the other; so of equal hashes, but not always. */
  lemma StakeFavored(d: StakeData, stake: CBlockIndex, work: CBlockIndex, m: nat)
    requires stake.block.IsProofOfStake() && !work.block.IsProofOfStake()
    ensures var a, b := d.hash(d.hashProof(stake.hash), m), d.hash(d.hashProof(work.hash), m);
      && (SelectionHash(d, stake, m) < SelectionHash(d, work, m) <==> a < b * 4_294_967_296)
      && (a == b > 0 ==> SelectionHash(d, stake, m) < SelectionHash(d, work, m))
      && (a == 4_294_967_296 && b == 0 ==> SelectionHash(d, work, m) < SelectionHash(d, stake, m))
  {
  }

  /** Every candidate is in the block index, under its hash and with its time. */
  ghost predicate Indexed(index: map<Hash, CBlockIndex>, cands: seq<Candidate>) {
    forall i :: 0 <= i < |cands| ==> IndexedOne(index, cands[i])
  }

  ghost predicate IndexedOne(index: map<Hash, CBlockIndex>, c: Candidate) {
    c.1 in index && index[c.1].hash == c.1 && index[c.1].block.time == c.0
  }

  /** In the order of their times, and at the same time of their hashes. */
  ghost predicate ByTime(cands: seq<Candidate>) {
    forall i, j :: 0 <= i < j < |cands| ==>
      cands[i].0 < cands[j].0 || (cands[i].0 == cands[j].0 && cands[i].1 <= cands[j].1)
  }

  predicate Open(cands: seq<Candidate>, selected: set<Hash>, i: int) {
    0 <= i < |cands| && cands[i].1 !in selected
  }

  function HashAt(d: StakeData, index: map<Hash, CBlockIndex>, cands: seq<Candidate>, m: nat, i: int): nat
    requires 0 <= i < |cands| && cands[i].1 in index
  {
    SelectionHash(d, index[cands[i].1], m)
  }

  /** The pick of a round: of the open candidates up to the stop time the one with the least
      selection hash, the first of them at that; without such a candidate the first open one. */
  ghost predicate IsPick(d: StakeData, index: map<Hash, CBlockIndex>, cands: seq<Candidate>, selected: set<Hash>,
                         stop: int, m: nat, i: int)
    requires Indexed(index, cands)
  {
    && Open(cands, selected, i)
    && (cands[i].0 <= stop ==> forall j :: Open(cands, selected, j) && cands[j].0 <= stop ==>
      Beats(d, index, cands, m, i, j))
    && (cands[i].0 > stop ==> forall j :: Open(cands, selected, j) ==> i <= j)
  }

  ghost predicate Beats(d: StakeData, index: map<Hash, CBlockIndex>, cands: seq<Candidate>, m: nat, i: int, j: int)
    requires Indexed(index, cands) && 0 <= i < |cands| && 0 <= j < |cands|
  {
    HashAt(d, index, cands, m, i) < HashAt(d, index, cands, m, j)
    || (HashAt(d, index, cands, m, i) == HashAt(d, index, cands, m, j) && i <= j)
  }

  /** There is only one pick. */
  lemma PickIsUnique(d: StakeData, index: map<Hash, CBlockIndex>, cands: seq<Candidate>, selected: set<Hash>,
                     stop: int, m: nat, i: int, j: int)
    requires Indexed(index, cands) && ByTime(cands)
    requires IsPick(d, index, cands, selected, stop, m, i) && IsPick(d, index, cands, selected, stop, m, j)
    ensures i == j
  {
    assert Open(cands, selected, i) && Open(cands, selected, j);
    if cands[i].0 <= stop && cands[j].0 <= stop {
      assert Beats(d, index, cands, m, i, j) && Beats(d, index, cands, m, j, i);
    }
  }

  method SelectBlockFromCandidates(d: StakeData, index: map<Hash, CBlockIndex>, cands: seq<Candidate>,
                                   selected: set<Hash>,
                                   stop: int, m: nat) returns (fSelected: bool, at: int)
    requires Indexed(index, cands) && ByTime(cands)
    ensures fSelected <==> exists i :: Open(cands, selected, i)
    ensures fSelected ==> IsPick(d, index, cands, selected, stop, m, at)
  {
    fSelected, at := false, -1;
    var hashBest := 0;
    var n := 0;
    while n < |cands|
      invariant 0 <= n <= |cands|
      invariant !fSelected ==> forall i :: Open(cands, selected, i) ==> i >= n
      invariant fSelected ==> Open(cands, selected, at) && at < n && hashBest == HashAt(d, index, cands, m, at)
      invariant fSelected ==> forall j :: Open(cands, selected, j) && j < n && j > at ==> cands[j].0 <= stop
      invariant fSelected && cands[at].0 > stop ==> forall j :: Open(cands, selected, j) ==> at <= j
      invariant fSelected && cands[at].0 <= stop ==>
        forall j :: Open(cands, selected, j) && j < n ==> Beats(d, index, cands, m, at, j)
    {
      assert IndexedOne(index, cands[n]);
      var pindex := index[cands[n].1];
      if fSelected && pindex.block.time > stop {
        break;
      }
      if pindex.hash !in selected {
        assert Open(cands, selected, n);
        var hashSelection := SelectionHash(d, pindex, m);
        if fSelected && hashSelection < hashBest {
          hashBest := hashSelection;
          at := n;
        } else if !fSelected {
          fSelected := true;
          hashBest := hashSelection;
          at := n;
        }
      }
      n := n + 1;
    }
    if fSelected {
      assert Open(cands, selected, at);
    }
  }

  // ------------------------------------------------------------------------ candidates

  predicate Less(a: Candidate, b: Candidate) {
    a.0 < b.0 || (a.0 == b.0 && a.1 < b.1)
  }

  function HashSet(cands: seq<Candidate>): set<Hash> {
    set i | 0 <= i < |cands| :: cands[i].1
  }

  lemma HashSetAppend(s: seq<Candidate>, c: Candidate)
    ensures HashSet(s + [c]) == HashSet(s) + {c.1}
  {
    var t := s + [c];
    forall h | h in HashSet(t) ensures h in HashSet(s) + {c.1} {
    }
    forall i | 0 <= i < |s| ensures s[i].1 in HashSet(t) {
      assert t[i] == s[i];
    }
    assert t[|s|].1 in HashSet(t);
  }

  lemma {:induction false} InsertHashes(s: seq<Candidate>, c: Candidate)
    ensures |Insert(Less, s, c)| == |s| + 1 && HashSet(Insert(Less, s, c)) == HashSet(s) + {c.1}
  {
    if s != [] && Less(c, s[|s| - 1]) {
      var last, rest := s[|s| - 1], Insert(Less, s[..|s| - 1], c);
      InsertHashes(s[..|s| - 1], c);
      HashSetAppend(rest, last);
      HashSetAppend(s[..|s| - 1], last);
      assert s == s[..|s| - 1] + [last];
    } else {
      HashSetAppend(s, c);
    }
  }

  lemma {:induction false} InsertOrder(s: seq<Candidate>, c: Candidate)
    requires ByTime(s)
    ensures ByTime(Insert(Less, s, c)) && forall i :: 0 <= i < |Insert(Less, s, c)| ==>
      Insert(Less, s, c)[i] == c || Insert(Less, s, c)[i] in s
  {
    if s != [] && Less(c, s[|s| - 1]) {
      InsertOrder(s[..|s| - 1], c);
    }
  }

  lemma InsertKeeps(s: seq<Candidate>, c: Candidate, index: map<Hash, CBlockIndex>)
    requires ByTime(s) && Indexed(index, s) && IndexedOne(index, c)
    ensures ByTime(Insert(Less, s, c)) && Indexed(index, Insert(Less, s, c)) && |Insert(Less, s, c)| == |s| + 1
    ensures HashSet(Insert(Less, s, c)) == HashSet(s) + {c.1}
  {
    InsertHashes(s, c);
    InsertOrder(s, c);
    hide Insert, HashSet;
    forall i | 0 <= i < |Insert(Less, s, c)| ensures IndexedOne(index, Insert(Less, s, c)[i]) {
      if Insert(Less, s, c)[i] != c {
        var j :| 0 <= j < |s| && s[j] == Insert(Less, s, c)[i];
        assert IndexedOne(index, s[j]);
      }
    }
  }

  /** Sorting keeps the hashes and their number. */
  lemma {:induction false} SortKeeps(s: seq<Candidate>, index: map<Hash, CBlockIndex>)
    requires Indexed(index, s)
    ensures ByTime(Sort(Less, s)) && Indexed(index, Sort(Less, s)) && |Sort(Less, s)| == |s| &&
      HashSet(Sort(Less, s)) == HashSet(s)
  {
    if s != [] {
      var n := |s| - 1;
      assert IndexedOne(index, s[n]);
      SortKeeps(s[..n], index);
      InsertKeeps(Sort(Less, s[..n]), s[n], index);
      HashSetAppend(s[..n], s[n]);
      assert s == s[..n] + [s[n]];
    }
  }

  /** The chain is in the block index. */
  ghost predicate ChainIndexed(index: map<Hash, CBlockIndex>, b: CBlockIndex)
    requires Linked(b)
    decreases b.nHeight
  {
    b.hash in index && index[b.hash] == b && (b.pprev != null ==> ChainIndexed(index, b.pprev))
  }

  /** The blocks from `b` back to the first that is before `start`, latest first. */
  function Recent(b: CBlockIndex?, start: int): seq<Candidate>
    requires b != null ==> Linked(b)
    decreases if b == null then 0 else b.nHeight + 1
  {
    if b == null || b.block.time < start then [] else [(b.block.time, b.hash)] + Recent(b.pprev, start)
  }

  /** All of them are in the index, and no two have the same hash. */
  lemma {:induction false} RecentDistinct(index: map<Hash, CBlockIndex>, b: CBlockIndex, start: int)
    requires Linked(b) && ChainIndexed(index, b)
    ensures Indexed(index, Recent(b, start)) && |HashSet(Recent(b, start))| == |Recent(b, start)|
    ensures forall h :: h in HashSet(Recent(b, start)) ==> h in index && index[h].nHeight <= b.nHeight
    decreases b.nHeight
  {
    var s := Recent(b, start);
    if b.block.time >= start {
      var rest := Recent(b.pprev, start);
      if b.pprev != null {
        RecentDistinct(index, b.pprev, start);
      }
      assert forall i :: 0 < i < |s| ==> s[i] == rest[i - 1];
      forall i | 0 <= i < |s| ensures IndexedOne(index, s[i]) {
        assert i > 0 ==> IndexedOne(index, rest[i - 1]);
      }
      forall h | h in HashSet(s) ensures h in HashSet(rest) + {b.hash} {
      }
      forall h | h in HashSet(rest) + {b.hash} ensures h in HashSet(s) {
        if h == b.hash {
          assert s[0].1 == h;
        } else {
          var i :| 0 <= i < |rest| && rest[i].1 == h;
          assert s[i + 1].1 == h;
        }
      }
      assert HashSet(s) == HashSet(rest) + {b.hash};
      assert b.hash !in HashSet(rest);
    }
  }

  /** As long as fewer are selected than there are candidates, one is open. */
  lemma OneIsOpen(cands: seq<Candidate>, selected: set<Hash>)
    requires |HashSet(cands)| == |cands| && |selected| < |cands|
    ensures exists i :: Open(cands, selected, i)
  {
    if forall i :: 0 <= i < |cands| ==> cands[i].1 in selected {
      assert HashSet(cands) <= selected;
      SubsetSize(HashSet(cands), selected);
    } else {
      var i :| 0 <= i < |cands| && cands[i].1 !in selected;
      assert Open(cands, selected, i);
    }
  }

  lemma SubsetSize(s: set<Hash>, t: set<Hash>)
    requires s <= t
    ensures |s| <= |t|
  {
    assert t == s + (t - s);
  }

  method SortedCandidates(prev: CBlockIndex, start: int) returns (cands: seq<Candidate>)
    requires Linked(prev)
    ensures cands == Sort(Less, Reverse(Recent(prev, start)))
  {
    cands := [];
    var pindex: CBlockIndex? := prev;
    while pindex != null && pindex.block.time >= start
      invariant pindex != null ==> Linked(pindex)
      invariant Recent(prev, start) == cands + Recent(pindex, start)
      decreases if pindex == null then 0 else pindex.nHeight + 1
    {
      cands := cands + [(pindex.block.time, pindex.hash)];
      pindex := pindex.pprev;
    }
    assert cands == Recent(prev, start);
    cands := Sort(Less, Reverse(cands));
  }

  lemma ReversedKeeps(s: seq<Candidate>, index: map<Hash, CBlockIndex>)
    requires Indexed(index, s)
    ensures Indexed(index, Reverse(s)) && HashSet(Reverse(s)) == HashSet(s)
  {
    var r := Reverse(s);
    forall i | 0 <= i < |r| ensures IndexedOne(index, r[i]) && r[i].1 in HashSet(s) {
      assert IndexedOne(index, s[|s| - 1 - i]);
    }
    forall i | 0 <= i < |s| ensures s[i].1 in HashSet(r) {
      assert r[|s| - 1 - i] == s[i];
    }
  }

  // ---------------------------------------------------------------------- the selection

  /** The bits, the first one lowest, as a number. */
  function Number(bits: seq<bool>): nat {
    if bits == [] then 0 else (if bits[0] then 1 else 0) + 2 * Number(bits[1..])
  }

  function BitAt(n: nat, k: nat): bool {
    if k == 0 then n % 2 == 1 else BitAt(n / 2, k - 1)
  }

  lemma {:induction false} BitOfNumber(bits: seq<bool>, k: nat)
    requires k < |bits|
    ensures BitAt(Number(bits), k) == bits[k]
  {
    if k > 0 {
      BitOfNumber(bits[1..], k - 1);
    }
  }

  lemma {:induction false} NumberAppend(bits: seq<bool>, bit: bool)
    ensures Number(bits + [bit]) == Number(bits) + if bit then Pow2(|bits|) else 0
  {
    if bits != [] {
      NumberAppend(bits[1..], bit);
      assert (bits + [bit])[1..] == bits[1..] + [bit];
    }
  }

  /** The hashes of the first n picks. */
  ghost function PickedHashes(cands: seq<Candidate>, picks: seq<int>): set<Hash>
    requires InRange(cands, picks)
  {
    set k | 0 <= k < |picks| :: cands[picks[k]].1
  }

  predicate InRange(cands: seq<Candidate>, picks: seq<int>) {
    forall k :: 0 <= k < |picks| ==> 0 <= picks[k] < |cands|
  }

  /** Pick k is that of round k, when the picks before it are taken. */
  ghost predicate PickAt(d: StakeData, index: map<Hash, CBlockIndex>, cands: seq<Candidate>, start: int, m: nat,
                         picks: seq<int>, k: nat)
    requires Indexed(index, cands) && InRange(cands, picks)
  {
    k < |picks| && k < ROUNDS &&
      IsPick(d, index, cands, PickedHashes(cands, picks[..k]), start + Sections(k + 1), m, picks[k])
  }

  ghost predicate Picked(d: StakeData, index: map<Hash, CBlockIndex>, cands: seq<Candidate>, start: int, m: nat,
                         picks: seq<int>)
    requires Indexed(index, cands)
  {
    && InRange(cands, picks)
    && forall k: nat {:trigger PickAt(d, index, cands, start, m, picks, k)} :: k < |picks| ==>
      PickAt(d, index, cands, start, m, picks, k)
  }

  /** No block is picked twice. */
  lemma PicksDistinct(d: StakeData, index: map<Hash, CBlockIndex>, cands: seq<Candidate>, start: int, m: nat,
                      picks: seq<int>, j: nat, k: nat)
    requires Indexed(index, cands) && Picked(d, index, cands, start, m, picks) && j < k < |picks|
    ensures cands[picks[j]].1 != cands[picks[k]].1
  {
    assert picks[..k][j] == picks[j];
    assert cands[picks[j]].1 in PickedHashes(cands, picks[..k]);
    assert PickAt(d, index, cands, start, m, picks, k);
  }

  ghost function EntropyBits(d: StakeData, cands: seq<Candidate>, picks: seq<int>): (bits: seq<bool>)
    requires InRange(cands, picks)
    ensures |bits| == |picks|
  {
    seq(|picks|, k requires 0 <= k < |picks| => d.entropyBit(cands[picks[k]].1))
  }

  /** The time of the previous block, rounded down to the interval, is where n sections end. */
  function StartOf(prev: CBlockIndex, n: nat): int
    requires n <= ROUNDS
  {
    prev.block.time / MODIFIER_INTERVAL * MODIFIER_INTERVAL - Sections(n)
  }

  function SelectionStart(prev: CBlockIndex): int {
    StartOf(prev, ROUNDS)
  }

  /** So after its last round the selection stops at a multiple of the interval. */
  lemma LastStop(prev: CBlockIndex, n: nat)
    requires n <= ROUNDS
    ensures var stop := StartOf(prev, n) + Sections(n);
      stop % MODIFIER_INTERVAL == 0 && stop <= prev.block.time < stop + MODIFIER_INTERVAL
  {
    hide Sections;
  }

  /** The nearest block back that generated a modifier, or the first block. */
  function LastGenerated(d: StakeData, b: CBlockIndex): CBlockIndex
    requires Linked(b)
    decreases b.nHeight
  {
    if b.pprev == null || d.generated(b.hash) then b else LastGenerated(d, b.pprev)
  }

  method GetLastStakeModifier(d: StakeData, b: CBlockIndex) returns (ok: bool, nStakeModifier: nat, nModifierTime: int)
    requires Linked(b)
    ensures ok <==> d.generated(LastGenerated(d, b).hash)
    ensures ok ==>
      nStakeModifier == d.modifier(LastGenerated(d, b).hash) && nModifierTime == LastGenerated(d, b).block.time
  {
    var pindex: CBlockIndex := b;
    while pindex.pprev != null && !d.generated(pindex.hash)
      invariant Linked(pindex) && LastGenerated(d, pindex) == LastGenerated(d, b)
      decreases pindex.nHeight
    {
      pindex := pindex.pprev;
    }
    if !d.generated(pindex.hash) {
      return false, 0, 0;
    }
    return true, d.modifier(pindex.hash), pindex.block.time;
  }

  /** The state after some rounds. */
  ghost predicate Selecting(d: StakeData, index: map<Hash, CBlockIndex>, cands: seq<Candidate>, start: int, m: nat,
                            picks: seq<int>, selected: set<Hash>, stop: int, bit: nat, modifier: nat)
    requires Indexed(index, cands)
  {
    && |picks| <= ROUNDS && Picked(d, index, cands, start, m, picks) && selected == PickedHashes(cands, picks)
    && |selected| <= |picks|
    && stop == start + Sections(|picks|) && bit == Pow2(|picks|)
    && modifier == Number(EntropyBits(d, cands, picks))
  }

  /** The rounds: none fails, and the modifier has the entropy bits of the picks. */
  method SelectRounds(d: StakeData, index: map<Hash, CBlockIndex>, cands: seq<Candidate>, start: int, m: nat,
                      rounds: nat)
    returns (ok: bool, nStakeModifierNew: nat, ghost picks: seq<int>)
    requires Indexed(index, cands) && ByTime(cands) && |HashSet(cands)| == |cands| && rounds == Min(ROUNDS, |cands|)
    ensures ok && |picks| == rounds && Picked(d, index, cands, start, m, picks)
    ensures nStakeModifierNew == Number(EntropyBits(d, cands, picks))
  {
    ok, nStakeModifierNew, picks := true, 0, [];
    var stop := start;
    var selected: set<Hash> := {};
    var nRound := 0;
    var bit: nat := 1;
    assert selected == PickedHashes(cands, picks);
    hide Sections, Picked, IsPick, PickedHashes, Number, EntropyBits, HashSet;
    while nRound < rounds && ok
      invariant 0 <= nRound <= rounds && |picks| == nRound && ok
      invariant Selecting(d, index, cands, start, m, picks, selected, stop, bit, nStakeModifierNew)
      decreases rounds - nRound
    {
      ok, nStakeModifierNew, picks, selected,
        stop := OneRound(d, index, cands, start, m, nRound, bit, picks, selected, stop, nStakeModifierNew);
      bit := bit * 2;
      nRound := nRound + 1;
    }
  }

  /** One round. */
  method OneRound(d: StakeData, index: map<Hash, CBlockIndex>, cands: seq<Candidate>, start: int, m: nat, nRound: nat,
                  bit: nat,
                  ghost before: seq<int>, chosen: set<Hash>, last: int, modifier: nat)
    returns (ok: bool, more: nat, ghost picks: seq<int>, selected: set<Hash>, stop: int)
    requires Indexed(index, cands) && ByTime(cands) && |HashSet(cands)| == |cands|
    requires nRound == |before| < ROUNDS && nRound < |cands|
    requires Selecting(d, index, cands, start, m, before, chosen, last, bit, modifier)
    ensures ok && |picks| == nRound + 1 && Selecting(d, index, cands, start, m, picks, selected, stop, bit * 2, more)
  {
    ok, more, picks, selected := false, modifier, before, chosen;
    // an interval section more for this round
    stop := last + Section(nRound);
    assert stop == start + Sections(nRound + 1);
    hide Sections, Section;
    OneIsOpen(cands, selected);
    hide HashSet;
    var fSelected, at := SelectBlockFromCandidates(d, index, cands, selected, stop, m);
    if fSelected {
      OnePickMore(d, index, cands, start, m, picks, at);
      PickedHashesAppend(cands, picks, at);
      EntropyAppend(d, cands, picks, at);
      NumberAppend(EntropyBits(d, cands, picks), d.entropyBit(cands[at].1));
      hide Picked, IsPick, PickedHashes, Number, EntropyBits;
      assert IndexedOne(index, cands[at]);
      var pindex := index[cands[at].1];
      more := modifier + if d.entropyBit(pindex.hash) then bit else 0;
      selected := selected + {pindex.hash};
      picks := picks + [at];
      ok := true;
    }
  }

  lemma OnePickMore(d: StakeData, index: map<Hash, CBlockIndex>, cands: seq<Candidate>, start: int, m: nat,
                    picks: seq<int>, at: int)
    requires Indexed(index, cands) && Picked(d, index, cands, start, m, picks) && |picks| < ROUNDS
    requires IsPick(d, index, cands, PickedHashes(cands, picks), start + Sections(|picks| + 1), m, at)
    ensures Picked(d, index, cands, start, m, picks + [at])
  {
    var more := picks + [at];
    InRangeAppend(cands, picks, at);
    LastPickAt(d, index, cands, start, m, picks, at);
    forall k: nat | k < |picks| ensures PickAt(d, index, cands, start, m, more, k) {
      PickAtPrefix(d, index, cands, start, m, picks, at, k);
    }
    hide PickAt, IsPick, PickedHashes, Sections, InRange;
  }

  lemma InRangeAppend(cands: seq<Candidate>, picks: seq<int>, at: int)
    requires InRange(cands, picks) && 0 <= at < |cands|
    ensures InRange(cands, picks + [at])
  {
  }

  lemma LastPickAt(d: StakeData, index: map<Hash, CBlockIndex>, cands: seq<Candidate>, start: int, m: nat,
                   picks: seq<int>, at: int)
    requires Indexed(index, cands) && InRange(cands, picks) && InRange(cands, picks + [at]) && |picks| < ROUNDS
    requires IsPick(d, index, cands, PickedHashes(cands, picks), start + Sections(|picks| + 1), m, at)
    ensures PickAt(d, index, cands, start, m, picks + [at], |picks|)
  {
    assert (picks + [at])[..|picks|] == picks;
  }

  lemma EntropyAppend(d: StakeData, cands: seq<Candidate>, picks: seq<int>, at: int)
    requires InRange(cands, picks) && InRange(cands, picks + [at]) && 0 <= at < |cands|
    ensures EntropyBits(d, cands, picks + [at]) == EntropyBits(d, cands, picks) + [d.entropyBit(cands[at].1)]
  {
  }

  lemma PickAtPrefix(d: StakeData, index: map<Hash, CBlockIndex>, cands: seq<Candidate>, start: int, m: nat,
                     picks: seq<int>, at: int, k: nat)
    requires Indexed(index, cands) && InRange(cands, picks) && InRange(cands, picks + [at]) && k < |picks|
    requires PickAt(d, index, cands, start, m, picks, k)
    ensures PickAt(d, index, cands, start, m, picks + [at], k)
  {
    assert (picks + [at])[..k] == picks[..k] && (picks + [at])[k] == picks[k];
  }

  lemma PickedHashesAppend(cands: seq<Candidate>, picks: seq<int>, at: int)
    requires InRange(cands, picks) && 0 <= at < |cands|
    ensures PickedHashes(cands, picks + [at]) == PickedHashes(cands, picks) + {cands[at].1}
  {
    var more := picks + [at];
    forall h | h in PickedHashes(cands, picks) + {cands[at].1} ensures h in PickedHashes(cands, more) {
      if h == cands[at].1 {
        assert more[|picks|] == at;
      } else {
        var k :| 0 <= k < |picks| && cands[picks[k]].1 == h;
        assert more[k] == picks[k];
      }
    }
  }

  /** ComputeNextStakeModifier.  It fails only when no block of the chain generated a modifier;
      a new one is made once an interval has passed. */
  method ComputeNextStakeModifier(d: StakeData, index: map<Hash, CBlockIndex>, prev: CBlockIndex?)
    returns (ok: bool, nStakeModifier: nat, fGenerated: bool, ghost cands: seq<Candidate>, ghost picks: seq<int>)
    requires prev != null ==> Linked(prev) && ChainIndexed(index, prev)
    ensures prev == null ==> ok && fGenerated && nStakeModifier == 0
    ensures prev != null ==> (ok <==> d.generated(LastGenerated(d, prev).hash))
    ensures prev != null && ok ==>
      var last := LastGenerated(d, prev);
      && (fGenerated <==> last.block.time / MODIFIER_INTERVAL < prev.block.time / MODIFIER_INTERVAL)
      && (!fGenerated ==> nStakeModifier == d.modifier(last.hash))
      && (fGenerated ==>
            && cands == Sort(Less, Reverse(Recent(prev, SelectionStart(prev)))) && Indexed(index, cands)
            && |picks| == Min(ROUNDS, |cands|)
            && Picked(d, index, cands, SelectionStart(prev), d.modifier(last.hash), picks)
            && nStakeModifier == Number(EntropyBits(d, cands, picks)))
  {
    hide Picked, Indexed, ByTime, EntropyBits, Number, Sort, Reverse, Recent;
    nStakeModifier, fGenerated, cands, picks := 0, false, [], [];
    if prev == null {
      return true, 0, true, cands, picks;
    }
    var nModifierTime;
    ok, nStakeModifier, nModifierTime := GetLastStakeModifier(d, prev);
    if !ok {
      return;
    }
    if nModifierTime / MODIFIER_INTERVAL >= prev.block.time / MODIFIER_INTERVAL {
      return;
    }
    var nSelectionInterval := GetStakeModifierSelectionInterval();
    var start := prev.block.time / MODIFIER_INTERVAL * MODIFIER_INTERVAL - nSelectionInterval;
    var sorted := SortedCandidates(prev, start);
    cands := sorted;
    CandidatesFine(index, prev, start);
    ok, nStakeModifier, picks := SelectRounds(d, index, sorted, start, nStakeModifier, Min(ROUNDS, |sorted|));
    fGenerated := true;
  }

  /** The candidates are known, in order, and none is there twice. */
  lemma CandidatesFine(index: map<Hash, CBlockIndex>, prev: CBlockIndex, start: int)
    requires Linked(prev) && ChainIndexed(index, prev)
    ensures var cands := Sort(Less, Reverse(Recent(prev, start)));
      Indexed(index, cands) && ByTime(cands) && |HashSet(cands)| == |cands|
  {
    RecentDistinct(index, prev, start);
    ReversedKeeps(Recent(prev, start), index);
    SortKeeps(Reverse(Recent(prev, start)), index);
  }
}
