/** Shuffling the front of a list with given random numbers, as SelectTried and GetAddr_ of
    src/addrman.cpp do. */
module Shuffle {
  /** The random number that is drawn at each step. */
  type Draws = nat -> nat

  /** The place drawn at step i, among those not settled yet. */
  function Place(size: nat, draws: Draws, i: nat): (p: nat)
    requires i < size
    ensures i <= p < size
  {
    i + draws(i) % (size - i)
  }

  function Swapped(v: seq<int>, p: nat, q: nat): (w: seq<int>)
    requires p < |v| && q < |v|
    ensures |w| == |v|
  {
    v[p := v[q]][q := v[p]]
  }

  /** The list after n steps. */
  function Shuffled(v: seq<int>, draws: Draws, n: nat): (w: seq<int>)
    requires n <= |v|
    ensures |w| == |v|
  {
    if n == 0 then v else Swapped(Shuffled(v, draws, n - 1), n - 1, Place(|v|, draws, n - 1))
  }

  /** What is drawn at step i. */
  function Dealt(v: seq<int>, draws: Draws, i: nat): int
    requires i < |v|
  {
    Shuffled(v, draws, i + 1)[i]
  }

  /** What has been drawn stays in its place at the front. */
  lemma {:induction false} Settled(v: seq<int>, draws: Draws, i: nat, n: nat)
    requires i < n <= |v|
    ensures Shuffled(v, draws, n)[i] == Dealt(v, draws, i)
  {
    if i < n - 1 {
      Settled(v, draws, i, n - 1);
    }
  }

  ghost predicate NoTwice(v: seq<int>) {
    forall p, q :: 0 <= p < q < |v| ==> v[p] != v[q]
  }

  /** Shuffling loses nothing and repeats nothing. */
  lemma {:induction false} ShuffledKeeps(v: seq<int>, draws: Draws, n: nat)
    requires n <= |v|
    ensures multiset(Shuffled(v, draws, n)) == multiset(v)
    ensures NoTwice(v) ==> NoTwice(Shuffled(v, draws, n))
  {
    hide NoTwice, Swapped, Place;
    if n > 0 {
      ShuffledKeeps(v, draws, n - 1);
      var w, p := Shuffled(v, draws, n - 1), Place(|v|, draws, n - 1);
      SwapKeepsAll(w, n - 1, p);
      SwapKeepsOnce(w, n - 1, p);
    }
  }

  lemma SwapKeepsAll(v: seq<int>, i: nat, j: nat)
    requires i <= j < |v|
    ensures multiset(Swapped(v, i, j)) == multiset(v)
  {
    var half := v[i := v[j]];
    assert multiset(half) == multiset(v) - multiset{v[i]} + multiset{v[j]};
    assert multiset(half[j := v[i]]) == multiset(half) - multiset{half[j]} + multiset{v[i]};
  }

  lemma SwapKeepsOnce(v: seq<int>, i: nat, j: nat)
    requires i <= j < |v|
    ensures NoTwice(v) ==> NoTwice(Swapped(v, i, j))
  {
  }

  /** What lies afterwards in the place drawn at step m is what was drawn there exactly when it
      was drawn in place. */
  lemma InPlace(v: seq<int>, draws: Draws, m: nat, n: nat)
    requires m < n <= |v| && NoTwice(v)
    ensures Shuffled(v, draws, n)[Place(|v|, draws, m)] == Dealt(v, draws, m) <==> draws(m) % (|v| - m) == 0
  {
    ShuffledKeeps(v, draws, n);
    Settled(v, draws, m, n);
  }
}
