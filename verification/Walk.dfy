/** Walking a set of integers in ascending order, as iterating over a std::set does. */
module Walk {
  ghost predicate Ascending(s: seq<int>) {
    forall i, j :: 0 <= i < j < |s| ==> s[i] < s[j]
  }

  ghost predicate Lists(s: seq<int>, bucket: set<int>) {
    Ascending(s) && (forall x :: x in s <==> x in bucket) && |s| == |bucket|
  }

  lemma HasElement(s: set<int>)
    requires s != {}
    ensures exists x: int :: x in s
  {
    assert (forall x: int :: x !in s) ==> s == {};
  }

  lemma {:induction false} HasLeast(s: set<int>)
    requires s != {}
    ensures exists m: int :: m in s && forall x :: x in s ==> m <= x
  {
    HasElement(s);
    var first: int :| first in s;
    var rest := s - {first};
    var least := first;
    if rest != {} {
      HasLeast(rest);
      var m: int :| m in rest && forall x :: x in rest ==> m <= x;
      least := if first < m then first else m;
    }
    forall x | x in s ensures least <= x {
      assert x == first || x in rest;
    }
  }

  /** The elements of a set in ascending order. */
  ghost function Ascent(s: set<int>): seq<int> {
    if s == {} then []
    else
      HasLeast(s);
      var m :| m in s && forall x :: x in s ==> m <= x;
      [m] + Ascent(s - {m})
  }

  /** There is one list of a set in ascending order. */
  lemma {:induction false} OneAscent(list: seq<int>, s: set<int>)
    requires Lists(list, s)
    ensures list == Ascent(s)
  {
    if list != [] {
      var rest := list[1..];
      assert list == [list[0]] + rest;
      assert list[0] in list && Ascent(s)[0] in s;
      forall x | x in s ensures list[0] <= x {
        assert x in list;
      }
      assert list[0] !in rest;
      OneAscent(rest, s - {list[0]});
    }
  }

  method Least(s: set<int>) returns (m: int)
    requires s != {}
    ensures m in s && forall x :: x in s ==> m <= x
  {
    HasElement(s);
    var first: int :| first in s;
    m := first;
    var rest := s - {m};
    while rest != {}
      invariant m in s && rest <= s && forall x :: x in s && x !in rest ==> m <= x
      decreases rest
    {
      HasElement(rest);
      var next: int :| next in rest;
      if next < m {
        m := next;
      }
      rest := rest - {next};
    }
  }

  /** Walks a set in ascending order. */
  method InOrder(bucket: set<int>) returns (s: seq<int>)
    ensures Lists(s, bucket)
  {
    s := [];
    var rest := bucket;
    while rest != {}
      invariant rest <= bucket && Lists(s, bucket - rest)
      invariant forall x, y :: x in s && y in rest ==> x < y
      decreases |rest|
    {
      var m := Least(rest);
      assert bucket - (rest - {m}) == (bucket - rest) + {m};
      assert forall i :: 0 <= i < |s| ==> s[i] in s;
      s := s + [m];
      rest := rest - {m};
    }
    assert bucket - rest == bucket;
  }
}
