/** The order of keys, sorted key lists, and which keys a range covers. */
module Keys {
  import opened Commands

  /** Lexicographic order, code unit by code unit; a proper prefix comes first. */
  predicate Lt(a: seq<int>, b: seq<int>) {
    b != [] && (a == [] || a[0] < b[0] || (a[0] == b[0] && Lt(a[1..], b[1..])))
  }

  predicate Le(a: seq<int>, b: seq<int>) {
    !Lt(b, a)
  }

  lemma {:induction false} LtIrreflexive(a: seq<int>)
    ensures !Lt(a, a)
  {
    if a != [] { LtIrreflexive(a[1..]); }
  }

  lemma {:induction false} LtTransitive(a: seq<int>, b: seq<int>, c: seq<int>)
    requires Lt(a, b) && Lt(b, c)
    ensures Lt(a, c)
  {
    if a != [] && a[0] == b[0] && b[0] == c[0] { LtTransitive(a[1..], b[1..], c[1..]); }
  }

  lemma {:induction false} LtTotal(a: seq<int>, b: seq<int>)
    ensures Lt(a, b) || a == b || Lt(b, a)
  {
    if a != [] && b != [] && a[0] == b[0] {
      LtTotal(a[1..], b[1..]);
      assert a[1..] == b[1..] ==> a == [a[0]] + a[1..] == [b[0]] + b[1..] == b;
    }
  }

  predicate IsLeast(k: Key, s: set<Key>) {
    k in s && forall x | x in s :: x == k || Lt(k, x)
  }

  lemma {:induction false} LeastExists(s: set<Key>) returns (k: Key)
    requires s != {}
    ensures IsLeast(k, s)
  {
    k :| k in s;
    if s != {k} {
      var l := LeastExists(s - {k});
      LtTotal(k, l);
      if Lt(l, k) {
        k := l;
      } else {
        forall x | x in s ensures x == k || Lt(k, x) {
          if x != k && x != l { LtTransitive(k, l, x); }
        }
      }
    }
  }

  lemma LeastUnique(a: Key, b: Key, s: set<Key>)
    requires IsLeast(a, s) && IsLeast(b, s)
    ensures a == b
  {
    if a != b {
      LtTransitive(a, b, a);
      LtIrreflexive(a);
    }
  }

  function Least(s: set<Key>): (k: Key)
    requires s != {}
    ensures IsLeast(k, s)
  {
    assert exists k :: IsLeast(k, s) by { var k := LeastExists(s); }
    assert forall a, b | IsLeast(a, s) && IsLeast(b, s) :: a == b by {
      forall a, b | IsLeast(a, s) && IsLeast(b, s) ensures a == b { LeastUnique(a, b, s); }
    }
    var k :| k in s && IsLeast(k, s);
    k
  }

  /** All keys of a set, in increasing order. */
  function Sort(s: set<Key>): seq<Key> {
    if s == {} then [] else [Least(s)] + Sort(s - {Least(s)})
  }

  ghost predicate Before(ks: seq<Key>, i: nat, j: nat) {
    i < j < |ks| ==> Lt(ks[i], ks[j])
  }

  ghost predicate Increasing(ks: seq<Key>) {
    forall i: nat, j: nat :: Before(ks, i, j)
  }

  lemma {:induction false} SortSorts(s: set<Key>)
    ensures Increasing(Sort(s))
    ensures forall k :: k in Sort(s) <==> k in s
  {
    if s != {} {
      var m := Least(s);
      SortSorts(s - {m});
      forall i: nat, j: nat ensures Before(Sort(s), i, j) {
        if i < j < |Sort(s)| {
          assert Sort(s)[j] == Sort(s - {m})[j - 1];
          assert Sort(s)[j] in Sort(s - {m});
          if i > 0 { assert Before(Sort(s - {m}), i - 1, j - 1); }
        }
      }
    }
  }

  lemma TailIncreasing(ks: seq<Key>)
    requires Increasing(ks) && ks != []
    ensures Increasing(ks[1..]) && ks[0] !in ks[1..]
    ensures forall k | k in ks[1..] :: Lt(ks[0], k)
  {
    forall i: nat, j: nat ensures Before(ks[1..], i, j) { assert Before(ks, i + 1, j + 1); }
    forall k | k in ks[1..] ensures Lt(ks[0], k) && k != ks[0] {
      var j :| 0 <= j < |ks[1..]| && ks[1..][j] == k;
      assert Before(ks, 0, j + 1);
      LtIrreflexive(k);
    }
  }

  /** A strictly increasing list is determined by its elements. */
  lemma {:induction false} IncreasingUnique(a: seq<Key>, b: seq<Key>)
    requires Increasing(a) && Increasing(b)
    requires forall k :: k in a <==> k in b
    ensures a == b
  {
    assert (a != [] ==> a[0] in a) && (b != [] ==> b[0] in b);
    if a != [] && b != [] {
      TailIncreasing(a);
      TailIncreasing(b);
      if a[0] != b[0] {
        assert a[0] in b && b[0] in a;
        LtTransitive(a[0], b[0], a[0]);
        LtIrreflexive(a[0]);
      }
      assert forall k :: k in a <==> k == a[0] || k in a[1..];
      assert forall k :: k in b <==> k == b[0] || k in b[1..];
      IncreasingUnique(a[1..], b[1..]);
      assert a == [a[0]] + a[1..] && b == [b[0]] + b[1..];
    }
  }

  // ---- ranges --------------------------------------------------------------

  /** The end marker that stands for no end. */
  const Unbounded: Key := [0]

  /** What a watcher's `covers` tests. */
  predicate Covers(key: Key, rangeEnd: Key, k: Key) {
    if rangeEnd == [] then k == key
    else if rangeEnd == Unbounded then key == Unbounded || Le(key, k)
    else Le(key, k) && Lt(k, rangeEnd)
  }

  function Filter(ks: seq<Key>, key: Key, rangeEnd: Key): seq<Key> {
    if ks == [] then []
    else (if Covers(key, rangeEnd, ks[0]) then [ks[0]] else []) + Filter(ks[1..], key, rangeEnd)
  }

  /** What `matchingKeys` returns, branch by branch. */
  function MatchingKeys(all: set<Key>, key: Key, rangeEnd: Key): seq<Key> {
    if rangeEnd == [] then (if key in all then [key] else [])
    else if rangeEnd == Unbounded && key == Unbounded then Sort(all)
    else Filter(Sort(all), key, rangeEnd)
  }

  lemma {:induction false} FilterFilters(ks: seq<Key>, key: Key, rangeEnd: Key)
    requires Increasing(ks)
    ensures Increasing(Filter(ks, key, rangeEnd))
    ensures forall k :: k in Filter(ks, key, rangeEnd) <==> k in ks && Covers(key, rangeEnd, k)
  {
    if ks != [] {
      TailIncreasing(ks);
      var rest := Filter(ks[1..], key, rangeEnd);
      FilterFilters(ks[1..], key, rangeEnd);
      var all := Filter(ks, key, rangeEnd);
      forall i: nat, j: nat ensures Before(all, i, j) {
        if i < j < |all| && Covers(key, rangeEnd, ks[0]) {
          assert all[j] == rest[j - 1];
          assert all[j] in rest;
          if i > 0 { assert Before(rest, i - 1, j - 1); }
        } else {
          assert Before(rest, i, j);
        }
      }
    }
  }

  /** A read's `matchingKeys` and a watch's `covers` select the same keys, and a read lists them in order. */
  lemma MatchingIsCovered(all: set<Key>, key: Key, rangeEnd: Key)
    ensures Increasing(MatchingKeys(all, key, rangeEnd))
    ensures forall k :: k in MatchingKeys(all, key, rangeEnd) <==> k in all && Covers(key, rangeEnd, k)
  {
    SortSorts(all);
    FilterFilters(Sort(all), key, rangeEnd);
  }
}
