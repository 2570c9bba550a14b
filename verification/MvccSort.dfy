/** The order in which a range is answered. */
module MvccSort {
  import opened Commands
  import opened Keys
  import opened Mvcc
  import opened MvccPlain

  /** By the target, and by key among equals. */
  predicate Precedes(target: SortTarget, a: KV, b: KV) {
    Lt(Field(a, target), Field(b, target)) || (Field(a, target) == Field(b, target) && Lt(a.key, b.key))
  }

  ghost predicate InOrder(kvs: seq<KV>, target: SortTarget, i: nat, j: nat) {
    i < j < |kvs| ==> Precedes(target, kvs[i], kvs[j])
  }

  ghost predicate Sorted(kvs: seq<KV>, target: SortTarget) {
    forall i: nat, j: nat :: InOrder(kvs, target, i, j)
  }

  ghost predicate ByKeys(kvs: seq<KV>) {
    Sorted(kvs, ByKey)
  }

  lemma SortedTail(kvs: seq<KV>, target: SortTarget)
    requires Sorted(kvs, target) && kvs != []
    ensures Sorted(kvs[1..], target) && forall x | x in kvs[1..] :: Precedes(target, kvs[0], x)
  {
    hide Precedes;
    forall i: nat, j: nat ensures InOrder(kvs[1..], target, i, j) { assert InOrder(kvs, target, i + 1, j + 1); }
    forall x | x in kvs[1..] ensures Precedes(target, kvs[0], x) {
      var j :| 0 <= j < |kvs[1..]| && kvs[1..][j] == x;
      assert InOrder(kvs, target, 0, j + 1);
    }
  }

  lemma SortedCons(x: KV, kvs: seq<KV>, target: SortTarget)
    requires Sorted(kvs, target) && forall y | y in kvs :: Precedes(target, x, y)
    ensures Sorted([x] + kvs, target)
  {
    hide Precedes;
    var all := [x] + kvs;
    forall i: nat, j: nat ensures InOrder(all, target, i, j) {
      if i < j < |all| {
        if i == 0 { assert all[j] in kvs; } else { assert InOrder(kvs, target, i - 1, j - 1); }
      }
    }
  }

  /** An entry with the greatest key so far, put in its place. */
  lemma {:induction false} InsertSorts(kvs: seq<KV>, kv: KV, target: SortTarget)
    requires Sorted(kvs, target) && forall x | x in kvs :: Lt(x.key, kv.key)
    ensures Sorted(Insert(kvs, kv, target), target) && multiset(Insert(kvs, kv, target)) == multiset(kvs) + multiset{kv}
  {
    hide Field;
    if kvs == [] {
      assert [kv] + kvs == [kv];
    } else {
      SortedTail(kvs, target);
      assert kvs == [kvs[0]] + kvs[1..];
      if Lt(Field(kv, target), Field(kvs[0], target)) {
        forall y | y in kvs ensures Precedes(target, kv, y) { Before(target, kv, kvs[0], y); }
        SortedCons(kv, kvs, target);
      } else {
        InsertSorts(kvs[1..], kv, target);
        LtTotal(Field(kv, target), Field(kvs[0], target));
        var rest := Insert(kvs[1..], kv, target);
        forall y | y in rest ensures Precedes(target, kvs[0], y) {
          assert y in multiset(rest);
          assert kvs[0] in kvs;
        }
        SortedCons(kvs[0], rest, target);
      }
    }
  }

  lemma Before(target: SortTarget, a: KV, b: KV, c: KV)
    requires Lt(Field(a, target), Field(b, target)) && (b == c || Precedes(target, b, c))
    ensures Precedes(target, a, c)
  {
    if Lt(Field(b, target), Field(c, target)) { LtTransitive(Field(a, target), Field(b, target), Field(c, target)); }
  }

  lemma ButLast(kvs: seq<KV>)
    requires ByKeys(kvs) && kvs != []
    ensures var n := |kvs| - 1;
            ByKeys(kvs[..n]) && forall x | x in kvs[..n] :: Lt(x.key, kvs[n].key)
  {
    var n := |kvs| - 1;
    var before := kvs[..n];
    forall i: nat, j: nat ensures InOrder(before, ByKey, i, j) { assert InOrder(kvs, ByKey, i, j); }
    forall x | x in before ensures Lt(x.key, kvs[n].key) {
      var i :| 0 <= i < |before| && before[i] == x;
      assert InOrder(kvs, ByKey, i, n);
    }
  }

  lemma {:induction false} SortBySorts(kvs: seq<KV>, target: SortTarget)
    requires ByKeys(kvs)
    ensures Sorted(SortBy(kvs, target), target) && multiset(SortBy(kvs, target)) == multiset(kvs)
    decreases |kvs|
  {
    hide Insert, ByKeys;
    if kvs != [] {
      var n := |kvs| - 1;
      var before := kvs[..n];
      ButLast(kvs);
      SortBySorts(before, target);
      forall x | x in SortBy(before, target) ensures Lt(x.key, kvs[n].key) {
        assert x in multiset(SortBy(before, target)) && x in multiset(before);
      }
      InsertSorts(SortBy(before, target), kvs[n], target);
      assert kvs == before + [kvs[n]];
    }
  }

  lemma {:induction false} BackwardsIs(kvs: seq<KV>)
    ensures |Backwards(kvs)| == |kvs| && multiset(Backwards(kvs)) == multiset(kvs)
  {
    if kvs != [] {
      BackwardsIs(kvs[1..]);
      assert kvs == [kvs[0]] + kvs[1..];
    }
  }

  lemma {:induction false} BackwardsAt(kvs: seq<KV>, i: nat)
    requires i < |kvs|
    ensures i < |Backwards(kvs)| && Backwards(kvs)[i] == kvs[|kvs| - 1 - i]
  {
    BackwardsIs(kvs[1..]);
    if i < |kvs| - 1 { BackwardsAt(kvs[1..], i); }
  }

  /** The entry at `i` of an answer belongs before the one at `j`. */
  ghost predicate Belongs(all: seq<KV>, order: SortOrder, target: SortTarget, i: nat, j: nat) {
    i < j < |all| ==>
      match order
      case Unsorted => Precedes(ByKey, all[i], all[j])
      case Ascending => Precedes(target, all[i], all[j])
      case Descending => Precedes(target, all[j], all[i])
  }

  /**
   Whatever the order asked for, the answer holds exactly what matched, each entry before those the
   order puts behind it: upwards or downwards by the target, and by key among equals. The order is
   strict, so that a limit cuts off the last ones and nothing else.
   */
  lemma ArrangedIs(kvs: seq<KV>, order: SortOrder, target: SortTarget, i: nat, j: nat)
    requires ByKeys(kvs)
    ensures multiset(Arranged(kvs, order, target)) == multiset(kvs)
    ensures Belongs(Arranged(kvs, order, target), order, target, i, j)
  {
    var goal := if order == Unsorted then ByKey else target;
    SortBySorts(kvs, goal);
    var up := SortBy(kvs, goal);
    BackwardsIs(up);
    hide SortBy, Precedes, Backwards;
    if i < j < |up| {
      BackwardsAt(up, i);
      BackwardsAt(up, j);
      assert InOrder(up, goal, i, j) && InOrder(up, goal, |up| - 1 - j, |up| - 1 - i);
    }
  }

  // ---- key order is what was there -----------------------------------------

  lemma {:induction false} InsertLast(kvs: seq<KV>, kv: KV)
    requires forall x | x in kvs :: Lt(x.key, kv.key)
    ensures Insert(kvs, kv, ByKey) == kvs + [kv]
  {
    if kvs != [] {
      assert kvs[0] in kvs;
      NotBoth(kvs[0].key, kv.key);
      InsertLast(kvs[1..], kv);
    }
  }

  lemma NotBoth(a: Key, b: Key)
    requires Lt(a, b)
    ensures !Lt(b, a)
  {
    if Lt(b, a) {
      LtTransitive(a, b, a);
      LtIrreflexive(a);
    }
  }

  lemma {:induction false} SortedAlready(kvs: seq<KV>)
    requires ByKeys(kvs)
    ensures SortBy(kvs, ByKey) == kvs
    decreases |kvs|
  {
    hide Insert, ByKeys;
    if kvs != [] {
      var n := |kvs| - 1;
      ButLast(kvs);
      SortedAlready(kvs[..n]);
      InsertLast(kvs[..n], kvs[n]);
    }
  }

  ghost predicate Keyed(m: View) {
    forall k | k in m :: m[k].key == k
  }

  lemma {:induction false} ValuesByKeys(m: View, ks: seq<Key>)
    requires Keyed(m) && Increasing(ks)
    ensures ByKeys(Values(m, ks)) && forall x | x in Values(m, ks) :: x.key in ks
  {
    if ks != [] {
      TailIncreasing(ks);
      ValuesByKeys(m, ks[1..]);
      if ks[0] in m {
        SortedCons(m[ks[0]], Values(m, ks[1..]), ByKey);
      } else {
        assert Values(m, ks) == Values(m, ks[1..]);
      }
    }
  }

  /** A listing comes in key order. */
  lemma ListingByKeys(m: View, key: Key, rangeEnd: Key)
    requires Keyed(m)
    ensures ByKeys(Listing(m, key, rangeEnd))
  {
    MatchingIsCovered(m.Keys, key, rangeEnd);
    ValuesByKeys(m, MatchingKeys(m.Keys, key, rangeEnd));
  }
}
