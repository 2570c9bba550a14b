/** Chains: what appending to one, cutting one, and popping from one does to reads. */
module MvccChains {
  import opened Wrappers
  import opened Commands
  import opened Mvcc

  // ---- one chain -----------------------------------------------------------

  ghost predicate RevOrder(c: seq<Rev>, i: nat, j: nat) {
    i <= j < |c| ==> c[i].rev <= c[j].rev
  }

  /** Revisions never go down along a chain and stay within 1 and `bound`. */
  ghost predicate ChainOk(c: seq<Rev>, bound: nat) {
    && (forall i: nat, j: nat :: RevOrder(c, i, j))
    && (forall i | 0 <= i < |c| :: 1 <= c[i].rev <= bound)
  }

  lemma {:induction false} UptoAll(c: seq<Rev>, rev: nat)
    requires rev == 0 || forall i | 0 <= i < |c| :: c[i].rev <= rev
    ensures Upto(c, rev) == |c|
  {
    if c != [] { UptoAll(c[1..], rev); }
  }

  lemma {:induction false} UptoPush(c: seq<Rev>, e: Rev, rev: nat)
    requires 0 < rev < e.rev
    ensures Upto(c + [e], rev) == Upto(c, rev)
  {
    if c == [] {
      assert ([e])[1..] == [];
    } else {
      assert (c + [e])[1..] == c[1..] + [e];
      UptoPush(c[1..], e, rev);
    }
  }

  lemma {:induction false} UptoCut(c: seq<Rev>, k: nat, rev: nat)
    requires k <= |c| && forall i | 0 <= i < k :: c[i].rev <= rev
    ensures Upto(c, rev) == k + Upto(c[k..], rev)
  {
    if k > 0 {
      UptoCut(c[1..], k - 1, rev);
      assert c[1..][k - 1..] == c[k..];
    } else {
      assert c[0..] == c;
    }
  }

  /** What a batch at revision `rev` may do to a chain: add links of that revision. */
  ghost predicate Frozen(c0: seq<Rev>, c: seq<Rev>, rev: nat) {
    c0 <= c && forall i | |c0| <= i < |c| :: c[i].rev == rev
  }

  /** Reads below the revision being written do not see it. */
  lemma {:induction false} FrozenLive(c0: seq<Rev>, c: seq<Rev>, rev: nat, r: nat)
    requires Frozen(c0, c, rev) && 0 < r < rev
    ensures LiveIn(c, r) == LiveIn(c0, r)
    decreases |c|
  {
    if |c| == |c0| {
      assert c == c0;
    } else {
      var c1 := c[..|c| - 1];
      assert c == c1 + [c[|c| - 1]];
      UptoPush(c1, c[|c| - 1], r);
      FrozenLive(c0, c1, rev, r);
    }
  }

  lemma ChainPush(c: seq<Rev>, e: Rev, bound: nat)
    requires ChainOk(c, bound) && e.rev == bound > 0
    ensures ChainOk(c + [e], bound)
  {
    forall i: nat, j: nat ensures RevOrder(c + [e], i, j) { assert RevOrder(c, i, j); }
  }

  lemma ChainGrow(c: seq<Rev>, bound: nat, bound': nat)
    requires ChainOk(c, bound) && bound <= bound'
    ensures ChainOk(c, bound')
  {
  }

  lemma LivePush(c: seq<Rev>, e: Rev)
    ensures LiveIn(c + [e], 0) == if e.deleted then None else Some(e)
  {
    UptoAll(c + [e], 0);
  }

  // ---- compaction of one chain ---------------------------------------------

  lemma {:induction false} KeepFromIs(c: seq<Rev>, target: nat)
    requires c != []
    ensures var k := KeepFrom(c, target);
            k < |c| && (k > 0 ==> c[k].rev <= target) && forall i | k < i < |c| :: c[i].rev > target
  {
    if c[|c| - 1].rev > target && |c| > 1 {
      KeepFromIs(c[..|c| - 1], target);
    }
  }

  /** The kept chain reads the same at `target` and later, and reaches back no further than it must. */
  lemma KeptReads(c: seq<Rev>, bound: nat, target: nat, r: nat)
    requires ChainOk(c, bound) && (r == 0 || r >= target)
    ensures LiveIn(Kept(c, target), r) == LiveIn(c, r)
    ensures ChainOk(Kept(c, target), bound)
    ensures forall i | 1 <= i < |Kept(c, target)| :: Kept(c, target)[i].rev > target
  {
    if c != [] {
      var k := KeepFrom(c, target);
      KeepFromIs(c, target);
      forall i | 0 <= i < k ensures c[i].rev <= target { assert RevOrder(c, i, k); }
      if r == 0 {
        UptoAll(c, 0);
        UptoAll(c[k..], 0);
      } else {
        UptoCut(c, k, r);
        if k > 0 {
          assert c[k].rev <= r;
          assert Upto(c[k..], r) >= 1;
        } else {
          assert c[0..] == c;
        }
      }
      forall i: nat, j: nat ensures RevOrder(c[k..], i, j) { assert RevOrder(c, k + i, k + j); }
    }
  }

  /** A key is dropped only if it is dead at every revision from `target` on. */
  lemma DeadReads(c: seq<Rev>, bound: nat, target: nat, r: nat)
    requires ChainOk(c, bound) && Dead(Kept(c, target)) && (r == 0 || r >= target)
    ensures LiveIn(c, r) == None
  {
    KeptReads(c, bound, target, r);
  }

  // ---- counting events -----------------------------------------------------

  function Count(events: seq<Event>, key: Key): nat {
    if events == [] then 0 else (if EventKey(events[0]) == key then 1 else 0) + Count(events[1..], key)
  }

  lemma {:induction false} CountPush(events: seq<Event>, e: Event, key: Key)
    ensures Count(events + [e], key) == Count(events, key) + if EventKey(e) == key then 1 else 0
  {
    if events == [] {
      assert ([e])[1..] == [];
      assert [] + [e] == [e];
    } else {
      assert (events + [e])[1..] == events[1..] + [e];
      CountPush(events[1..], e, key);
    }
  }

  // ---- undoing a batch -----------------------------------------------------

  function ChainIn(keys: map<Key, seq<Rev>>, key: Key): seq<Rev> {
    if key in keys then keys[key] else []
  }

  /** As many links of this revision lie on top of the old chain as there are events for the key. */
  ghost predicate Undoable(base: map<Key, seq<Rev>>, keys: map<Key, seq<Rev>>, events: seq<Event>, rev: nat, key: Key) {
    && Frozen(ChainIn(base, key), ChainIn(keys, key), rev)
    && |ChainIn(keys, key)| == |ChainIn(base, key)| + Count(events, key)
  }

  /** Popping once per event restores every chain, however often one key was written. */
  lemma {:induction false} PopAllRestores(base: map<Key, seq<Rev>>, keys: map<Key, seq<Rev>>, events: seq<Event>,
      rev: nat, key: Key)
    requires forall k :: Undoable(base, keys, events, rev, k)
    ensures ChainIn(PopAll(keys, events, rev), key) == ChainIn(base, key)
    decreases |events|
  {
    if events == [] {
      assert Undoable(base, keys, events, rev, key);
    } else {
      var k0 := EventKey(events[0]);
      var keys' := Pop(keys, k0, rev);
      forall k ensures Undoable(base, keys', events[1..], rev, k) {
        assert Undoable(base, keys, events, rev, k);
        if k == k0 {
          var c := ChainIn(keys, k);
          assert c[|c| - 1].rev == rev;
          assert ChainIn(keys', k) == c[..|c| - 1];
        }
      }
      PopAllRestores(base, keys', events[1..], rev, key);
    }
  }
}
