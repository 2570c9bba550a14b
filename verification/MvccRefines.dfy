/**
 The store refines the plain keyspace: every command gives the same answer and every readable revision reads
 the same.
 */
module MvccRefines {
  import opened Wrappers
  import opened Commands
  import opened Keys
  import opened Mvcc
  import opened MvccPlain
  import opened MvccChains

  ghost predicate ChainsOk(s: Store, bound: nat) {
    forall k | k in s.keys :: ChainOk(s.keys[k], bound)
  }

  /** The newest state of a key. */
  ghost predicate NowIs(s: Store, m: View, k: Key) {
    KvAt(s, k, 0) == Lookup(m, k)
  }

  ghost predicate Now(s: Store, m: View) {
    forall k :: NowIs(s, m, k)
  }

  ghost predicate ReadsAs(s: Store, m: View, r: nat, k: Key) {
    KvAt(s, k, r) == Lookup(m, k)
  }

  ghost predicate SameLeases(leases: map<int, Lease>, grants: map<int, Grant>) {
    && leases.Keys == grants.Keys
    && forall id | id in leases :: leases[id].ttl == grants[id].ttl && leases[id].expiry == grants[id].expiry
  }

  /** Every revision that has not been compacted reads as the plain view of that revision. */
  ghost predicate Refines(s: Store, p: Keyspace) {
    && s.revision == Revision(p) && s.compactRevision == p.compact <= s.revision
    && ChainsOk(s, s.revision)
    && SameLeases(s.leases, p.leases)
    && (forall r: nat, k {:trigger ReadsAs(s, p.views[r], r, k)} | 0 < r && p.compact <= r <= s.revision ::
        ReadsAs(s, p.views[r], r, k))
    && Now(s, Current(p))
  }

  // ---- listings ------------------------------------------------------------

  /** Collecting live keys from all keys ever seen is listing the live map. */
  lemma {:induction false} CollectIs(s: Store, m: View, ks: seq<Key>, r: nat)
    requires forall k | k in ks :: KvAt(s, k, r) == Lookup(m, k)
    ensures Collect(s, ks, r) == Values(m, ks)
  {
    if ks != [] {
      assert ks[0] in ks;
      forall k | k in ks[1..] ensures KvAt(s, k, r) == Lookup(m, k) { assert k in ks; }
      CollectIs(s, m, ks[1..], r);
    }
  }

  function OnlyIn(m: View, ks: seq<Key>): seq<Key> {
    if ks == [] then [] else (if ks[0] in m then [ks[0]] else []) + OnlyIn(m, ks[1..])
  }

  lemma {:induction false} OnlyInIs(m: View, ks: seq<Key>)
    requires Increasing(ks)
    ensures Increasing(OnlyIn(m, ks)) && Values(m, ks) == Values(m, OnlyIn(m, ks))
    ensures forall k :: k in OnlyIn(m, ks) <==> k in ks && k in m
  {
    if ks != [] {
      TailIncreasing(ks);
      OnlyInIs(m, ks[1..]);
      var rest := OnlyIn(m, ks[1..]);
      var all := OnlyIn(m, ks);
      if ks[0] in m {
        assert all == [ks[0]] + rest;
        assert all[1..] == rest;
        forall i: nat, j: nat ensures Before(all, i, j) {
          if i < j < |all| {
            assert all[j] == rest[j - 1] && all[j] in rest;
            if i > 0 { assert Before(rest, i - 1, j - 1); }
          }
        }
      } else {
        assert all == rest;
      }
    }
  }

  /** The keys that were ever written, filtered by the range, list the same as the live keys filtered by it. */
  lemma MatchingLive(all: set<Key>, m: View, key: Key, rangeEnd: Key)
    requires forall k | k in m && Covers(key, rangeEnd, k) :: k in all
    ensures OnlyIn(m, MatchingKeys(all, key, rangeEnd)) == MatchingKeys(m.Keys, key, rangeEnd)
    ensures Values(m, MatchingKeys(all, key, rangeEnd)) == Listing(m, key, rangeEnd)
  {
    MatchingIsCovered(all, key, rangeEnd);
    MatchingIsCovered(m.Keys, key, rangeEnd);
    OnlyInIs(m, MatchingKeys(all, key, rangeEnd));
    IncreasingUnique(OnlyIn(m, MatchingKeys(all, key, rangeEnd)), MatchingKeys(m.Keys, key, rangeEnd));
  }

  lemma ListingIs(s: Store, m: View, r: nat, key: Key, rangeEnd: Key)
    requires forall k :: KvAt(s, k, r) == Lookup(m, k)
    ensures Collect(s, MatchingKeys(s.keys.Keys, key, rangeEnd), r) == Listing(m, key, rangeEnd)
  {
    var ks := MatchingKeys(s.keys.Keys, key, rangeEnd);
    CollectIs(s, m, ks, r);
    forall k | k in m ensures k in s.keys.Keys {
      assert KvAt(s, k, r) == Lookup(m, k);
      UptoAll([], r);
    }
    MatchingLive(s.keys.Keys, m, key, rangeEnd);
  }

  // ---- in the middle of a batch --------------------------------------------

  ghost predicate KeyWork(s0: Store, s: Store, rev: nat, events: seq<Event>, k: Key) {
    Undoable(s0.keys, s.keys, events, rev, k)
  }

  /** A batch under way at revision `rev`: `s0` before it, `s` now, and `m` the live keys now. */
  ghost predicate Work(s0: Store, s: Store, m: View, rev: nat) {
    && s.revision == s0.revision && s.compactRevision == s0.compactRevision && rev == s0.revision + 1
    && s0.events <= s.events
    && ChainsOk(s, rev)
    && (forall k {:trigger KeyWork(s0, s, rev, s.events[|s0.events|..], k)} ::
        KeyWork(s0, s, rev, s.events[|s0.events|..], k))
    && Now(s, m)
  }

  lemma WorkStarts(s: Store, m: View)
    requires ChainsOk(s, s.revision) && Now(s, m)
    ensures Work(s, s, m, s.revision + 1)
  {
    assert s.events[|s.events|..] == [];
  }

  /** One link pushed with its event. */
  lemma WorkPush(s0: Store, s: Store, m: View, rev: nat, k0: Key, e: Rev, event: Event, leases: map<int, Lease>,
      m': View)
    requires Work(s0, s, m, rev) && e.rev == rev && EventKey(event) == k0
    requires forall k | k != k0 :: Lookup(m', k) == Lookup(m, k)
    requires Lookup(m', k0) == if e.deleted then None else Some(KvOf(k0, e))
    ensures Work(s0, s.(keys := s.keys[k0 := Chain(s, k0) + [e]], leases := leases, events := s.events + [event]),
            m', rev)
  {
    var s' := s.(keys := s.keys[k0 := Chain(s, k0) + [e]], leases := leases, events := s.events + [event]);
    var n := |s0.events|;
    assert s'.events[n..] == s.events[n..] + [event];
    forall k ensures KeyWork(s0, s', rev, s'.events[n..], k) {
      assert KeyWork(s0, s, rev, s.events[n..], k);
      CountPush(s.events[n..], event, k);
    }
    forall k ensures NowIs(s', m', k) {
      assert NowIs(s, m, k);
      if k == k0 { LivePush(Chain(s, k0), e); }
    }
    assert ChainOk(Chain(s, k0), rev);
    ChainPush(Chain(s, k0), e, rev);
  }

  /** Below the revision being written a batch is not visible. */
  lemma WorkReads(s0: Store, s: Store, m: View, rev: nat, r: nat, k: Key)
    requires Work(s0, s, m, rev) && 0 < r < rev
    ensures KvAt(s, k, r) == KvAt(s0, k, r)
  {
    assert KeyWork(s0, s, rev, s.events[|s0.events|..], k);
    FrozenLive(Chain(s0, k), Chain(s, k), rev, r);
  }

  // ---- each operation ------------------------------------------------------

  lemma RelinkKeepsIds(leases: map<int, Lease>, grants: map<int, Grant>, key: Key, from: int, to: int)
    requires SameLeases(leases, grants)
    ensures SameLeases(Relink(leases, key, from, to), grants)
  {
  }

  lemma PutSim(s0: Store, p: Keyspace, s: Store, m: View, rev: nat, op: Op)
    requires Work(s0, s, m, rev) && SameLeases(s.leases, p.leases) && op.OpPut?
    ensures var kv := NewKv(m, rev, op);
            match PutAt(s, rev, op)
            case Err(e) => e == LeaseNotFound && kv.lease != 0 && kv.lease !in p.leases
            case Ok(w) => (kv.lease == 0 || kv.lease in p.leases)
                          && Work(s0, w.store, m[op.key := kv], rev) && SameLeases(w.store.leases, p.leases)
                          && w.out.prevKv == Lookup(m, op.key)
  {
    assert NowIs(s, m, op.key);
    var previous := EntryAt(s, op.key, 0);
    var e := NewRev(previous, rev, op);
    var kv := NewKv(m, rev, op);
    assert KvOf(op.key, e) == kv;
    var leases := Relink(s.leases, op.key, LeaseOf(previous), e.lease);
    RelinkKeepsIds(s.leases, p.leases, op.key, LeaseOf(previous), e.lease);
    var event := PutEvent(rev, kv, PrevKv(op.key, previous));
    WorkPush(s0, s, m, rev, op.key, e, event, leases, m[op.key := kv]);
  }

  lemma DeleteKeySim(s0: Store, p: Keyspace, s: Store, m: View, rev: nat, key: Key)
    requires Work(s0, s, m, rev) && SameLeases(s.leases, p.leases)
    ensures var w := DeleteKey(s, rev, key);
            Work(s0, w.store, m - {key}, rev) && SameLeases(w.store.leases, p.leases)
            && w.out == (if key in m then [DeleteEvent(rev, key, Some(m[key]))] else [])
            && w.store.events == s.events + w.out
  {
    assert NowIs(s, m, key);
    match EntryAt(s, key, 0) {
      case None => assert m - {key} == m;
      case Some(prev) =>
        RelinkKeepsIds(s.leases, p.leases, key, prev.lease, 0);
        WorkPush(s0, s, m, rev, key, Tombstone(rev), DeleteEvent(rev, key, Some(KvOf(key, prev))),
                 Relink(s.leases, key, prev.lease, 0), m - {key});
    }
  }

  function Gone(m: View, rev: nat, ks: seq<Key>): seq<Event> {
    if ks == [] then []
    else (if ks[0] in m then [DeleteEvent(rev, ks[0], Some(m[ks[0]]))] else []) + Gone(m, rev, ks[1..])
  }

  lemma {:induction false} GoneSame(m: View, m': View, rev: nat, ks: seq<Key>)
    requires forall k | k in ks :: Lookup(m, k) == Lookup(m', k)
    ensures Gone(m, rev, ks) == Gone(m', rev, ks)
  {
    if ks != [] {
      assert ks[0] in ks;
      forall k | k in ks[1..] ensures Lookup(m, k) == Lookup(m', k) { assert k in ks; }
      GoneSame(m, m', rev, ks[1..]);
    }
  }

  ghost predicate Distinct(ks: seq<Key>) {
    forall i, j | 0 <= i < j < |ks| :: ks[i] != ks[j]
  }

  function Elements(ks: seq<Key>): set<Key> {
    set k | k in ks
  }

  lemma {:induction false} DeleteKeysSim(s0: Store, p: Keyspace, s: Store, m: View, rev: nat, ks: seq<Key>)
    requires Work(s0, s, m, rev) && SameLeases(s.leases, p.leases) && Distinct(ks)
    ensures var w := DeleteKeys(s, rev, ks);
            Work(s0, w.store, m - Elements(ks), rev) && SameLeases(w.store.leases, p.leases)
            && w.out == Gone(m, rev, ks) && w.store.events == s.events + w.out
    decreases |ks|
  {
    hide Work, DeleteKey;
    if ks == [] {
      assert m - Elements(ks) == m;
    } else {
      DeleteKeySim(s0, p, s, m, rev, ks[0]);
      var first := DeleteKey(s, rev, ks[0]);
      DeleteKeysSim(s0, p, first.store, m - {ks[0]}, rev, ks[1..]);
      assert m - {ks[0]} - Elements(ks[1..]) == m - Elements(ks) by {
        assert Elements(ks) == {ks[0]} + Elements(ks[1..]);
      }
      GoneSame(m, m - {ks[0]}, rev, ks[1..]);
    }
  }

  lemma {:induction false} IncreasingDistinct(ks: seq<Key>)
    requires Increasing(ks)
    ensures Distinct(ks)
  {
    forall i, j | 0 <= i < j < |ks| ensures ks[i] != ks[j] {
      assert Before(ks, i, j);
      LtIrreflexive(ks[i]);
    }
  }

  lemma {:induction false} GoneListing(m: View, rev: nat, ks: seq<Key>)
    ensures |Gone(m, rev, ks)| == |Values(m, ks)| && Prevs(Gone(m, rev, ks)) == Somes(Values(m, ks))
  {
    if ks != [] {
      GoneListing(m, rev, ks[1..]);
      if ks[0] in m {
        assert Gone(m, rev, ks)[1..] == Gone(m, rev, ks[1..]);
        assert Values(m, ks)[1..] == Values(m, ks[1..]);
      } else {
        assert Gone(m, rev, ks) == Gone(m, rev, ks[1..]);
        assert Values(m, ks) == Values(m, ks[1..]);
      }
    }
  }

  lemma DeleteSim(s0: Store, p: Keyspace, s: Store, m: View, rev: nat, key: Key, rangeEnd: Key)
    requires Work(s0, s, m, rev) && SameLeases(s.leases, p.leases)
    ensures var w := DeleteAt(s, rev, key, rangeEnd);
            Work(s0, w.store, Removed(m, key, rangeEnd), rev) && SameLeases(w.store.leases, p.leases)
            && |w.out| == |Listing(m, key, rangeEnd)| && Prevs(w.out) == Somes(Listing(m, key, rangeEnd))
            && w.store.events == s.events + w.out
  {
    var ks := MatchingKeys(s.keys.Keys, key, rangeEnd);
    MatchingIsCovered(s.keys.Keys, key, rangeEnd);
    IncreasingDistinct(ks);
    DeleteKeysSim(s0, p, s, m, rev, ks);
    forall k | k in m ensures k in s.keys.Keys { assert NowIs(s, m, k); UptoAll([], 0); }
    MatchingLive(s.keys.Keys, m, key, rangeEnd);
    GoneListing(m, rev, ks);
    assert m - Elements(ks) == Removed(m, key, rangeEnd);
  }

  lemma RangeSim(s0: Store, p: Keyspace, s: Store, m: View, rev: nat, q: Query)
    requires Refines(s0, p) && Work(s0, s, m, rev)
    ensures Range(s, q) == PlainRange(p, m, q)
  {
    hide Shape;
    var r := if q.revision < 0 then 0 else q.revision;
    if (r == 0 || r >= s.compactRevision) && r <= s.revision {
      var source := if r == 0 then m else p.views[r];
      forall k ensures KvAt(s, k, r) == Lookup(source, k) {
        if r == 0 {
          assert NowIs(s, m, k);
        } else {
          WorkReads(s0, s, m, rev, r, k);
          assert ReadsAs(s0, p.views[r], r, k);
        }
      }
      ListingIs(s, source, r, q.key, q.rangeEnd);
    }
  }
}
