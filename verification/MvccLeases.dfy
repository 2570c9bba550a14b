/** The index from leases to keys: what keeps it exact, and exactly what breaks it. */
module MvccLeases {
  import opened Wrappers
  import opened Commands
  import opened Keys
  import opened Mvcc
  import opened MvccPlain
  import opened MvccChains
  import opened MvccRefines
  import opened MvccRuns

  function LeaseAt(s: Store, k: Key): int {
    LeaseOf(EntryAt(s, k, 0))
  }

  /** A key is listed under exactly the lease its newest entry carries; `x` is a lease just removed, or 0. */
  ghost predicate Indexed(s: Store, x: int, k: Key) {
    && (LeaseAt(s, k) != 0 ==> LeaseAt(s, k) in s.leases || LeaseAt(s, k) == x)
    && forall id | id in s.leases :: k in s.leases[id].keys <==> LeaseAt(s, k) == id
  }

  ghost predicate LeaseIndexBut(s: Store, x: int) {
    && 0 !in s.leases && x !in s.leases
    && (forall id | id in s.leases :: Distinct(s.leases[id].keys))
    && forall k :: Indexed(s, x, k)
  }

  /** Every lease's key set is exactly the set of live keys whose newest entry carries it. */
  ghost predicate LeaseIndex(s: Store) {
    LeaseIndexBut(s, 0)
  }

  // ---- the key sets --------------------------------------------------------

  lemma {:induction false} WithoutIs(ks: seq<Key>, key: Key)
    requires Distinct(ks)
    ensures Distinct(Without(ks, key)) && forall k :: k in Without(ks, key) <==> k in ks && k != key
  {
    if ks != [] {
      var rest := ks[1..];
      forall i, j | 0 <= i < j < |rest| ensures rest[i] != rest[j] { assert ks[i + 1] != ks[j + 1]; }
      WithoutIs(rest, key);
      forall j | 0 <= j < |rest| ensures rest[j] != ks[0] { assert ks[0] != ks[j + 1]; }
      var w := Without(ks, key);
      if ks[0] != key {
        forall i, j | 0 <= i < j < |w| ensures w[i] != w[j] {
          if i == 0 { assert w[j] in Without(rest, key); }
        }
      }
    }
  }

  lemma RelinkIs(leases: map<int, Lease>, key: Key, from: int, to: int, id: int, k: Key)
    requires forall i | i in leases :: Distinct(leases[i].keys)
    requires 0 !in leases && id in leases
    ensures var leases' := Relink(leases, key, from, to);
            && leases'.Keys == leases.Keys && Distinct(leases'[id].keys)
            && (k != key ==> (k in leases'[id].keys <==> k in leases[id].keys))
            && (k == key ==> (k in leases'[id].keys <==> id == to || (k in leases[id].keys && id != from)))
  {
    var detached := if from != 0 then Detach(leases, from, key) else leases;
    if from in leases { WithoutIs(leases[from].keys, key); }
  }

  // ---- single operations ---------------------------------------------------

  /** One link pushed, with its key moved from the old entry's lease to the new one's. */
  lemma PushIndexed(s: Store, x: int, k0: Key, e: Rev, events: seq<Event>)
    requires LeaseIndexBut(s, x) && (e.lease == 0 || e.lease in s.leases) && (e.deleted ==> e.lease == 0)
    ensures LeaseIndexBut(s.(keys := s.keys[k0 := Chain(s, k0) + [e]], events := events,
                             leases := Relink(s.leases, k0, LeaseAt(s, k0), e.lease)), x)
  {
    var leases' := Relink(s.leases, k0, LeaseAt(s, k0), e.lease);
    var s' := s.(keys := s.keys[k0 := Chain(s, k0) + [e]], events := events, leases := leases');
    LivePush(Chain(s, k0), e);
    assert leases'.Keys == s.leases.Keys;
    forall id | id in leases' ensures Distinct(leases'[id].keys) {
      RelinkIs(s.leases, k0, LeaseAt(s, k0), e.lease, id, k0);
    }
    forall k ensures Indexed(s', x, k) {
      assert Indexed(s, x, k);
      forall id | id in leases' ensures k in leases'[id].keys <==> LeaseAt(s', k) == id {
        RelinkIs(s.leases, k0, LeaseAt(s, k0), e.lease, id, k);
      }
    }
  }

  lemma PutIndexed(s: Store, rev: nat, op: Op)
    requires LeaseIndex(s) && op.OpPut? && PutAt(s, rev, op).Ok?
    ensures LeaseIndex(PutAt(s, rev, op).value.store)
  {
    var e := NewRev(EntryAt(s, op.key, 0), rev, op);
    PushIndexed(s, 0, op.key, e, PutAt(s, rev, op).value.store.events);
  }

  lemma DeleteKeyIndexed(s: Store, x: int, rev: nat, key: Key)
    requires LeaseIndexBut(s, x)
    ensures LeaseIndexBut(DeleteKey(s, rev, key).store, x)
  {
    if EntryAt(s, key, 0).Some? {
      PushIndexed(s, x, key, Tombstone(rev), DeleteKey(s, rev, key).store.events);
    }
  }

  lemma {:induction false} DeleteKeysIndexed(s: Store, x: int, rev: nat, ks: seq<Key>)
    requires LeaseIndexBut(s, x)
    ensures LeaseIndexBut(DeleteKeys(s, rev, ks).store, x)
    decreases |ks|
  {
    if ks != [] {
      DeleteKeyIndexed(s, x, rev, ks[0]);
      DeleteKeysIndexed(DeleteKey(s, rev, ks[0]).store, x, rev, ks[1..]);
    }
  }

  /** The index is exact after every operation of a batch, up to where the batch got. */
  lemma {:induction false} OpsIndexed(s: Store, rev: nat, ops: seq<Op>)
    requires LeaseIndex(s)
    ensures LeaseIndex(ApplyOps(s, rev, ops).store)
    decreases |ops|
  {
    if ops != [] {
      match ops[0] {
        case OpPut(_, _, _, _, _, _) => if PutAt(s, rev, ops[0]).Ok? { PutIndexed(s, rev, ops[0]); }
        case OpDelete(key, rangeEnd, _) => DeleteKeysIndexed(s, 0, rev, MatchingKeys(s.keys.Keys, key, rangeEnd));
        case _ =>
      }
      match ApplyOp(s, rev, ops[0]) {
        case Err(_) =>
        case Ok(w) => OpsIndexed(w.store, rev, ops[1..]);
      }
    }
  }

  /** The index speaks of newest entries and key sets only. */
  lemma SameIndex(s: Store, s': Store, x: int)
    requires LeaseIndexBut(s, x) && s'.leases == s.leases && forall k :: LeaseAt(s', k) == LeaseAt(s, k)
    ensures LeaseIndexBut(s', x)
  {
    forall k ensures Indexed(s', x, k) { assert Indexed(s, x, k); }
  }

  // ---- batches -------------------------------------------------------------

  /** The lease a key's newest entry carries, if the key is live. */
  function Carried(s: Store, k: Key): Option<int> {
    match EntryAt(s, k, 0) case None => None case Some(e) => Some(e.lease)
  }

  /** What an operation makes of the lease a key carries. */
  function CarryOp(op: Op, k: Key, held: Option<int>): Option<int> {
    match op
    case OpPut(key, _, lease, _, _, ignoreLease) =>
      if k != key then held else if ignoreLease && held.Some? then held else Some(lease)
    case OpDelete(key, rangeEnd, _) => if Covers(key, rangeEnd, k) then None else held
    case _ => held
  }

  function CarryOps(ops: seq<Op>, k: Key, held: Option<int>): Option<int> {
    if ops == [] then held else CarryOp(ops[|ops| - 1], k, CarryOps(ops[..|ops| - 1], k, held))
  }

  function LeaseIn(held: Option<int>): int {
    match held case None => 0 case Some(id) => id
  }

  /** The operation at `n` throws: a put on an unknown lease, a read at a refused revision, an unknown operation. */
  predicate ThrowsAt(s: Store, ops: seq<Op>, n: nat)
    requires n < |ops|
  {
    match ops[n]
    case OpPut(key, _, _, _, _, _) =>
      var id := LeaseIn(CarryOps(ops[..n + 1], key, Carried(s, key)));
      id != 0 && id !in s.leases
    case OpDelete(_, _, _) => false
    case OpRange(q) => q.revision > s.revision || 0 < q.revision < s.compactRevision
    case OpUnknown => true
  }

  /** The first operation from `n` on that throws, or the length of the batch. */
  function FirstThrow(s: Store, ops: seq<Op>, n: nat): (m: nat)
    requires n <= |ops|
    ensures n <= m <= |ops|
    decreases |ops| - n
  {
    if n == |ops| || ThrowsAt(s, ops, n) then n else FirstThrow(s, ops, n + 1)
  }

  /**
   The operations before the first that throws leave every key the lease it has: a condition on the
   store and the batch, to be checked before anything is applied.
   */
  ghost predicate LeasesUndisturbed(s: Store, ops: seq<Op>) {
    forall k :: Undisturbed(s, ops[..FirstThrow(s, ops, 0)], k)
  }

  ghost predicate Undisturbed(s: Store, ops: seq<Op>, k: Key) {
    LeaseIn(CarryOps(ops, k, Carried(s, k))) == LeaseIn(Carried(s, k))
  }

  lemma PutCarries(s: Store, rev: nat, op: Op, k: Key)
    requires op.OpPut?
    ensures PutAt(s, rev, op).Err?
            <==> var id := LeaseIn(CarryOp(op, op.key, Carried(s, op.key))); id != 0 && id !in s.leases
    ensures PutAt(s, rev, op).Ok? ==> Carried(PutAt(s, rev, op).value.store, k) == CarryOp(op, k, Carried(s, k))
  {
    LivePush(Chain(s, op.key), NewRev(EntryAt(s, op.key, 0), rev, op));
  }

  lemma DeleteCarries(s: Store, rev: nat, op: Op, k: Key)
    requires op.OpDelete?
    ensures Carried(DeleteAt(s, rev, op.key, op.rangeEnd).store, k) == CarryOp(op, k, Carried(s, k))
  {
    var ks := MatchingKeys(s.keys.Keys, op.key, op.rangeEnd);
    MatchingIsCovered(s.keys.Keys, op.key, op.rangeEnd);
    DeleteKeysNow(s, rev, ks, k);
    if k !in s.keys { UptoAll([], 0); }
  }

  /** `s` is where a batch that began in `s0` stands before its operation `n`. */
  ghost predicate Reached(s0: Store, ops: seq<Op>, n: nat, s: Store) {
    && n <= |ops| && s.revision == s0.revision && s.compactRevision == s0.compactRevision
    && s.leases.Keys == s0.leases.Keys
    && forall k :: Carried(s, k) == CarryOps(ops[..n], k, Carried(s0, k))
  }

  lemma OpCarries(s0: Store, ops: seq<Op>, n: nat, s: Store, rev: nat)
    requires n < |ops| && Reached(s0, ops, n, s)
    ensures ApplyOp(s, rev, ops[n]).Err? <==> ThrowsAt(s0, ops, n)
    ensures ApplyOp(s, rev, ops[n]).Ok? ==> Reached(s0, ops, n + 1, ApplyOp(s, rev, ops[n]).value.store)
  {
    assert ops[..n + 1][..n] == ops[..n];
    var op := ops[n];
    forall k ensures CarryOps(ops[..n + 1], k, Carried(s0, k)) == CarryOp(op, k, Carried(s, k)) {}
    match op {
      case OpPut(key, _, _, _, _, _) =>
        PutCarries(s, rev, op, key);
        if PutAt(s, rev, op).Ok? {
          forall k ensures Carried(PutAt(s, rev, op).value.store, k) == CarryOps(ops[..n + 1], k, Carried(s0, k)) {
            PutCarries(s, rev, op, k);
          }
        }
      case OpDelete(key, rangeEnd, _) =>
        DeleteKeysNoIds(s, rev, MatchingKeys(s.keys.Keys, key, rangeEnd));
        forall k ensures Carried(DeleteAt(s, rev, key, rangeEnd).store, k)
            == CarryOps(ops[..n + 1], k, Carried(s0, k)) {
          DeleteCarries(s, rev, op, k);
        }
      case _ =>
    }
  }

  /** The batch stops at the first operation that throws, every key carrying what the operations before it left. */
  lemma {:induction false} StopsAt(s0: Store, ops: seq<Op>, n: nat, s: Store, rev: nat)
    requires Reached(s0, ops, n, s)
    ensures ApplyOps(s, rev, ops[n..]).Thrown? <==> FirstThrow(s0, ops, n) < |ops|
    ensures Reached(s0, ops, FirstThrow(s0, ops, n), ApplyOps(s, rev, ops[n..]).store)
    decreases |ops| - n
  {
    if n < |ops| {
      OpCarries(s0, ops, n, s, rev);
      assert ops[n..][1..] == ops[n + 1..];
      if !ThrowsAt(s0, ops, n) { StopsAt(s0, ops, n + 1, ApplyOp(s, rev, ops[n]).value.store, rev); }
    }
  }

  lemma WhereItStops(s: Store, ops: seq<Op>)
    ensures ApplyWrites(s, ops).result.Err? <==> FirstThrow(s, ops, 0) < |ops|
    ensures Reached(s, ops, FirstThrow(s, ops, 0), ApplyOps(s, s.revision + 1, ops).store)
  {
    hide ApplyOps, Rollback, FirstThrow;
    assert ops[0..] == ops;
    StopsAt(s, ops, 0, s, s.revision + 1);
  }

  /**
   A failed batch keeps the index exact if and only if the operations before the one that throws
   leave every key the lease it had: rollback restores the entries but not the key sets.
   */
  lemma FailedBatchLeases(s: Store, p: Keyspace, ops: seq<Op>)
    requires Refines(s, p) && LeaseIndex(s) && FirstThrow(s, ops, 0) < |ops|
    ensures ApplyWrites(s, ops).result.Err?
    ensures LeaseIndex(ApplyWrites(s, ops).store) <==> LeasesUndisturbed(s, ops)
  {
    hide ApplyOps, FirstThrow, CarryOps, PopAll;
    var reached := ApplyOps(s, s.revision + 1, ops).store;
    var out := ApplyWrites(s, ops).store;
    WhereItStops(s, ops);
    OpsIndexed(s, s.revision + 1, ops);
    FailedBatchInvisible(s, p, ops);
    assert out.leases == reached.leases;
    var before := ops[..FirstThrow(s, ops, 0)];
    forall k ensures LeaseAt(out, k) == LeaseAt(s, k)
        && (LeaseAt(reached, k) == LeaseAt(s, k) <==> Undisturbed(s, before, k)) {
      assert EntryAt(out, k, 0) == EntryAt(s, k, 0);
      assert Carried(reached, k) == CarryOps(before, k, Carried(s, k));
    }
    if LeasesUndisturbed(s, ops) {
      SameIndex(reached, out, 0);
    } else {
      var k :| !Undisturbed(s, before, k);
      assert Indexed(reached, 0, k) && Indexed(s, 0, k);
      assert LeaseAt(out, k) != 0 ==> LeaseAt(s, k) in s.leases;
      SameIds(s, p, ops);
      assert !Indexed(out, 0, k);
    }
  }

  lemma SameIds(s: Store, p: Keyspace, ops: seq<Op>)
    requires Refines(s, p) && ApplyWrites(s, ops).result.Err?
    ensures ApplyWrites(s, ops).store.leases.Keys == s.leases.Keys
  {
    FailedBatchInvisible(s, p, ops);
  }

  lemma WritesIndexed(s: Store, p: Keyspace, ops: seq<Op>)
    requires Refines(s, p) && LeaseIndex(s)
    requires FirstThrow(s, ops, 0) < |ops| ==> LeasesUndisturbed(s, ops)
    ensures LeaseIndex(ApplyWrites(s, ops).store)
  {
    hide ApplyOps, FirstThrow, LeasesUndisturbed, PopAll;
    WhereItStops(s, ops);
    if FirstThrow(s, ops, 0) < |ops| {
      FailedBatchLeases(s, p, ops);
    } else {
      OpsIndexed(s, s.revision + 1, ops);
      SameIndex(ApplyOps(s, s.revision + 1, ops).store, ApplyWrites(s, ops).store, 0);
    }
  }

  // ---- lease commands ------------------------------------------------------

  /** Granting keeps the index exact if and only if the id is new or its lease holds no key. */
  lemma GrantLeases(s: Store, id: int, ttl: int, expiry: int, index: nat)
    requires LeaseIndex(s)
    ensures var id' := GrantId(s, id, index);
            LeaseIndex(ApplyLeaseGrant(s, id, ttl, expiry, index).store)
            <==> id' !in s.leases || s.leases[id'].keys == []
  {
    var id' := GrantId(s, id, index);
    var s' := ApplyLeaseGrant(s, id, ttl, expiry, index).store;
    if id' in s.leases && s.leases[id'].keys != [] {
      var k := s.leases[id'].keys[0];
      assert Indexed(s, 0, k);
      assert !Indexed(s', 0, k);
    } else {
      forall k ensures Indexed(s', 0, k) { assert Indexed(s, 0, k); }
    }
  }

  lemma KeepAliveLeases(s: Store, id: int, expiry: int)
    requires LeaseIndex(s)
    ensures LeaseIndex(ApplyLeaseKeepAlive(s, id, expiry).store)
  {
    forall k ensures Indexed(ApplyLeaseKeepAlive(s, id, expiry).store, 0, k) { assert Indexed(s, 0, k); }
  }

  lemma IndexIsRight(s: Store, p: Keyspace, id: int)
    requires Refines(s, p) && LeaseIndex(s) && id in s.leases
    ensures Distinct(s.leases[id].keys) && IndexRight(s, Current(p), id)
    ensures forall k :: k in s.leases[id].keys ==> k in Current(p)
  {
    var m := Current(p);
    forall k ensures k in m ==> (k in s.leases[id].keys <==> m[k].lease == id) {
      assert NowIs(s, m, k) && Indexed(s, 0, k);
    }
    forall k | k in s.leases[id].keys ensures k in m {
      assert NowIs(s, m, k) && Indexed(s, 0, k);
    }
  }

  /** A revoked lease is gone, no live key carries it, at most one revision was used, and the index is exact. */
  lemma RevokeLeases(s: Store, p: Keyspace, id: int)
    requires Refines(s, p) && LeaseIndex(s) && id in s.leases
    ensures var s' := ApplyLeaseRevoke(s, id).store;
            && LeaseIndex(s') && id !in s'.leases
            && (forall k :: LeaseAt(s', k) != id)
            && (forall k :: LeaseAt(s, k) != id ==> EntryAt(s', k, 0) == EntryAt(s, k, 0))
            && s'.revision == s.revision + (if s.leases[id].keys == [] then 0 else 1)
  {
    var rev, ks := s.revision + 1, s.leases[id].keys;
    var s1 := s.(leases := s.leases - {id});
    DeleteEachIs(s1, rev, ks);
    DeletedLeases(s, id, rev, s1);
    RevokedRevision(s, p, id);
    var s2 := DeleteKeys(s1, rev, ks).store;
    var s' := ApplyLeaseRevoke(s, id).store;
    assert s' == s2 || s' == s2.(revision := rev);
    forall k ensures Indexed(s', 0, k) { assert DeletedLease(s, s2, id, k); }
    forall k ensures LeaseAt(s', k) != id { assert DeletedLease(s, s2, id, k); }
    forall k | LeaseAt(s, k) != id ensures EntryAt(s', k, 0) == EntryAt(s, k, 0) {
      assert DeletedLease(s, s2, id, k);
    }
  }

  ghost predicate DeletedLease(s: Store, s2: Store, id: int, k: Key) {
    && Indexed(s2, 0, k) && LeaseAt(s2, k) != id
    && (LeaseAt(s, k) != id ==> EntryAt(s2, k, 0) == EntryAt(s, k, 0))
  }

  lemma DeletedLeases(s: Store, id: int, rev: nat, s1: Store)
    requires LeaseIndex(s) && id in s.leases && s1 == s.(leases := s.leases - {id})
    ensures var s2 := DeleteKeys(s1, rev, s.leases[id].keys).store;
            && 0 !in s2.leases && id !in s2.leases
            && (forall i | i in s2.leases :: Distinct(s2.leases[i].keys))
            && forall k :: DeletedLease(s, s2, id, k)
  {
    var ks := s.leases[id].keys;
    assert LeaseIndexBut(s1, id) by {
      forall k ensures Indexed(s1, id, k) { assert Indexed(s, 0, k); }
    }
    DeleteKeysIndexed(s1, id, rev, ks);
    var s2 := DeleteKeys(s1, rev, ks).store;
    DeleteKeysNoIds(s1, rev, ks);
    forall k ensures DeletedLease(s, s2, id, k) {
      DeleteKeysNow(s1, rev, ks, k);
      assert Indexed(s2, id, k) && Indexed(s, 0, k);
    }
  }

  lemma {:induction false} DeleteKeysNoIds(s: Store, rev: nat, ks: seq<Key>)
    ensures var s' := DeleteKeys(s, rev, ks).store;
            s'.leases.Keys == s.leases.Keys && s'.revision == s.revision && s'.compactRevision == s.compactRevision
    decreases |ks|
  {
    if ks != [] { DeleteKeysNoIds(DeleteKey(s, rev, ks[0]).store, rev, ks[1..]); }
  }

  lemma RevokedRevision(s: Store, p: Keyspace, id: int)
    requires Refines(s, p) && LeaseIndex(s) && id in s.leases
    ensures var s' := ApplyLeaseRevoke(s, id).store;
            s'.revision == s.revision + (if s.leases[id].keys == [] then 0 else 1)
  {
    var ks := s.leases[id].keys;
    IndexIsRight(s, p, id);
    RevokeWork(s, p, id);
    if ks != [] {
      assert ks[0] in Current(p) && ks[0] in Elements(ks);
      assert ks[0] !in Current(p) - Elements(ks);
    } else {
      assert Current(p) - Elements(ks) == Current(p);
    }
  }

  lemma {:induction false} DeleteKeysNow(s: Store, rev: nat, ks: seq<Key>, k: Key)
    ensures var s' := DeleteKeys(s, rev, ks).store;
            if k in ks then EntryAt(s', k, 0) == None else EntryAt(s', k, 0) == EntryAt(s, k, 0)
    decreases |ks|
  {
    if ks != [] {
      var s1 := DeleteKey(s, rev, ks[0]).store;
      LivePush(Chain(s, ks[0]), Tombstone(rev));
      DeleteKeysNow(s1, rev, ks[1..], k);
    }
  }

  // ---- sweeping expired leases ---------------------------------------------

  /** The leases whose time is up at `now`; an expiry of 0 never comes. */
  function Expired(s: Store, now: int): set<int> {
    set id | id in s.leases && s.leases[id].expiry != 0 && s.leases[id].expiry <= now
  }

  /** The revocations a sweep proposes, applied one after the other. */
  function RevokeAll(s: Store, ids: seq<int>): Store
    decreases |ids|
  {
    if ids == [] then s else RevokeAll(ApplyLeaseRevoke(s, ids[0]).store, ids[1..])
  }

  /** Revoking leaves every other lease's expiry and whatever does not carry the lease. */
  lemma RevokeSpares(s: Store, p: Keyspace, id: int) returns (p': Keyspace)
    requires Refines(s, p) && LeaseIndex(s)
    ensures var s' := ApplyLeaseRevoke(s, id).store;
            && Refines(s', p') && LeaseIndex(s') && id !in s'.leases
            && s.revision <= s'.revision <= s.revision + 1
            && (forall i | i in s'.leases :: i in s.leases && s'.leases[i].expiry == s.leases[i].expiry)
            && (forall k :: LeaseAt(s', k) != id || id == 0)
            && (forall k :: LeaseAt(s, k) != id ==> EntryAt(s', k, 0) == EntryAt(s, k, 0))
  {
    p' := p;
    if id in s.leases {
      RevokeLeases(s, p, id);
      IndexIsRight(s, p, id);
      RevokeWork(s, p, id);
      var m' := Current(p) - Elements(s.leases[id].keys);
      var p1: Keyspace := p.(leases := p.leases - {id});
      p' := if m' != Current(p) then p1.(views := p1.views + [m']) else p1;
    } else {
      forall k ensures LeaseAt(s, k) != id || id == 0 { assert Indexed(s, 0, k); }
    }
  }

  /**
   Once the revocations of a sweep are applied no expired lease is left, no live key carries one of
   the revoked leases, every key that carried none of them is as it was, and each revocation used at
   most one revision.
   */
  lemma {:induction false} SweepClears(s: Store, p: Keyspace, ids: seq<int>, now: int)
    requires Refines(s, p) && LeaseIndex(s) && 0 !in ids && Expired(s, now) <= set id | id in ids
    ensures var s' := RevokeAll(s, ids);
            && LeaseIndex(s') && Expired(s', now) == {}
            && (forall i | i in s'.leases :: i in s.leases && i !in ids)
            && s.revision <= s'.revision <= s.revision + |ids|
            && (forall k :: LeaseAt(s', k) !in ids)
            && (forall k :: LeaseAt(s, k) !in ids ==> EntryAt(s', k, 0) == EntryAt(s, k, 0))
    decreases |ids|
  {
    if ids == [] {
      assert Expired(s, now) == {};
    } else {
      hide ApplyLeaseRevoke, Refines, LeaseIndex;
      assert ids[0] in ids && forall i | i in ids[1..] :: i in ids;
      var s1 := ApplyLeaseRevoke(s, ids[0]).store;
      var p1 := RevokeSpares(s, p, ids[0]);
      forall i | i in Expired(s1, now) ensures i in ids[1..] {
        assert i in Expired(s, now);
      }
      SweepClears(s1, p1, ids[1..], now);
    }
    CarriesNone(RevokeAll(s, ids), ids);
  }

  lemma CarriesNone(s: Store, ids: seq<int>)
    requires LeaseIndex(s) && 0 !in ids && forall i | i in ids :: i !in s.leases
    ensures forall k :: LeaseAt(s, k) !in ids
  {
    forall k ensures LeaseAt(s, k) !in ids { assert Indexed(s, 0, k); }
  }

  // ---- every command, every log --------------------------------------------

  /** A failure of the first operation has touched nothing. */
  lemma FirstUndisturbed(s: Store, ops: seq<Op>)
    requires FirstThrow(s, ops, 0) == 0
    ensures LeasesUndisturbed(s, ops)
  {
    assert ops[..0] == [];
  }

  lemma SingleUndisturbed(s: Store, op: Op)
    ensures FirstThrow(s, [op], 0) < 1 ==> LeasesUndisturbed(s, [op])
  {
    if FirstThrow(s, [op], 0) < 1 { FirstUndisturbed(s, [op]); }
  }

  /**
   What a caller has to respect: no transaction fails half-way through moving keys between leases, and no
   lease is granted again while keys are on it.
   */
  ghost predicate Tidy(s: Store, cmd: Command, index: nat) {
    match cmd
    case Txn(compare, success, failure) =>
      var ops := if CompareAll(s, compare) then success else failure;
      FirstThrow(s, ops, 0) < |ops| ==> LeasesUndisturbed(s, ops)
    case LeaseGrant(id, _, _) => var id' := GrantId(s, id, index); id' !in s.leases || s.leases[id'].keys == []
    case _ => true
  }

  lemma CompactLeases(s: Store, target: int)
    requires LeaseIndex(s) && ChainsOk(s, s.revision)
    ensures LeaseIndex(ApplyCompact(s, target).store)
  {
    var s' := ApplyCompact(s, target).store;
    if s.compactRevision < target <= s.revision {
      forall k ensures LeaseAt(s', k) == LeaseAt(s, k) { CompactedChain(s, target, k, 0); }
      SameIndex(s, s', 0);
    }
  }

  lemma ApplyIndexed(s: Store, p: Keyspace, cmd: Command, index: nat)
    requires Refines(s, p) && LeaseIndex(s) && Tidy(s, cmd, index)
    ensures LeaseIndex(Apply(s, cmd, index).store)
  {
    match cmd {
      case Put(op) =>
        SingleUndisturbed(s, op);
        WritesIndexed(s, p, [op]);
      case DeleteRange(op) =>
        SingleUndisturbed(s, op);
        WritesIndexed(s, p, [op]);
      case Txn(compare, success, failure) => WritesIndexed(s, p, if CompareAll(s, compare) then success else failure);
      case Compact(target) => CompactLeases(s, target);
      case LeaseGrant(id, ttl, expiry) => GrantLeases(s, id, ttl, expiry, index);
      case LeaseRevoke(id) => if id in s.leases { RevokeLeases(s, p, id); }
      case LeaseKeepAlive(id, expiry) => KeepAliveLeases(s, id, expiry);
      case Seed(revision) => SameIndex(s, Apply(s, cmd, index).store, 0);
      case Noop =>
      case Unknown =>
    }
  }

  ghost predicate TidyAt(cmds: seq<Command>, i: nat) {
    i < |cmds| ==> Tidy(RunStore(cmds[..i]), cmds[i], i + 1)
  }

  /** Over every tidy log the lease index is exact and the store is the plain keyspace, revocations included. */
  lemma {:induction false} TidyRun(cmds: seq<Command>)
    requires forall i: nat :: TidyAt(cmds, i)
    ensures LeaseIndex(RunStore(cmds)) && Refines(RunStore(cmds), RunPlain(cmds))
    decreases |cmds|
  {
    hide Apply, PlainApply;
    if cmds == [] {
      EmptyRefines();
      UptoAll([], 0);
      forall k ensures Indexed(Empty, 0, k) {}
    } else {
      var n := |cmds| - 1;
      var before := cmds[..n];
      forall i: nat ensures TidyAt(before, i) {
        assert TidyAt(cmds, i);
        if i < n { assert before[..i] == cmds[..i]; }
      }
      TidyRun(before);
      assert TidyAt(cmds, n);
      TidyStep(RunStore(before), RunPlain(before), cmds[n], |cmds|);
    }
  }

  lemma TidyStep(s: Store, p: Keyspace, cmd: Command, index: nat)
    requires Refines(s, p) && LeaseIndex(s) && Tidy(s, cmd, index)
    ensures LeaseIndex(Apply(s, cmd, index).store)
            && Refines(Apply(s, cmd, index).store, PlainApply(p, cmd, index).plain)
    ensures Revocable(s, p, cmd)
  {
    ApplyIndexed(s, p, cmd, index);
    if cmd.LeaseRevoke? && cmd.id in s.leases { IndexIsRight(s, p, cmd.id); }
    ApplySim(s, p, cmd, index);
  }

  // ---- what goes wrong otherwise -------------------------------------------

  function PutOn(key: Key, lease: int): Op {
    OpPut(key, [], lease, false, false, false)
  }

  function LeakyLog(): seq<Command> {
    [LeaseGrant(7, 10, 0), Put(PutOn([97], 7)), Txn([], [PutOn([97], 0), PutOn([98], 99)], []), LeaseRevoke(7)]
  }

  /**
   A transaction that moves a key off its lease and then fails: the key is back, but its lease no
   longer lists it, so revoking the lease leaves the key alive.
   */
  lemma FailedBatchLeak()
    ensures var s := RunStore(LeakyLog()[..3]);
            LeaseAt(s, [97]) == 7 && 7 in s.leases && s.leases[7].keys == []
    ensures EntryAt(RunStore(LeakyLog()), [97], 0).Some?
  {
    LeakyRun(LeakyLog(), [97], [98]);
  }

  lemma LeakyRun(cmds: seq<Command>, a: Key, b: Key)
    requires a != b && |cmds| == 4 && cmds[0] == LeaseGrant(7, 10, 0) && cmds[1] == Put(PutOn(a, 7))
    requires cmds[2] == Txn([], [PutOn(a, 0), PutOn(b, 99)], []) && cmds[3] == LeaseRevoke(7)
    ensures var s := RunStore(cmds[..3]);
            LeaseAt(s, a) == 7 && 7 in s.leases && s.leases[7].keys == []
    ensures EntryAt(RunStore(cmds), a, 0).Some?
  {
    hide ApplyOps, Upto, ApplyTxn, ApplyWrites, ApplyLeaseRevoke;
    var e := Rev(1, [], 1, 1, 7, false);
    var ev := PutEvent(1, KV(a, [], 1, 1, 1, 7), None);
    LeakyStart(cmds);
    FirstPut(RunStore(cmds[..1]), a, e, ev);
    RunStep(cmds, 1);
    LeakyTxn(RunStore(cmds[..2]), a, b, e, ev);
    RunStep(cmds, 2);
    LeakyEnd(RunStore(cmds[..3]), a, e);
    RunStep(cmds, 3);
    assert cmds[..4] == cmds;
  }

  lemma LeakyStart(cmds: seq<Command>)
    requires cmds != [] && cmds[0] == LeaseGrant(7, 10, 0)
    ensures RunStore(cmds[..1]) == Empty.(leases := map[7 := Lease(10, 0, [])])
  {
    RunStep(cmds, 0);
  }

  lemma LeakyEnd(s: Store, a: Key, e: Rev)
    requires s.keys == map[a := [e]] && !e.deleted && e.lease == 7 && s.leases == map[7 := Lease(10, 0, [])]
    ensures LeaseAt(s, a) == 7 && EntryAt(ApplyLeaseRevoke(s, 7).store, a, 0) == Some(e)
  {
    UptoAll([e], 0);
  }

  lemma FirstPut(s: Store, a: Key, e: Rev, ev: Event)
    requires s == Empty.(leases := map[7 := Lease(10, 0, [])])
    requires e == Rev(1, [], 1, 1, 7, false) && ev == PutEvent(1, KV(a, [], 1, 1, 1, 7), None)
    ensures ApplyWrites(s, [PutOn(a, 7)]).store == Store(1, 0, map[a := [e]], [ev], map[7 := Lease(10, 0, [a])])
  {
    UptoAll([], 0);
    var w := Written(s.(keys := map[a := [e]], leases := map[7 := Lease(10, 0, [a])], events := [ev]), ev);
    assert EntryAt(s, a, 0) == None && NewRev(None, 1, PutOn(a, 7)) == e;
    assert Chain(s, a) + [e] == [e] && s.events + [ev] == [ev];
    assert s.leases[7].keys + [a] == [a];
    assert Relink(s.leases, a, 0, 7) == map[7 := Lease(10, 0, [a])];
    assert PutAt(s, 1, PutOn(a, 7)) == Ok(w);
    SinglePut(s, PutOn(a, 7), w);
  }

  lemma RunStep(cmds: seq<Command>, n: nat)
    requires n < |cmds|
    ensures RunStore(cmds[..0]) == Empty
    ensures RunStore(cmds[..n + 1]) == Apply(RunStore(cmds[..n]), cmds[n], n + 1).store
  {
    assert cmds[..n + 1][..n] == cmds[..n];
  }

  lemma SinglePut(s: Store, op: Op, w: Written<Event>)
    requires op.OpPut? && PutAt(s, s.revision + 1, op) == Ok(w) && w.store.events == s.events + [w.out]
    ensures ApplyWrites(s, [op]).store == w.store.(revision := s.revision + 1)
  {
    var rev := s.revision + 1;
    var just := [op];
    assert just[1..] == [];
    var r := PutResponse(if op.prevKv then w.out.prevKv else None);
    assert ApplyOps(w.store, rev, just[1..]) == Done(w.store, []);
    assert ApplyOps(s, rev, just) == Done(w.store, [r] + []);
    assert w.store.events[|s.events|..] == [w.out];
  }

  lemma LeakyTxn(s: Store, a: Key, b: Key, e: Rev, ev: Event)
    requires a != b && e.lease == 7 && !e.deleted && EventKey(ev) == a
    requires s == Store(1, 0, map[a := [e]], [ev], map[7 := Lease(10, 0, [a])])
    ensures ApplyTxn(s, [], [PutOn(a, 0), PutOn(b, 99)], []).store == s.(leases := map[7 := Lease(10, 0, [])])
  {
    hide CompareHolds;
    UptoAll([e], 0);
    UptoAll([], 0);
    var ops := [PutOn(a, 0), PutOn(b, 99)];
    var e2 := NewRev(Some(e), 2, ops[0]);
    var w := PutAt(s, 2, ops[0]).value;
    var noKeys := map[7 := Lease(10, 0, [])];
    assert Without([a], a) == [] by { var just := [a]; assert just[1..] == []; }
    assert w.store.leases == noKeys;
    assert w.store.keys == map[a := [e, e2]] by { assert Chain(s, a) + [e2] == [e, e2]; }
    assert EntryAt(w.store, b, 0) == None;
    assert PutAt(w.store, 2, ops[1]) == Err(LeaseNotFound);
    assert ops[1..][0] == ops[1];
    assert ApplyOps(w.store, 2, ops[1..]) == Thrown(w.store, LeaseNotFound);
    assert ApplyOps(s, 2, ops) == Thrown(w.store, LeaseNotFound);
    var pushed := w.store.events[1..];
    assert pushed == [w.out] && pushed[1..] == [];
    assert Pop(w.store.keys, a, 2) == map[a := [e]] by { assert [e, e2][..1] == [e]; }
    assert PopAll(w.store.keys, pushed, 2) == PopAll(map[a := [e]], pushed[1..], 2) == map[a := [e]];
    assert w.store.events[..1] == [ev];
    assert CompareAll(s, []);
  }
}
