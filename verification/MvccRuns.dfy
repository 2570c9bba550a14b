/** The refinement, command by command and over every sequence of commands. */
module MvccRuns {
  import opened Wrappers
  import opened Commands
  import opened Keys
  import opened Mvcc
  import opened MvccPlain
  import opened MvccChains
  import opened MvccRefines

  // ---- batches -------------------------------------------------------------

  lemma OpSim(s0: Store, p: Keyspace, s: Store, m: View, rev: nat, op: Op)
    requires Refines(s0, p) && Work(s0, s, m, rev) && SameLeases(s.leases, p.leases)
    ensures match ApplyOp(s, rev, op)
            case Err(e) => PlainOp(p, m, rev, op) == Err(e)
            case Ok(w) => var q := PlainOp(p, m, rev, op);
                          q.Ok? && q.value.out == w.out && Work(s0, w.store, q.value.m, rev)
                          && SameLeases(w.store.leases, p.leases) && s.events <= w.store.events
                          && (q.value.wrote <==> w.store.events != s.events)
                          && (!q.value.wrote ==> q.value.m == m)
  {
    match op {
      case OpPut(_, _, _, _, _, _) => PutSim(s0, p, s, m, rev, op);
      case OpDelete(key, rangeEnd, _) =>
        DeleteSim(s0, p, s, m, rev, key, rangeEnd);
        NothingRemoved(m, key, rangeEnd);
      case OpRange(query) => RangeSim(s0, p, s, m, rev, query);
      case OpUnknown =>
    }
  }

  lemma {:induction false} ValuesLive(m: View, ks: seq<Key>)
    requires forall k | k in ks :: k in m
    ensures |Values(m, ks)| == |ks|
  {
    if ks != [] {
      forall k | k in ks[1..] ensures k in m { assert k in ks; }
      ValuesLive(m, ks[1..]);
    }
  }

  lemma NothingRemoved(m: View, key: Key, rangeEnd: Key)
    ensures Listing(m, key, rangeEnd) == [] ==> Removed(m, key, rangeEnd) == m
  {
    var ks := MatchingKeys(m.Keys, key, rangeEnd);
    MatchingIsCovered(m.Keys, key, rangeEnd);
    ValuesLive(m, ks);
    if Listing(m, key, rangeEnd) == [] {
      assert ks == [];
      assert forall k | k in m :: k in ks || !Covers(key, rangeEnd, k);
    }
  }

  /** A whole batch: the same answers, the same failure, and the plain map as its effect. */
  lemma {:induction false} OpsSim(s0: Store, p: Keyspace, s: Store, m: View, rev: nat, ops: seq<Op>)
    requires Refines(s0, p) && Work(s0, s, m, rev) && SameLeases(s.leases, p.leases)
    ensures match ApplyOps(s, rev, ops)
            case Thrown(s', e) => PlainOps(p, m, rev, ops) == Err(e) && SameLeases(s'.leases, p.leases)
                                  && exists m' :: Work(s0, s', m', rev)
            case Done(s', responses) => var q := PlainOps(p, m, rev, ops);
                                        q.Ok? && q.value.out == responses && Work(s0, s', q.value.m, rev)
                                        && SameLeases(s'.leases, p.leases) && s.events <= s'.events
                                        && (q.value.wrote <==> s'.events != s.events)
                                        && (!q.value.wrote ==> q.value.m == m)
    decreases |ops|
  {
    if ops != [] {
      OpSim(s0, p, s, m, rev, ops[0]);
      match ApplyOp(s, rev, ops[0]) {
        case Err(_) =>
        case Ok(w) => OpsSim(s0, p, w.store, PlainOp(p, m, rev, ops[0]).value.m, rev, ops[1..]);
      }
    }
  }

  // ---- a batch that succeeds -----------------------------------------------

  /** A finished batch that wrote something becomes the next view. */
  lemma CommitBatch(s0: Store, p: Keyspace, s: Store, m: View, rev: nat)
    requires Refines(s0, p) && Work(s0, s, m, rev) && SameLeases(s.leases, p.leases)
    ensures Refines(s.(revision := rev), p.(views := p.views + [m]))
  {
    var s' := s.(revision := rev);
    var p': Keyspace := p.(views := p.views + [m]);
    forall k ensures NowIs(s', Current(p'), k) { assert NowIs(s, m, k); }
    forall r: nat, k | 0 < r && p'.compact <= r <= s'.revision ensures ReadsAs(s', p'.views[r], r, k) {
      if r < rev {
        WorkReads(s0, s, m, rev, r, k);
        assert ReadsAs(s0, p.views[r], r, k);
      } else {
        NowReads(s, rev, k);
        assert NowIs(s, m, k);
      }
    }
  }

  lemma NowReads(s: Store, rev: nat, k: Key)
    requires ChainsOk(s, rev) && rev > 0
    ensures KvAt(s, k, rev) == KvAt(s, k, 0)
  {
    UptoAll(Chain(s, k), rev);
    UptoAll(Chain(s, k), 0);
  }

  /** A batch that wrote nothing leaves every chain as it was. */
  lemma IdleBatch(s0: Store, p: Keyspace, s: Store, m: View, rev: nat)
    requires Refines(s0, p) && Work(s0, s, m, rev) && SameLeases(s.leases, p.leases)
    requires s.events == s0.events
    ensures Refines(s, p)
  {
    forall k ensures Chain(s, k) == Chain(s0, k) {
      assert KeyWork(s0, s, rev, s.events[|s0.events|..], k);
    }
    SameChains(s0, p, s);
  }

  /** Reads depend on the chains and nothing else. */
  lemma SameChains(s0: Store, p: Keyspace, s: Store)
    requires Refines(s0, p) && s.revision == s0.revision && s.compactRevision == s0.compactRevision
    requires SameLeases(s.leases, p.leases)
    requires forall k :: Chain(s, k) == Chain(s0, k)
    ensures Refines(s, p)
  {
    forall k | k in s.keys ensures ChainOk(s.keys[k], s.revision) {
      assert Chain(s, k) == Chain(s0, k);
    }
    forall k ensures NowIs(s, Current(p), k) {
      assert Chain(s, k) == Chain(s0, k) && NowIs(s0, Current(p), k);
    }
    forall r: nat, k | 0 < r && p.compact <= r <= s.revision ensures ReadsAs(s, p.views[r], r, k) {
      assert Chain(s, k) == Chain(s0, k) && ReadsAs(s0, p.views[r], r, k);
    }
  }

  // ---- a batch that throws -------------------------------------------------

  lemma RollbackChains(s0: Store, s: Store, m: View, rev: nat, k: Key)
    requires Work(s0, s, m, rev)
    ensures Chain(Rollback(s, |s0.events|, rev), k) == Chain(s0, k)
  {
    var events := s.events[|s0.events|..];
    forall k ensures Undoable(s0.keys, s.keys, events, rev, k) { assert KeyWork(s0, s, rev, events, k); }
    PopAllRestores(s0.keys, s.keys, events, rev, k);
  }

  /**
   A failed batch is invisible: chains, events and revision are as before, nothing is published, and
   leases keep their ids, times to live and expiry. What lease key sets a put or delete had already
   changed stays changed; see FailedBatchLeases.
   */
  lemma FailedBatchInvisible(s: Store, p: Keyspace, ops: seq<Op>)
    requires Refines(s, p) && ApplyWrites(s, ops).result.Err?
    ensures var out := ApplyWrites(s, ops);
            && out.published == []
            && out.store.events == s.events
            && out.store.revision == s.revision && out.store.compactRevision == s.compactRevision
            && SameLeases(out.store.leases, p.leases)
            && (forall k :: Chain(out.store, k) == Chain(s, k))
            && (forall k, r :: EntryAt(out.store, k, r) == EntryAt(s, k, r))
            && Refines(out.store, p)
  {
    hide PopAll, PlainOps;
    var rev := s.revision + 1;
    var out := ApplyWrites(s, ops);
    WorkStarts(s, Current(p));
    OpsSim(s, p, s, Current(p), rev, ops);
    var s' := ApplyOps(s, rev, ops).store;
    var m' :| Work(s, s', m', rev);
    forall k ensures Chain(out.store, k) == Chain(s, k) {
      RollbackChains(s, s', m', rev, k);
    }
    SameChains(s, p, out.store);
  }

  lemma FinishedBatch(s: Store, p: Keyspace, s': Store, m: View, wrote: bool)
    requires Refines(s, p) && Work(s, s', m, s.revision + 1) && SameLeases(s'.leases, p.leases)
    requires wrote <==> s'.events != s.events
    ensures wrote <==> s'.events[|s.events|..] != []
    ensures Refines(if wrote then s'.(revision := s.revision + 1) else s',
                    if wrote then p.(views := p.views + [m]) else p)
  {
    if wrote {
      CommitBatch(s, p, s', m, s.revision + 1);
    } else {
      IdleBatch(s, p, s', m, s.revision + 1);
    }
    assert s'.events == s.events + s'.events[|s.events|..];
  }

  lemma WritesSim(s: Store, p: Keyspace, ops: seq<Op>)
    requires Refines(s, p)
    ensures var out, plain := ApplyWrites(s, ops), PlainWrites(p, ops);
            Refines(out.store, plain.plain) && out.result == plain.result
            && (out.result.Ok? ==> out.result.value.WriteResponse?)
  {
    hide ApplyOps, PlainOps;
    var rev := s.revision + 1;
    WorkStarts(s, Current(p));
    OpsSim(s, p, s, Current(p), rev, ops);
    match ApplyOps(s, rev, ops) {
      case Thrown(_, _) => FailedBatchInvisible(s, p, ops);
      case Done(s', responses) =>
        var q := PlainOps(p, Current(p), rev, ops).value;
        FinishedBatch(s, p, s', q.m, q.wrote);
    }
  }

  // ---- the other commands --------------------------------------------------

  lemma CompareSim(s: Store, p: Keyspace, c: Compare)
    requires Refines(s, p)
    ensures CompareHolds(s, c) == PlainCompare(Current(p), c)
  {
    assert NowIs(s, Current(p), c.key);
  }

  lemma TxnSim(s: Store, p: Keyspace, compare: seq<Compare>, success: seq<Op>, failure: seq<Op>)
    requires Refines(s, p)
    ensures var out, plain := ApplyTxn(s, compare, success, failure), PlainTxn(p, compare, success, failure);
            Refines(out.store, plain.plain) && out.result == plain.result
  {
    forall i | 0 <= i < |compare| ensures CompareHolds(s, compare[i]) == PlainCompare(Current(p), compare[i]) {
      CompareSim(s, p, compare[i]);
    }
    WritesSim(s, p, if CompareAll(s, compare) then success else failure);
  }

  lemma SeedSim(s: Store, p: Keyspace, revision: int)
    requires Refines(s, p)
    ensures Refines(ApplySeed(s, revision).store, PlainSeed(p, revision).plain)
    ensures ApplySeed(s, revision).result == PlainSeed(p, revision).result
  {
    var s', p' := ApplySeed(s, revision).store, PlainSeed(p, revision).plain;
    if revision > s.revision {
      forall k ensures NowIs(s', Current(p'), k) { assert NowIs(s, Current(p), k); }
      forall r: nat, k | 0 < r && p'.compact <= r <= s'.revision ensures ReadsAs(s', p'.views[r], r, k) {
        if r <= s.revision {
          assert ReadsAs(s, p.views[r], r, k);
        } else {
          UptoAll(Chain(s, k), r);
          UptoAll(Chain(s, k), 0);
          assert NowIs(s, Current(p), k);
        }
      }
      forall k | k in s'.keys ensures ChainOk(s'.keys[k], s'.revision) {
        ChainGrow(s.keys[k], s.revision, s'.revision);
      }
    }
  }

  lemma CompactedChain(s: Store, target: nat, k: Key, r: nat)
    requires ChainsOk(s, s.revision) && s.compactRevision < target <= s.revision && (r == 0 || r >= target)
    ensures KvAt(ApplyCompact(s, target).store, k, r) == KvAt(s, k, r)
  {
    if k in s.keys {
      KeptReads(s.keys[k], s.revision, target, r);
      if Dead(Kept(s.keys[k], target)) { DeadReads(s.keys[k], s.revision, target, r); }
    }
  }

  lemma CompactSim(s: Store, p: Keyspace, target: int)
    requires Refines(s, p)
    ensures Refines(ApplyCompact(s, target).store, PlainCompact(p, target).plain)
    ensures ApplyCompact(s, target).result == PlainCompact(p, target).result
  {
    var s', p' := ApplyCompact(s, target).store, PlainCompact(p, target).plain;
    if s.compactRevision < target <= s.revision {
      forall k ensures NowIs(s', Current(p'), k) {
        CompactedChain(s, target, k, 0);
        assert NowIs(s, Current(p), k);
      }
      forall r: nat, k | 0 < r && p'.compact <= r <= s'.revision ensures ReadsAs(s', p'.views[r], r, k) {
        CompactedChain(s, target, k, r);
        assert ReadsAs(s, p.views[r], r, k);
      }
      forall k | k in s'.keys ensures ChainOk(s'.keys[k], s'.revision) {
        KeptReads(s.keys[k], s.revision, target, 0);
      }
    }
  }

  lemma GrantSim(s: Store, p: Keyspace, id: int, ttl: int, expiry: int, index: nat)
    requires Refines(s, p)
    ensures var out, plain := ApplyLeaseGrant(s, id, ttl, expiry, index), PlainGrant(p, id, ttl, expiry, index);
            Refines(out.store, plain.plain) && out.result == plain.result
  {
    assert |s.leases| == |s.leases.Keys| == |p.leases.Keys| == |p.leases|;
    var plain := PlainGrant(p, id, ttl, expiry, index).plain;
    LeasesOnly(s, p, ApplyLeaseGrant(s, id, ttl, expiry, index).store, plain);
  }

  lemma KeepAliveSim(s: Store, p: Keyspace, id: int, expiry: int)
    requires Refines(s, p)
    ensures var out, plain := ApplyLeaseKeepAlive(s, id, expiry), PlainKeepAlive(p, id, expiry);
            Refines(out.store, plain.plain) && out.result == plain.result
  {
    LeasesOnly(s, p, ApplyLeaseKeepAlive(s, id, expiry).store, PlainKeepAlive(p, id, expiry).plain);
  }

  /** A command that touches only leases. */
  lemma LeasesOnly(s: Store, p: Keyspace, s': Store, p': Keyspace)
    requires Refines(s, p) && s' == s.(leases := s'.leases) && p' == p.(leases := p'.leases)
    requires SameLeases(s'.leases, p'.leases)
    ensures Refines(s', p')
  {
    forall k ensures NowIs(s', Current(p'), k) { assert NowIs(s, Current(p), k); }
    forall r: nat, k | 0 < r && p'.compact <= r <= s'.revision ensures ReadsAs(s', p'.views[r], r, k) {
      assert ReadsAs(s, p.views[r], r, k);
    }
  }

  // ---- revoking a lease ----------------------------------------------------

  /** Among live keys, the lease's key set holds exactly those that carry it. */
  ghost predicate IndexRight(s: Store, m: View, id: int)
    requires id in s.leases
  {
    forall k | k in m :: k in s.leases[id].keys <==> m[k].lease == id
  }

  lemma {:induction false} DeleteEachIs(s: Store, rev: nat, ks: seq<Key>)
    ensures DeleteEach(s, rev, ks) == DeleteKeys(s, rev, ks)
    decreases |ks|
  {
    if ks != [] {
      var one := DeleteKey(s, rev, ks[0]);
      if ks[0] in s.keys {
        var just: seq<Key> := [ks[0]];
        assert just[1..] == [];
        assert DeleteKeys(s, rev, just) == Written(one.store, one.out + []);
      } else {
        UptoAll([], 0);
      }
      assert one.out + [] == one.out;
      assert DeleteAt(s, rev, ks[0], []) == one;
      DeleteEachIs(one.store, rev, ks[1..]);
    }
  }

  lemma {:induction false} GoneEmpty(m: View, rev: nat, ks: seq<Key>)
    ensures Gone(m, rev, ks) == [] <==> m - Elements(ks) == m
  {
    if ks != [] {
      GoneEmpty(m, rev, ks[1..]);
      if ks[0] in m {
        assert ks[0] in Elements(ks) && ks[0] !in m - Elements(ks);
      } else {
        assert m - Elements(ks) == m - Elements(ks[1..]);
      }
    }
  }

  lemma RevokeWork(s: Store, p: Keyspace, id: int)
    requires Refines(s, p) && id in s.leases && Distinct(s.leases[id].keys)
    ensures var out := ApplyLeaseRevoke(s, id);
            var m' := Current(p) - Elements(s.leases[id].keys);
            var p1 := p.(leases := p.leases - {id});
            var p': Keyspace := if m' != Current(p) then p1.(views := p1.views + [m']) else p1;
            Refines(out.store, p') && out.result == Ok(RevokeResponse(Revision(p'), id))
            && out.published == Gone(Current(p), s.revision + 1, s.leases[id].keys)
            && out.store.events == s.events + out.published
  {
    var rev := s.revision + 1;
    var m := Current(p);
    var ks := s.leases[id].keys;
    var s1 := s.(leases := s.leases - {id});
    var p1: Keyspace := p.(leases := p.leases - {id});
    LeasesOnly(s, p, s1, p1);
    WorkStarts(s1, m);
    DeleteEachIs(s1, rev, ks);
    DeleteKeysSim(s1, p1, s1, m, rev, ks);
    var w := DeleteKeys(s1, rev, ks);
    GoneEmpty(m, rev, ks);
    FinishedBatch(s1, p1, w.store, m - Elements(ks), w.out != []);
  }

  /** Revoking does what it promises exactly if the lease's key set was right. */
  lemma RevokeSim(s: Store, p: Keyspace, id: int)
    requires Refines(s, p) && (id in s.leases ==> Distinct(s.leases[id].keys))
    ensures ApplyLeaseRevoke(s, id).result.Err? <==> id !in s.leases
    ensures id !in s.leases ==>
              ApplyLeaseRevoke(s, id).store == s && ApplyLeaseRevoke(s, id).result == PlainRevoke(p, id).result
    ensures var out, plain := ApplyLeaseRevoke(s, id), PlainRevoke(p, id);
            id in s.leases ==> (Refines(out.store, plain.plain) <==> IndexRight(s, Current(p), id))
    ensures var out, plain := ApplyLeaseRevoke(s, id), PlainRevoke(p, id);
            id in s.leases && IndexRight(s, Current(p), id) ==> out.result == plain.result
  {
    hide DeleteEach;
    if id in s.leases {
      RevokeWork(s, p, id);
      var m := Current(p);
      var ours := m - Elements(s.leases[id].keys);
      var theirs := map k | k in m && m[k].lease != id :: m[k];
      if IndexRight(s, m, id) {
        assert ours == theirs;
      } else {
        var k :| k in m && !(k in s.leases[id].keys <==> m[k].lease == id);
        assert k in ours <==> k !in theirs;
        var p1: Keyspace := p.(leases := p.leases - {id});
        var p': Keyspace := if ours != m then p1.(views := p1.views + [ours]) else p1;
        var out := ApplyLeaseRevoke(s, id).store;
        assert NowIs(out, Current(p'), k) && Current(p') == ours;
        assert Current(PlainRevoke(p, id).plain) == theirs;
        assert !NowIs(out, theirs, k);
      }
    }
  }

  // ---- every sequence of commands ------------------------------------------

  /** The store after the first commands of a log, the i-th applied at index i. */
  function RunStore(cmds: seq<Command>): Store {
    if cmds == [] then Empty
    else Apply(RunStore(cmds[..|cmds| - 1]), cmds[|cmds| - 1], |cmds|).store
  }

  function RunPlain(cmds: seq<Command>): Keyspace {
    if cmds == [] then Plain([map[]], 0, map[])
    else PlainApply(RunPlain(cmds[..|cmds| - 1]), cmds[|cmds| - 1], |cmds|).plain
  }

  /** A revocation finds its lease's key set right; every other command needs nothing. */
  ghost predicate Revocable(s: Store, p: Keyspace, cmd: Command) {
    cmd.LeaseRevoke? && cmd.id in s.leases ==>
      Distinct(s.leases[cmd.id].keys) && IndexRight(s, Current(p), cmd.id)
  }

  lemma ApplySim(s: Store, p: Keyspace, cmd: Command, index: nat)
    requires Refines(s, p) && Revocable(s, p, cmd)
    ensures var out, plain := Apply(s, cmd, index), PlainApply(p, cmd, index);
            Refines(out.store, plain.plain) && out.result == plain.result
  {
    match cmd {
      case Put(op) => WritesSim(s, p, [op]);
      case DeleteRange(op) => WritesSim(s, p, [op]);
      case Txn(compare, success, failure) => TxnSim(s, p, compare, success, failure);
      case Compact(target) => CompactSim(s, p, target);
      case LeaseGrant(id, ttl, expiry) => GrantSim(s, p, id, ttl, expiry, index);
      case LeaseRevoke(id) => RevokeSim(s, p, id);
      case LeaseKeepAlive(id, expiry) => KeepAliveSim(s, p, id, expiry);
      case Seed(revision) => SeedSim(s, p, revision);
      case Noop =>
      case Unknown =>
    }
  }

  ghost predicate RevocableAt(cmds: seq<Command>, i: nat) {
    i < |cmds| ==> Revocable(RunStore(cmds[..i]), RunPlain(cmds[..i]), cmds[i])
  }

  lemma EmptyRefines()
    ensures Refines(Empty, Plain([map[]], 0, map[]))
  {
    UptoAll([], 0);
    forall k ensures NowIs(Empty, map[], k) {}
  }

  /** Over any log whose revocations find their key sets right, the store is the plain keyspace. */
  lemma {:induction false} RunRefines(cmds: seq<Command>)
    requires forall i: nat :: RevocableAt(cmds, i)
    ensures Refines(RunStore(cmds), RunPlain(cmds))
    decreases |cmds|
  {
    if cmds == [] {
      EmptyRefines();
    } else {
      var n := |cmds| - 1;
      var before := cmds[..n];
      forall i: nat ensures RevocableAt(before, i) {
        assert RevocableAt(cmds, i);
        if i < n { assert before[..i] == cmds[..i]; }
      }
      RunRefines(before);
      assert RevocableAt(cmds, n);
      ApplySim(RunStore(before), RunPlain(before), cmds[n], |cmds|);
    }
  }

  /** What a reader sees: any range read, at any revision, is answered as from the plain keyspace. */
  lemma ReadsRefine(s: Store, p: Keyspace, q: Query)
    requires Refines(s, p)
    ensures Range(s, q) == PlainRange(p, Current(p), q)
  {
    WorkStarts(s, Current(p));
    RangeSim(s, p, s, Current(p), s.revision + 1, q);
  }
}
