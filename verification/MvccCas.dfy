/** Optimistic concurrency: of two guarded writes that read the same modification revision, one wins. */
module MvccCas {
  import opened Wrappers
  import opened Commands
  import opened Keys
  import opened Mvcc
  import opened MvccPlain
  import opened MvccChains
  import opened MvccRefines
  import opened MvccRuns
  import opened MvccCompaction
  import opened MvccLeases
  import opened MvccEvery

  // ---- guards --------------------------------------------------------------

  /** The operand that belongs to the target, absent counting as 0. */
  function Intended(c: Compare): int {
    var own := match c.target
      case TCreate => c.createRevision
      case TMod => c.modRevision
      case TLease => c.lease
      case _ => c.version;
    match own case None => 0 case Some(x) => x
  }

  predicate OnlyOwnOperand(c: Compare) {
    && (c.version.Some? ==> c.target == TVersion)
    && (c.createRevision.Some? ==> c.target == TCreate)
    && (c.modRevision.Some? ==> c.target == TMod)
    && (c.lease.Some? ==> c.target == TLease)
  }

  /** A guard that carries only the operand of its own target compares with that operand. */
  lemma OwnOperandCompares(s: Store, c: Compare)
    requires c.target != TValue && OnlyOwnOperand(c)
    ensures CompareHolds(s, c) <==>
            Decide(Actual(EntryAt(s, c.key, 0), c.target) < Intended(c),
                Actual(EntryAt(s, c.key, 0), c.target) == Intended(c), c.result)
  {
  }

  /**
   With a version operand always filled in as 0, a guard on a modification revision asks whether the key is
   absent.
   */
  lemma FilledVersionGuard(s: Store, c: Compare)
    requires WellFormed(s) && c.target == TMod && c.result == Equal && c.version == Some(0)
    ensures CompareHolds(s, c) <==> EntryAt(s, c.key, 0) == None
  {
    var chain := Chain(s, c.key);
    UptoAll(chain, 0);
  }

  // ---- no lost updates -----------------------------------------------------

  predicate Writes(op: Op, k: Key) {
    match op
    case OpPut(key, _, _, _, _, _) => key == k
    case OpDelete(key, rangeEnd, _) => Covers(key, rangeEnd, k)
    case _ => false
  }

  predicate ModGuard(c: Compare, k: Key, m: nat) {
    c.key == k && c.target == TMod && c.result == Equal && OnlyOwnOperand(c) && Intended(c) == m
  }

  /** A transaction that, if key k was last modified at m, writes or deletes it, and that went through. */
  ghost predicate Wins(s: Store, cmd: Command, index: nat, k: Key, m: nat) {
    && cmd.Txn?
    && (exists i :: 0 <= i < |cmd.compare| && ModGuard(cmd.compare[i], k, m))
    && (exists j :: 0 <= j < |cmd.success| && Writes(cmd.success[j], k))
    && var out := Apply(s, cmd, index);
       out.result.Ok? && out.result.value.TxnResponse? && out.result.value.succeeded
  }

  /** Key k's newest entry, if it is live, is newer than m, and so will every later one be. */
  ghost predicate Past(s: Store, k: Key, m: nat) {
    m <= s.revision && (EntryAt(s, k, 0).Some? ==> EntryAt(s, k, 0).value.rev > m)
  }

  /** In a batch a key's newest entry is either as it was or stamped with the batch's revision. */
  lemma WorkNewest(s0: Store, s: Store, m: View, rev: nat, k: Key)
    requires Work(s0, s, m, rev)
    ensures EntryAt(s, k, 0) == EntryAt(s0, k, 0) || (EntryAt(s, k, 0).Some? ==> EntryAt(s, k, 0).value.rev == rev)
    ensures |Chain(s, k)| > |Chain(s0, k)| ==> (EntryAt(s, k, 0).Some? ==> EntryAt(s, k, 0).value.rev == rev)
  {
    assert KeyWork(s0, s, rev, s.events[|s0.events|..], k);
    UptoAll(Chain(s, k), 0);
    UptoAll(Chain(s0, k), 0);
  }

  /** A batch that went through to an operation on a live key has pushed a link on its chain. */
  lemma {:induction false} OpsTouch(s0: Store, p: Keyspace, s: Store, m: View, rev: nat, ops: seq<Op>, k: Key, j: nat)
    requires Refines(s0, p) && Work(s0, s, m, rev) && SameLeases(s.leases, p.leases) && ApplyOps(s, rev, ops).Done?
    requires j < |ops| && Writes(ops[j], k) && EntryAt(s0, k, 0).Some?
    ensures var s' := ApplyOps(s, rev, ops).store; EntryAt(s', k, 0).Some? ==> EntryAt(s', k, 0).value.rev == rev
    decreases |ops|
  {
    OpSim(s0, p, s, m, rev, ops[0]);
    var w, q := ApplyOp(s, rev, ops[0]).value, PlainOp(p, m, rev, ops[0]).value;
    OpsSim(s0, p, w.store, q.m, rev, ops[1..]);
    if j > 0 {
      OpsTouch(s0, p, w.store, q.m, rev, ops[1..], k, j - 1);
    } else {
      assert NowIs(w.store, q.m, k);
      OpsKeep(s0, p, w.store, q.m, rev, ops[1..], k);
    }
  }

  /** Once a key's newest entry is gone or new in a batch, it stays so. */
  lemma {:induction false} OpsKeep(s0: Store, p: Keyspace, s: Store, m: View, rev: nat, ops: seq<Op>, k: Key)
    requires Refines(s0, p) && Work(s0, s, m, rev) && SameLeases(s.leases, p.leases) && ApplyOps(s, rev, ops).Done?
    requires k in m ==> m[k].modRevision == rev
    ensures var s' := ApplyOps(s, rev, ops).store; EntryAt(s', k, 0).Some? ==> EntryAt(s', k, 0).value.rev == rev
    decreases |ops|
  {
    if ops == [] {
      assert NowIs(s, m, k);
    } else {
      OpSim(s0, p, s, m, rev, ops[0]);
      OpsKeep(s0, p, ApplyOp(s, rev, ops[0]).value.store, PlainOp(p, m, rev, ops[0]).value.m, rev, ops[1..], k);
    }
  }

  lemma WinnerMoves(s: Store, cmd: Command, index: nat, k: Key, m: nat)
    requires WellFormed(s) && m > 0 && Wins(s, cmd, index, k, m)
    ensures EntryAt(s, k, 0).Some? && EntryAt(s, k, 0).value.rev == m
    ensures Past(Apply(s, cmd, index).store, k, m)
  {
    hide Writes, SameLeases, OnlyOwnOperand, ApplyLeaseRevoke, Work, CompareHolds, ApplyOps, PlainOps, ApplyCompact;
    var i :| 0 <= i < |cmd.compare| && ModGuard(cmd.compare[i], k, m);
    var j :| 0 <= j < |cmd.success| && Writes(cmd.success[j], k);
    assert CompareHolds(s, cmd.compare[i]);
    OwnOperandCompares(s, cmd.compare[i]);
    var p := OwnPlain(s);
    OwnRefines(s);
    WorkStarts(s, Current(p));
    var rev := s.revision + 1;
    OpsSim(s, p, s, Current(p), rev, cmd.success);
    OpsTouch(s, p, s, Current(p), rev, cmd.success, k, j);
    UptoAll(Chain(s, k), 0);
    var s' := ApplyOps(s, rev, cmd.success).store;
    if s'.events == s.events { WorkIdle(s, s', PlainOps(p, Current(p), rev, cmd.success).value.m, rev, k); }
  }

  lemma WorkIdle(s0: Store, s: Store, m: View, rev: nat, k: Key)
    requires Work(s0, s, m, rev) && s.events == s0.events
    ensures EntryAt(s, k, 0) == EntryAt(s0, k, 0)
  {
    assert KeyWork(s0, s, rev, s.events[|s0.events|..], k);
    assert s.events[|s0.events|..] == [];
    assert Chain(s, k) == Chain(s0, k);
  }

  lemma WritesPast(s: Store, ops: seq<Op>, k: Key, m: nat)
    requires WellFormed(s) && Past(s, k, m)
    ensures Past(ApplyWrites(s, ops).store, k, m)
  {
    hide PlainOps, LiveIn, Rollback;
    var p := OwnPlain(s);
    OwnRefines(s);
    var rev := s.revision + 1;
    WorkStarts(s, Current(p));
    OpsSim(s, p, s, Current(p), rev, ops);
    if ApplyOps(s, rev, ops).Done? {
      WorkNewest(s, ApplyOps(s, rev, ops).store, PlainOps(p, Current(p), rev, ops).value.m, rev, k);
    } else {
      FailedBatchInvisible(s, p, ops);
      assert EntryAt(ApplyWrites(s, ops).store, k, 0) == EntryAt(s, k, 0);
    }
  }

  lemma RevokePast(s: Store, id: int, k: Key, m: nat)
    requires WellFormed(s) && Past(s, k, m)
    ensures Past(ApplyLeaseRevoke(s, id).store, k, m)
  {
    if id in s.leases {
      var s1 := s.(leases := s.leases - {id});
      DeleteEachIs(s1, s.revision + 1, s.leases[id].keys);
      DeleteKeysNow(s1, s.revision + 1, s.leases[id].keys, k);
      var s2 := DeleteKeys(s1, s.revision + 1, s.leases[id].keys).store;
      var s' := ApplyLeaseRevoke(s, id).store;
      DeleteKeysKeep(s1, s.revision + 1, s.leases[id].keys);
      assert s' == s2 || s' == s2.(revision := s.revision + 1);
      assert EntryAt(s', k, 0) == EntryAt(s2, k, 0) && EntryAt(s1, k, 0) == EntryAt(s, k, 0);
      assert s'.revision >= s.revision;
      assert EntryAt(s2, k, 0) == None || EntryAt(s2, k, 0) == EntryAt(s, k, 0);
      assert Past(s', k, m);
    }
  }

  lemma {:induction false} DeleteKeysKeep(s: Store, rev: nat, ks: seq<Key>)
    ensures DeleteKeys(s, rev, ks).store.revision == s.revision
    decreases |ks|
  {
    if ks != [] { DeleteKeysKeep(DeleteKey(s, rev, ks[0]).store, rev, ks[1..]); }
  }

  lemma ApplyPast(s: Store, cmd: Command, index: nat, k: Key, m: nat)
    requires WellFormed(s) && Past(s, k, m)
    ensures Past(Apply(s, cmd, index).store, k, m)
  {
    match cmd {
      case Put(op) => WritesPast(s, [op], k, m);
      case DeleteRange(op) => WritesPast(s, [op], k, m);
      case Txn(compare, success, failure) => WritesPast(s, if CompareAll(s, compare) then success else failure, k, m);
      case Compact(target) => if Compactable(s, target) { CompactPast(s, target, k); }
      case LeaseRevoke(id) => RevokePast(s, id, k, m);
      case _ =>
    }
  }

  lemma CompactPast(s: Store, target: int, k: Key)
    requires WellFormed(s) && Compactable(s, target)
    ensures var s' := ApplyCompact(s, target).store;
            EntryAt(s', k, 0).Some? ==>
              EntryAt(s, k, 0).Some? && EntryAt(s', k, 0).value.rev == EntryAt(s, k, 0).value.rev
  {
    CompactedChain(s, target, k, 0);
    var s' := ApplyCompact(s, target).store;
    assert KvAt(s', k, 0) == KvAt(s, k, 0);
    match EntryAt(s, k, 0) {
      case None =>
      case Some(e) => assert KvAt(s', k, 0) == Some(KvOf(k, e));
    }
  }

  lemma {:induction false} RunPast(cmds: seq<Command>, i: nat, k: Key, m: nat)
    requires i <= |cmds| && Past(RunStore(cmds[..i]), k, m)
    ensures Past(RunStore(cmds), k, m)
    decreases |cmds|
  {
    hide Apply;
    if i == |cmds| {
      assert cmds[..i] == cmds;
    } else {
      var n := |cmds| - 1;
      assert cmds[..n][..i] == cmds[..i];
      RunPast(cmds[..n], i, k, m);
      RunWellFormed(cmds[..n]);
      ApplyPast(RunStore(cmds[..n]), cmds[n], |cmds|, k, m);
    }
  }

  /**
   In any log at all, of the transactions that guard a key by one modification revision and write or
   delete the key, at most one goes through.
   */
  lemma NoLostUpdates(cmds: seq<Command>, i: nat, j: nat, k: Key, m: nat)
    requires i < |cmds| && j < |cmds| && m > 0
    requires Wins(RunStore(cmds[..i]), cmds[i], i + 1, k, m)
    requires Wins(RunStore(cmds[..j]), cmds[j], j + 1, k, m)
    ensures i == j
  {
    if i < j { WinsOnce(cmds, i, j, k, m); }
    if j < i { WinsOnce(cmds, j, i, k, m); }
  }

  lemma WinsOnce(cmds: seq<Command>, i: nat, j: nat, k: Key, m: nat)
    requires i < j < |cmds| && m > 0
    requires Wins(RunStore(cmds[..i]), cmds[i], i + 1, k, m)
    ensures !Wins(RunStore(cmds[..j]), cmds[j], j + 1, k, m)
  {
    hide Apply, Wins, ModGuard, Writes, RunStore;
    RunWellFormed(cmds[..i]);
    RunWellFormed(cmds[..j]);
    WinnerMoves(RunStore(cmds[..i]), cmds[i], i + 1, k, m);
    RunStep(cmds, i);
    assert cmds[..j][..i + 1] == cmds[..i + 1];
    RunPast(cmds[..j], i + 1, k, m);
    if Wins(RunStore(cmds[..j]), cmds[j], j + 1, k, m) {
      WinnerMoves(RunStore(cmds[..j]), cmds[j], j + 1, k, m);
      assert false;
    }
  }
}
