/**
 Every log there is: whatever is applied, the store is well-formed and refines some plain keyspace,
 and it is the intended one exactly as long as revocations find their lease's key set right.
 */
module MvccEvery {
  import opened Wrappers
  import opened Commands
  import opened Keys
  import opened Mvcc
  import opened MvccPlain
  import opened MvccRefines
  import opened MvccRuns
  import opened MvccCompaction
  import opened MvccLeases

  // ---- every store there is ------------------------------------------------

  ghost predicate KeySetsDistinct(leases: map<int, Lease>) {
    forall id | id in leases :: Distinct(leases[id].keys)
  }

  /** What holds in every store, whatever was applied. */
  ghost predicate WellFormed(s: Store) {
    s.compactRevision <= s.revision && ChainsOk(s, s.revision) && KeySetsDistinct(s.leases)
  }

  function Grants(leases: map<int, Lease>): map<int, Grant> {
    map id | id in leases :: Grant(leases[id].ttl, leases[id].expiry)
  }

  /** A store read off as a plain keyspace. */
  function OwnPlain(s: Store): Keyspace {
    var views := seq(s.revision + 1, (r: nat) => LiveMap(s, if r == s.revision then 0 else r));
    assert |views| > 0;
    Plain(views, s.compactRevision, Grants(s.leases))
  }

  lemma OwnRefines(s: Store)
    requires WellFormed(s)
    ensures Refines(s, OwnPlain(s))
  {
    var p := OwnPlain(s);
    forall r: nat, k | 0 < r && p.compact <= r <= s.revision ensures ReadsAs(s, p.views[r], r, k) {
      LiveMapIs(s, r, k);
      LiveMapIs(s, 0, k);
      NowReads(s, s.revision, k);
    }
    forall k ensures NowIs(s, Current(p), k) { LiveMapIs(s, 0, k); }
  }

  lemma RelinkDistinct(leases: map<int, Lease>, key: Key, from: int, to: int)
    requires KeySetsDistinct(leases)
    ensures KeySetsDistinct(Relink(leases, key, from, to))
  {
    if from in leases { WithoutIs(leases[from].keys, key); }
    var detached := if from != 0 then Detach(leases, from, key) else leases;
    assert KeySetsDistinct(detached);
  }

  lemma {:induction false} DeleteKeysDistinct(s: Store, rev: nat, ks: seq<Key>)
    requires KeySetsDistinct(s.leases)
    ensures KeySetsDistinct(DeleteKeys(s, rev, ks).store.leases)
    decreases |ks|
  {
    if ks != [] {
      if EntryAt(s, ks[0], 0).Some? { RelinkDistinct(s.leases, ks[0], EntryAt(s, ks[0], 0).value.lease, 0); }
      DeleteKeysDistinct(DeleteKey(s, rev, ks[0]).store, rev, ks[1..]);
    }
  }

  lemma {:induction false} OpsDistinct(s: Store, rev: nat, ops: seq<Op>)
    requires KeySetsDistinct(s.leases)
    ensures KeySetsDistinct(ApplyOps(s, rev, ops).store.leases)
    decreases |ops|
  {
    if ops != [] {
      match ops[0] {
        case OpPut(key, _, _, _, _, _) =>
          var previous := EntryAt(s, key, 0);
          RelinkDistinct(s.leases, key, LeaseOf(previous), NewRev(previous, rev, ops[0]).lease);
        case OpDelete(key, rangeEnd, _) => DeleteKeysDistinct(s, rev, MatchingKeys(s.keys.Keys, key, rangeEnd));
        case _ =>
      }
      match ApplyOp(s, rev, ops[0]) {
        case Err(_) =>
        case Ok(w) => OpsDistinct(w.store, rev, ops[1..]);
      }
    }
  }

  lemma ApplyWellFormed(s: Store, cmd: Command, index: nat)
    requires WellFormed(s)
    ensures WellFormed(Apply(s, cmd, index).store)
  {
    hide ApplyOps, PlainOps, PlainKeepAlive, PlainWrites, ApplyLeaseRevoke, PlainGrant;
    var p := OwnPlain(s);
    OwnRefines(s);
    match cmd {
      case LeaseRevoke(id) => RevokeWellFormed(s, id);
      case Put(op) =>
        WritesSim(s, p, [op]);
        OpsDistinct(s, s.revision + 1, [op]);
      case DeleteRange(op) =>
        WritesSim(s, p, [op]);
        OpsDistinct(s, s.revision + 1, [op]);
      case Txn(compare, success, failure) =>
        var ops := if CompareAll(s, compare) then success else failure;
        WritesSim(s, p, ops);
        OpsDistinct(s, s.revision + 1, ops);
      case Compact(target) => CompactSim(s, p, target);
      case LeaseGrant(id, ttl, expiry) => GrantSim(s, p, id, ttl, expiry, index);
      case LeaseKeepAlive(id, expiry) => KeepAliveSim(s, p, id, expiry);
      case Seed(revision) => SeedSim(s, p, revision);
      case Noop =>
      case Unknown =>
    }
  }

  lemma RevokeWellFormed(s: Store, id: int)
    requires WellFormed(s)
    ensures WellFormed(ApplyLeaseRevoke(s, id).store)
  {
    if id in s.leases {
      OwnRefines(s);
      RevokeWork(s, OwnPlain(s), id);
      DeleteEachIs(s.(leases := s.leases - {id}), s.revision + 1, s.leases[id].keys);
      DeleteKeysDistinct(s.(leases := s.leases - {id}), s.revision + 1, s.leases[id].keys);
    }
  }

  /** Any commands at all lead to a well-formed store. */
  lemma {:induction false} RunWellFormed(cmds: seq<Command>)
    ensures WellFormed(RunStore(cmds))
    decreases |cmds|
  {
    if cmds != [] {
      var n := |cmds| - 1;
      RunWellFormed(cmds[..n]);
      ApplyWellFormed(RunStore(cmds[..n]), cmds[n], |cmds|);
    }
  }

  /** No command lowers the revision or the compaction point. */
  lemma ApplyGrows(s: Store, cmd: Command, index: nat)
    requires WellFormed(s)
    ensures s.revision <= Apply(s, cmd, index).store.revision
    ensures s.compactRevision <= Apply(s, cmd, index).store.compactRevision
  {
    hide Kept, Distinct, OwnPlain, DeleteEach, CompareHolds, PlainOps, ApplyWrites;
    var p := OwnPlain(s);
    OwnRefines(s);
    match cmd {
      case LeaseRevoke(id) => if id in s.leases { RevokeWork(s, p, id); }
      case Put(op) => WritesSim(s, p, [op]);
      case DeleteRange(op) => WritesSim(s, p, [op]);
      case Txn(compare, success, failure) => WritesSim(s, p, if CompareAll(s, compare) then success else failure);
      case _ =>
    }
  }

  // ---- what every command does to the plain keyspace -----------------------

  /** The next keyspace: a revocation deletes the keys its lease lists, right or wrong. */
  function NextKeyspace(s: Store, p: Keyspace, cmd: Command, index: nat): Keyspace {
    if cmd.LeaseRevoke? && cmd.id in s.leases then
      var m' := Current(p) - Elements(s.leases[cmd.id].keys);
      var p1: Keyspace := p.(leases := p.leases - {cmd.id});
      if m' != Current(p) then p1.(views := p1.views + [m']) else p1
    else PlainApply(p, cmd, index).plain
  }

  /** Every command refines, with the plain keyspace's answer; a revocation's answer is its new revision. */
  lemma ApplyTracks(s: Store, p: Keyspace, cmd: Command, index: nat)
    requires Refines(s, p) && KeySetsDistinct(s.leases)
    ensures Refines(Apply(s, cmd, index).store, NextKeyspace(s, p, cmd, index))
    ensures Apply(s, cmd, index).result ==
            if cmd.LeaseRevoke? && cmd.id in s.leases
                then Ok(RevokeResponse(Revision(NextKeyspace(s, p, cmd, index)), cmd.id))
            else PlainApply(p, cmd, index).result
  {
    if cmd.LeaseRevoke? && cmd.id in s.leases {
      RevokeWork(s, p, cmd.id);
    } else {
      ApplySim(s, p, cmd, index);
    }
  }

  /** It is the intended keyspace if and only if a revocation finds its lease's key set right. */
  lemma IntendedIff(s: Store, p: Keyspace, cmd: Command, index: nat)
    requires Refines(s, p) && KeySetsDistinct(s.leases)
    ensures Refines(Apply(s, cmd, index).store, PlainApply(p, cmd, index).plain) <==> Revocable(s, p, cmd)
    ensures Revocable(s, p, cmd) ==> Apply(s, cmd, index).result == PlainApply(p, cmd, index).result
  {
    if Revocable(s, p, cmd) {
      ApplySim(s, p, cmd, index);
    } else {
      RevokeSim(s, p, cmd.id);
    }
  }

  function RunActual(cmds: seq<Command>): Keyspace {
    if cmds == [] then Plain([map[]], 0, map[])
    else
      var n := |cmds| - 1;
      NextKeyspace(RunStore(cmds[..n]), RunActual(cmds[..n]), cmds[n], |cmds|)
  }

  /** After any log at all, every uncompacted revision of the store reads as one plain map. */
  lemma {:induction false} RunTracks(cmds: seq<Command>)
    ensures Refines(RunStore(cmds), RunActual(cmds)) && KeySetsDistinct(RunStore(cmds).leases)
    decreases |cmds|
  {
    hide Apply, NextKeyspace;
    RunWellFormed(cmds);
    if cmds == [] {
      EmptyRefines();
    } else {
      var n := |cmds| - 1;
      RunTracks(cmds[..n]);
      ApplyTracks(RunStore(cmds[..n]), RunActual(cmds[..n]), cmds[n], |cmds|);
    }
  }

  ghost predicate IntendedAt(cmds: seq<Command>, i: nat) {
    i <= |cmds| ==> Refines(RunStore(cmds[..i]), RunPlain(cmds[..i]))
  }

  lemma IntendedStep(cmds: seq<Command>, i: nat)
    requires i < |cmds| && IntendedAt(cmds, i)
    ensures IntendedAt(cmds, i + 1) <==> RevocableAt(cmds, i)
  {
    RunTracks(cmds[..i]);
    IntendedIff(RunStore(cmds[..i]), RunPlain(cmds[..i]), cmds[i], i + 1);
    hide Apply, PlainApply;
    assert cmds[..i + 1][..i] == cmds[..i];
  }

  lemma IntendedBefore(cmds: seq<Command>, i: nat)
    requires i <= |cmds| && forall j: nat :: RevocableAt(cmds, j)
    ensures IntendedAt(cmds, i)
  {
    forall j: nat ensures RevocableAt(cmds[..i], j) {
      assert RevocableAt(cmds, j);
      if j < i { assert cmds[..i][..j] == cmds[..j]; }
    }
    RunRefines(cmds[..i]);
  }

  /**
   The store is the intended plain keyspace after every prefix of a log if and only if every
   revocation in it finds its lease's key set to be the live keys that carry the lease.
   */
  lemma RunIntended(cmds: seq<Command>)
    ensures (forall i: nat :: IntendedAt(cmds, i)) <==> (forall i: nat :: RevocableAt(cmds, i))
  {
    if forall i: nat :: RevocableAt(cmds, i) {
      forall i: nat ensures IntendedAt(cmds, i) {
        if i <= |cmds| { IntendedBefore(cmds, i); }
      }
    } else {
      var i: nat :| !RevocableAt(cmds, i);
      if IntendedAt(cmds, i) { IntendedStep(cmds, i); }
    }
  }
}
