/** The full event history of a log of commands, and what it tells a reader about the keyspace. */
module MvccHistory {
  import opened Commands
  import opened Keys
  import opened Mvcc
  import opened MvccPlain
  import opened MvccChains
  import opened MvccRefines
  import opened MvccRuns
  import opened MvccCompaction
  import opened MvccEvery

  // ---- what an event says --------------------------------------------------

  function Step(m: View, e: Event): View {
    match e
    case PutEvent(_, kv, _) => m[kv.key := kv]
    case DeleteEvent(_, key, _) => m - {key}
  }

  function Replay(m: View, events: seq<Event>): View
    decreases |events|
  {
    if events == [] then m else Replay(Step(m, events[0]), events[1..])
  }

  /** An event is true of the map it changes: the old entry is right and the new one is numbered after it. */
  predicate True(m: View, e: Event) {
    && e.prevKv == Lookup(m, EventKey(e))
    && match e
       case DeleteEvent(_, _, prevKv) => prevKv.Some?
       case PutEvent(rev, kv, prevKv) =>
         && kv.modRevision == rev
         && kv.version == (if prevKv.Some? then prevKv.value.version + 1 else 1)
         && kv.createRevision == (if prevKv.Some? then prevKv.value.createRevision else rev)
  }

  /** The events lead from one map to another, every one of them true when it happens. */
  predicate Tells(m: View, events: seq<Event>, m': View)
    decreases |events|
  {
    if events == [] then m == m' else True(m, events[0]) && Tells(Step(m, events[0]), events[1..], m')
  }

  lemma {:induction false} TellsReplay(m: View, events: seq<Event>, m': View)
    requires Tells(m, events, m')
    ensures Replay(m, events) == m'
    decreases |events|
  {
    if events != [] { TellsReplay(Step(m, events[0]), events[1..], m'); }
  }

  lemma {:induction false} TellsMore(m: View, a: seq<Event>, m': View, b: seq<Event>, m'': View)
    requires Tells(m, a, m') && Tells(m', b, m'')
    ensures Tells(m, a + b, m'')
    decreases |a|
  {
    if a == [] {
      assert a + b == b;
    } else {
      TellsMore(Step(m, a[0]), a[1..], m', b, m'');
      assert (a + b)[1..] == a[1..] + b;
    }
  }

  // ---- the events of a batch -----------------------------------------------

  ghost predicate AllAt(events: seq<Event>, rev: nat) {
    forall i | 0 <= i < |events| :: events[i].rev == rev
  }

  /** What one step of a batch adds to the event log is exactly the change of the live map. */
  ghost predicate Explains(s: Store, m: View, s': Store, m': View, rev: nat) {
    && s.events <= s'.events
    && Tells(m, s'.events[|s.events|..], m') && AllAt(s'.events[|s.events|..], rev)
  }

  lemma ExplainsMore(s: Store, m: View, s1: Store, m1: View, s2: Store, m2: View, rev: nat)
    requires Explains(s, m, s1, m1, rev) && Explains(s1, m1, s2, m2, rev)
    ensures Explains(s, m, s2, m2, rev)
  {
    var a, b := s1.events[|s.events|..], s2.events[|s1.events|..];
    TellsMore(m, a, m1, b, m2);
    assert s2.events == s1.events + b == s.events + a + b;
    assert s2.events[|s.events|..] == a + b;
  }

  lemma PutTells(s0: Store, p: Keyspace, s: Store, m: View, rev: nat, op: Op)
    requires Work(s0, s, m, rev) && SameLeases(s.leases, p.leases) && op.OpPut? && PutAt(s, rev, op).Ok?
    ensures Explains(s, m, PutAt(s, rev, op).value.store, m[op.key := NewKv(m, rev, op)], rev)
  {
    var w := PutAt(s, rev, op).value;
    assert NowIs(s, m, op.key);
    assert w.store.events[|s.events|..] == [w.out];
    var just := [w.out];
    assert just[1..] == [];
    assert KvOf(op.key, NewRev(EntryAt(s, op.key, 0), rev, op)) == NewKv(m, rev, op);
  }

  lemma {:induction false} GoneTells(m: View, rev: nat, ks: seq<Key>)
    requires Distinct(ks)
    ensures Tells(m, Gone(m, rev, ks), m - Elements(ks)) && AllAt(Gone(m, rev, ks), rev)
  {
    if ks == [] {
      assert m - Elements(ks) == m;
    } else {
      var m1 := m - {ks[0]};
      GoneTells(m1, rev, ks[1..]);
      GoneSame(m, m1, rev, ks[1..]);
      assert Elements(ks) == {ks[0]} + Elements(ks[1..]);
      assert m1 - Elements(ks[1..]) == m - Elements(ks);
      if ks[0] in m {
        assert Gone(m, rev, ks)[1..] == Gone(m, rev, ks[1..]);
      } else {
        assert m1 == m;
        assert Gone(m, rev, ks) == Gone(m, rev, ks[1..]);
      }
    }
  }

  lemma DeleteTells(s0: Store, p: Keyspace, s: Store, m: View, rev: nat, key: Key, rangeEnd: Key)
    requires Work(s0, s, m, rev) && SameLeases(s.leases, p.leases)
    ensures Explains(s, m, DeleteAt(s, rev, key, rangeEnd).store, Removed(m, key, rangeEnd), rev)
  {
    var ks := MatchingKeys(s.keys.Keys, key, rangeEnd);
    MatchingIsCovered(s.keys.Keys, key, rangeEnd);
    IncreasingDistinct(ks);
    DeleteKeysSim(s0, p, s, m, rev, ks);
    GoneTells(m, rev, ks);
    forall k | k in m ensures k in s.keys.Keys { assert NowIs(s, m, k); UptoAll([], 0); }
    assert m - Elements(ks) == Removed(m, key, rangeEnd);
    var w := DeleteAt(s, rev, key, rangeEnd);
    assert w.store.events[|s.events|..] == w.out;
  }

  lemma OpTells(s0: Store, p: Keyspace, s: Store, m: View, rev: nat, op: Op)
    requires Refines(s0, p) && Work(s0, s, m, rev) && SameLeases(s.leases, p.leases) && ApplyOp(s, rev, op).Ok?
    ensures PlainOp(p, m, rev, op).Ok?
            && Explains(s, m, ApplyOp(s, rev, op).value.store, PlainOp(p, m, rev, op).value.m, rev)
  {
    OpSim(s0, p, s, m, rev, op);
    assert s.events[|s.events|..] == [];
    match op {
      case OpPut(_, _, _, _, _, _) => PutTells(s0, p, s, m, rev, op);
      case OpDelete(key, rangeEnd, _) => DeleteTells(s0, p, s, m, rev, key, rangeEnd);
      case _ =>
    }
  }

  lemma {:induction false} OpsTell(s0: Store, p: Keyspace, s: Store, m: View, rev: nat, ops: seq<Op>)
    requires Refines(s0, p) && Work(s0, s, m, rev) && SameLeases(s.leases, p.leases) && ApplyOps(s, rev, ops).Done?
    ensures PlainOps(p, m, rev, ops).Ok?
            && Explains(s, m, ApplyOps(s, rev, ops).store, PlainOps(p, m, rev, ops).value.m, rev)
    decreases |ops|
  {
    if ops == [] {
      assert s.events[|s.events|..] == [];
    } else {
      OpSim(s0, p, s, m, rev, ops[0]);
      OpTells(s0, p, s, m, rev, ops[0]);
      var s1, m1 := ApplyOp(s, rev, ops[0]).value.store, PlainOp(p, m, rev, ops[0]).value.m;
      OpsTell(s0, p, s1, m1, rev, ops[1..]);
      ExplainsMore(s, m, s1, m1, ApplyOps(s, rev, ops).store, PlainOps(p, m, rev, ops).value.m, rev);
    }
  }

  // ---- the events of a command ---------------------------------------------

  /** What a command publishes is its change of the newest view, at its new revision. */
  ghost predicate Publishes(p: Keyspace, out: Outcome, p': Keyspace) {
    && Tells(Current(p), out.published, Current(p'))
    && AllAt(out.published, Revision(p) + 1)
    && (out.published != [] ==> Revision(p') == Revision(p) + 1)
  }

  lemma WritesPublish(s: Store, p: Keyspace, ops: seq<Op>)
    requires Refines(s, p)
    ensures Publishes(p, ApplyWrites(s, ops), PlainWrites(p, ops).plain)
  {
    hide ApplyOps, PlainOps;
    var rev := s.revision + 1;
    WritesSim(s, p, ops);
    WorkStarts(s, Current(p));
    OpsSim(s, p, s, Current(p), rev, ops);
    if ApplyOps(s, rev, ops).Done? {
      OpsTell(s, p, s, Current(p), rev, ops);
    } else {
      assert PlainWrites(p, ops).plain == p;
    }
  }

  lemma RevokePublishes(s: Store, p: Keyspace, id: int)
    requires Refines(s, p) && KeySetsDistinct(s.leases)
    ensures Publishes(p, ApplyLeaseRevoke(s, id), NextKeyspace(s, p, LeaseRevoke(id), 0))
  {
    if id in s.leases {
      RevokeWork(s, p, id);
      GoneTells(Current(p), s.revision + 1, s.leases[id].keys);
      GoneEmpty(Current(p), s.revision + 1, s.leases[id].keys);
    }
  }

  lemma ApplyPublishes(s: Store, p: Keyspace, cmd: Command, index: nat)
    requires Refines(s, p) && KeySetsDistinct(s.leases)
    ensures Publishes(p, Apply(s, cmd, index), NextKeyspace(s, p, cmd, index))
  {
    hide ApplyLeaseRevoke, CompareHolds, PlainRevoke, PlainOps, ApplyWrites, PlainCompare, Refines;
    match cmd {
      case Put(op) => WritesPublish(s, p, [op]);
      case DeleteRange(op) => WritesPublish(s, p, [op]);
      case Txn(compare, success, failure) =>
        forall i | 0 <= i < |compare| ensures CompareHolds(s, compare[i]) == PlainCompare(Current(p), compare[i]) {
          CompareSim(s, p, compare[i]);
        }
        WritesPublish(s, p, if CompareAll(s, compare) then success else failure);
      case LeaseRevoke(id) => RevokePublishes(s, p, id);
      case _ =>
    }
  }

  /** The event log gains exactly what is published; compaction alone cuts it. */
  lemma ApplyLogs(s: Store, p: Keyspace, cmd: Command, index: nat)
    requires Refines(s, p) && KeySetsDistinct(s.leases)
    ensures var out := Apply(s, cmd, index);
            && (out.store.compactRevision == s.compactRevision ==> out.store.events == s.events + out.published)
            && (out.store.compactRevision != s.compactRevision ==>
                out.published == [] && s.compactRevision < out.store.compactRevision
                && out.store.events == After(s.events, out.store.compactRevision))
  {
    match cmd {
      case Put(op) => WritesLog(s, p, [op]);
      case DeleteRange(op) => WritesLog(s, p, [op]);
      case Txn(compare, success, failure) => WritesLog(s, p, if CompareAll(s, compare) then success else failure);
      case LeaseRevoke(id) => if id in s.leases { RevokeWork(s, p, id); }
      case _ =>
    }
  }

  lemma WritesLog(s: Store, p: Keyspace, ops: seq<Op>)
    requires Refines(s, p)
    ensures var out := ApplyWrites(s, ops);
            out.store.events == s.events + out.published && out.store.compactRevision == s.compactRevision
  {
    hide ApplyOps, PlainOps;
    EventsAppended(s, s.revision + 1, ops);
    WorkStarts(s, Current(p));
    OpsSim(s, p, s, Current(p), s.revision + 1, ops);
  }

  // ---- the history of a log ------------------------------------------------

  /** What each command of a log publishes. */
  function Batches(cmds: seq<Command>): (bs: seq<seq<Event>>)
    ensures |bs| == |cmds|
  {
    if cmds == [] then []
    else
      var n := |cmds| - 1;
      Batches(cmds[..n]) + [Apply(RunStore(cmds[..n]), cmds[n], |cmds|).published]
  }

  function Flat(bs: seq<seq<Event>>): seq<Event> {
    if bs == [] then [] else bs[0] + Flat(bs[1..])
  }

  lemma {:induction false} FlatPlus(a: seq<seq<Event>>, b: seq<seq<Event>>)
    ensures Flat(a + b) == Flat(a) + Flat(b)
  {
    if a == [] {
      assert a + b == b;
    } else {
      FlatPlus(a[1..], b);
      assert (a + b)[1..] == a[1..] + b;
    }
  }

  lemma FlatPush(a: seq<seq<Event>>, e: seq<Event>)
    ensures Flat(a + [e]) == Flat(a) + e
  {
    FlatPlus(a, [e]);
    var just := [e];
    assert just[1..] == [];
    assert Flat(just) == e + [] == e;
  }

  lemma {:induction false} BatchesPrefix(cmds: seq<Command>, i: nat)
    requires i <= |cmds|
    ensures Batches(cmds)[..i] == Batches(cmds[..i])
    decreases |cmds|
  {
    if i == |cmds| {
      assert cmds[..i] == cmds;
    } else {
      var n := |cmds| - 1;
      BatchesPrefix(cmds[..n], i);
      assert cmds[..n][..i] == cmds[..i];
    }
  }

  /** Everything ever published, in order. */
  function History(cmds: seq<Command>): seq<Event> {
    Flat(Batches(cmds))
  }

  ghost predicate TellsFrom(p: Keyspace, h: seq<Event>, n: nat) {
    n <= Revision(p) ==> Tells(p.views[n], After(h, n), Current(p))
  }

  /** The history explains every view from every earlier one, and the store keeps its uncompacted part. */
  ghost predicate Recorded(s: Store, p: Keyspace, h: seq<Event>) {
    && EventsOk(h, 0, s.revision)
    && s.events == After(h, s.compactRevision)
    && forall n: nat :: TellsFrom(p, h, n)
  }

  lemma {:induction false} AfterPlus(a: seq<Event>, b: seq<Event>, rev: nat)
    ensures After(a + b, rev) == After(a, rev) + After(b, rev)
  {
    if a == [] {
      assert a + b == b;
    } else {
      assert (a + b)[1..] == a[1..] + b;
      AfterPlus(a[1..], b, rev);
    }
  }

  lemma {:induction false} AfterNone(a: seq<Event>, rev: nat)
    requires forall i | 0 <= i < |a| :: a[i].rev <= rev
    ensures After(a, rev) == []
  {
    if a != [] { AfterNone(a[1..], rev); }
  }

  lemma {:induction false} AfterAfter(a: seq<Event>, low: nat, rev: nat)
    ensures After(After(a, low), rev) == After(a, if low <= rev then rev else low)
  {
    if a != [] {
      AfterAfter(a[1..], low, rev);
      AfterPlus(if a[0].rev > low then [a[0]] else [], After(a[1..], low), rev);
      var just := [a[0]];
      assert just[1..] == [];
      assert After(just, rev) == if a[0].rev > rev then just else [];
    }
  }

  /** The views so far are kept, and after a batch the newest one is the last. */
  lemma ViewsGrow(s: Store, p: Keyspace, cmd: Command, index: nat)
    ensures var p' := NextKeyspace(s, p, cmd, index);
            && p.views <= p'.views
            && (cmd.Seed? ==> forall n | Revision(p) <= n <= Revision(p') :: p'.views[n] == Current(p))
            && (!cmd.Seed? ==> Revision(p') <= Revision(p) + 1)
  {
  }

  lemma RecordTells(s: Store, p: Keyspace, h: seq<Event>, cmd: Command, index: nat, n: nat)
    requires Refines(s, p) && KeySetsDistinct(s.leases) && Recorded(s, p, h)
    ensures TellsFrom(NextKeyspace(s, p, cmd, index), h + Apply(s, cmd, index).published, n)
  {
    hide Apply, NextKeyspace;
    var out, p' := Apply(s, cmd, index), NextKeyspace(s, p, cmd, index);
    ApplyPublishes(s, p, cmd, index);
    ViewsGrow(s, p, cmd, index);
    AfterPlus(h, out.published, n);
    if n <= Revision(p) {
      EveryAfter(out.published, n);
      assert TellsFrom(p, h, n);
      TellsMore(p.views[n], After(h, n), Current(p), out.published, Current(p'));
    } else if n <= Revision(p') {
      AfterNone(h, n);
      AfterNone(out.published, n);
      assert p'.views[n] == Current(p');
    }
  }

  lemma RecordStep(s: Store, p: Keyspace, h: seq<Event>, cmd: Command, index: nat)
    requires Refines(s, p) && KeySetsDistinct(s.leases) && Recorded(s, p, h)
    ensures Recorded(Apply(s, cmd, index).store, NextKeyspace(s, p, cmd, index), h + Apply(s, cmd, index).published)
  {
    var out, p' := Apply(s, cmd, index), NextKeyspace(s, p, cmd, index);
    var h' := h + out.published;
    ApplyTracks(s, p, cmd, index);
    ApplyPublishes(s, p, cmd, index);
    ApplyLogs(s, p, cmd, index);
    ViewsGrow(s, p, cmd, index);
    forall n: nat ensures TellsFrom(p', h', n) { RecordTells(s, p, h, cmd, index, n); }
    forall i: nat, j: nat ensures EventOrder(h', i, j) { assert EventOrder(h, i, j); }
    if out.store.compactRevision == s.compactRevision {
      AfterPlus(h, out.published, s.compactRevision);
      EveryAfter(out.published, s.compactRevision);
    } else {
      AfterAfter(h, s.compactRevision, out.store.compactRevision);
      assert h' == h;
    }
  }

  /**
   Over every log, the history in revision order tells how each revision's view became the newest one,
   with every event true when it happened, and the store's event log is the part after its compaction point.
   */
  lemma {:induction false} RunRecords(cmds: seq<Command>)
    ensures Refines(RunStore(cmds), RunActual(cmds)) && Recorded(RunStore(cmds), RunActual(cmds), History(cmds))
    ensures Ordered(RunStore(cmds))
    decreases |cmds|
  {
    RunTracks(cmds);
    if cmds == [] {
      forall n: nat ensures TellsFrom(RunActual(cmds), History(cmds), n) {}
    } else {
      hide NextKeyspace;
      var n := |cmds| - 1;
      var before := cmds[..n];
      RunRecords(before);
      RunTracks(before);
      RecordStep(RunStore(before), RunActual(before), History(before), cmds[n], |cmds|);
      FlatPush(Batches(before), Apply(RunStore(before), cmds[n], |cmds|).published);
    }
    AfterOk(History(cmds), 0, RunStore(cmds).revision, RunStore(cmds).compactRevision);
  }
}
