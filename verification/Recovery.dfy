/**
 A cluster of one, file operation by file operation: the process may die between any two of them.
 Whatever it had acknowledged is there, once and in order, after the next start and self-election.
 */
module Recovery {
  import opened Wrappers
  import opened Commands
  import opened RaftNode
  import opened RaftView
  import opened Replica
  import opened MvccEvery

  /**
   Where a handler is: between handlers; elected, the announcing entry not yet written; applying;
   about to save a snapshot; snapshot saved, the log file not yet rewritten.
   */
  datatype Stage = Idle | Elected | Applying | Due | Saved

  /** `acked` lists the entries whose callers were told of success, over all lives of the process. */
  datatype Solo = Solo(nd: Node, stage: Stage, acked: seq<Entry>)

  datatype Move = Elect | Announce | Propose(cmd: Command) | ApplyNext | Save | Rewrite | Rest | Crash

  // ---- the moves -----------------------------------------------------------

  predicate Acks(nd: Node, e: Entry) {
    e.index in nd.pending && nd.pending[e.index].term == e.term
  }

  function AppendOwn(nd: Node, cmd: Command): Node {
    Append(nd, cmd).(commitIndex := LastIndex(nd) + 1)
  }

  function RewriteOnly(nd: Node): Node {
    match nd.snapshot
    case None => nd
    case Some(s) => nd.(snapshotIndex := s.index, snapshotTerm := s.term, log := LogFrom(nd.log, s.index + 1))
  }

  /** What a move does; None when it cannot happen there. */
  function Moved(cfg: Config, s: Solo, move: Move): Option<Solo> {
    match move
    case Elect => if s.stage == Idle && s.nd.role != Leader then Some(s.(nd := Stand(s.nd), stage := Elected)) else None
    case Announce =>
      if s.stage == Elected then Some(s.(nd := AppendOwn(Lead(cfg, s.nd), Noop), stage := Applying)) else None
    case Propose(cmd) =>
      if s.stage == Idle && s.nd.role == Leader then Some(s.(nd := AppendOwn(s.nd, cmd), stage := Applying)) else None
    case ApplyNext =>
      if s.stage != Applying || s.nd.lastApplied >= s.nd.commitIndex then None
      else
        var nd1 := s.nd.(lastApplied := s.nd.lastApplied + 1);
        if nd1.lastApplied == nd1.snapshotIndex then Some(s.(nd := nd1))
        else (match Find(nd1.log, nd1.lastApplied)
              case None => Some(s.(nd := nd1))
              case Some(e) =>
                var nd2 := Deliver(nd1, e);
                Some(Solo(nd2, if SnapshotDue(cfg, nd2) then Due else Applying,
                          s.acked + if Acks(nd1, e) then [e] else [])))
    case Save => if s.stage == Due then Some(s.(nd := SaveOnly(s.nd), stage := Saved)) else None
    case Rewrite => if s.stage == Saved then Some(s.(nd := RewriteOnly(s.nd), stage := Applying)) else None
    case Rest => if s.stage == Applying && s.nd.lastApplied == s.nd.commitIndex then Some(s.(stage := Idle)) else None
    case Crash => Some(Solo(Restart(s.nd), Idle, s.acked))
  }

  ghost predicate MoveAt(cfg: Config, run: seq<Solo>, k: nat) {
    k + 1 < |run| ==> exists move :: Moved(cfg, run[k], move) == Some(run[k + 1])
  }

  ghost predicate SoloRun(cfg: Config, run: seq<Solo>) {
    && cfg.size == 1
    && run != [] && run[0] == Solo(Fresh(0), Idle, [])
    && forall k: nat :: MoveAt(cfg, run, k)
  }

  // ---- the moves are the handlers, taken apart -----------------------------

  /** The node the handler under way will end in, if nothing interrupts it. */
  function Finish(cfg: Config, s: Solo): Node {
    match s.stage
    case Idle => s.nd
    case Elected => BecomeLeader(cfg, s.nd).node
    case Applying => ApplyCommitted(cfg, s.nd)
    case Due => ApplyCommitted(cfg, TakeSnapshot(s.nd))
    case Saved => ApplyCommitted(cfg, RewriteOnly(s.nd))
  }

  lemma NobodyElse(cfg: Config, nd: Node)
    requires cfg.size == 1 && nd.id == 0
    ensures Peers(cfg, nd.id) == {} && RaftNode.Replicate(cfg, nd) == Out(nd, {})
  {
    assert Members(1) == Members(0) + {0};
    assert Peers(cfg, nd.id) == {};
    if nd.role == Leader {
      assert RaftNode.Replicate(cfg, nd).sent == {};
      var none: set<Id> := {};
      assert nd.nextIndex + (map p | p in none :: 1) == nd.nextIndex;
    }
  }

  /** Until a crash, the moves that follow a handler's first one end exactly where the handler does. */
  lemma MovesAreHandlers(cfg: Config, s: Solo, move: Move)
    requires cfg.size == 1 && s.nd.id == 0 && Moved(cfg, s, move).Some?
    requires s.stage == Elected ==> s.nd.role == Candidate
    requires s.stage == Due ==> TermAt(s.nd, s.nd.lastApplied).Some?
    ensures var s' := Moved(cfg, s, move).value;
            Finish(cfg, s') == match move
                               case Elect => StartElection(cfg, s.nd).node
                               case Propose(cmd) => RaftNode.Propose(cfg, s.nd, cmd).node
                               case Crash => Restart(s.nd)
                               case _ => Finish(cfg, s)
  {
    var s' := Moved(cfg, s, move).value;
    match move {
      case Elect =>
      case Announce => AnnounceIs(cfg, s.nd);
      case Propose(_) =>
      case ApplyNext => ApplyIs(cfg, s);
      case Save => assert RewriteOnly(SaveOnly(s.nd)) == TakeSnapshot(s.nd);
      case Rewrite =>
      case Rest =>
      case Crash =>
    }
  }

  lemma AnnounceIs(cfg: Config, nd: Node)
    requires cfg.size == 1 && nd.id == 0 && nd.role == Candidate
    ensures ApplyCommitted(cfg, AppendOwn(Lead(cfg, nd), Noop)) == BecomeLeader(cfg, nd).node
  {
    var led := Lead(cfg, nd);
    var first := AppendLocal(cfg, led, Noop).node;
    assert first == ApplyCommitted(cfg, AppendOwn(led, Noop));
    ApplyStands(cfg, AppendOwn(led, Noop));
    NobodyElse(cfg, first);
  }

  lemma ApplyIs(cfg: Config, s: Solo)
    requires s.stage == Applying && s.nd.lastApplied < s.nd.commitIndex
    ensures Finish(cfg, Moved(cfg, s, ApplyNext).value) == ApplyCommitted(cfg, s.nd)
  {
    hide TakeSnapshot, Deliver, Find, Acks, MaybeSnapshot;
    assert ApplyCommitted(cfg, s.nd) == ApplyCommitted(cfg, ApplyOne(cfg, s.nd));
    var nd1 := s.nd.(lastApplied := s.nd.lastApplied + 1);
    match Find(nd1.log, nd1.lastApplied) {
      case None =>
      case Some(e) => MaybeIs(cfg, Deliver(nd1, e));
    }
  }

  lemma MaybeIs(cfg: Config, nd: Node)
    ensures MaybeSnapshot(cfg, nd) == if SnapshotDue(cfg, nd) then TakeSnapshot(nd) else nd
  {
  }

  // ---- what every moment keeps ---------------------------------------------

  /** The whole log: what the snapshot on disk covers and what the log file has after it. */
  function OnDisk(nd: Node): seq<Entry> {
    match nd.snapshot
    case None => nd.log
    case Some(s) => s.state + LogFrom(nd.log, s.index + 1)
  }

  /** Acknowledged entries are in the whole log, each at its index, in increasing order. */
  ghost predicate AckAt(acked: seq<Entry>, f: seq<Entry>, i: nat) {
    i < |acked| ==>
      && 1 <= acked[i].index <= |f| && f[acked[i].index - 1] == acked[i]
      && (i > 0 ==> acked[i - 1].index < acked[i].index)
  }

  ghost predicate SoloOk(s: Solo, f: seq<Entry>) {
    && s.nd.id == 0
    && View(if s.stage == Saved then RewriteOnly(s.nd) else s.nd, f)
    && (s.stage == Saved ==> s.nd.snapshot.Some?)
    && (s.stage == Elected ==> s.nd.role == Candidate)
    && (s.stage == Due ==> s.nd.lastApplied > 0)
    && (s.stage == Applying || s.stage == Due ==> s.nd.commitIndex == |f|)
    && (s.stage == Saved ==> s.nd.commitIndex == |f|)
    && (forall i: nat :: AckAt(s.acked, f, i))
    && (s.stage == Idle || s.stage == Elected ==> s.nd.pending == map[])
    && s.nd.pending.Keys <= {|f|}
    && (|f| in s.nd.pending ==> s.nd.lastApplied < |f| && (s.acked != [] ==> s.acked[|s.acked| - 1].index < |f|))
  }

  lemma DiskView(nd: Node, f: seq<Entry>)
    requires View(nd, f)
    ensures OnDisk(nd) == f
  {
    var b := nd.snapshotIndex;
    FilterFrom(f, b, b + 1);
    Rejoins(f, b);
    hide LogFrom, TermOf, Numbered;
    if b > 0 { assert OnDisk(nd) == f[..b] + f[b..]; }
  }

  lemma Rejoins<T>(f: seq<T>, b: nat)
    requires b <= |f|
    ensures f[..b] + f[b..] == f && f[0..] == f
  {
  }

  /** A crash between saving the snapshot and rewriting the log leaves what the rewrite would have left. */
  lemma SavedRestarts(nd: Node)
    requires nd.snapshot.Some?
    ensures Restart(nd) == Restart(RewriteOnly(nd)) && OnDisk(nd) == OnDisk(RewriteOnly(nd))
  {
    LogFromTwice(nd.log, nd.snapshot.value.index + 1, nd.snapshot.value.index + 1);
  }

  // ---- each move -----------------------------------------------------------

  lemma AppendOwnOk(s: Solo, f: seq<Entry>, nd: Node, cmd: Command)
    requires SoloOk(s, f) && (s.stage == Idle || s.stage == Elected) && nd.role == Leader
    requires nd == s.nd.(role := nd.role, leaderId := nd.leaderId,
                         nextIndex := nd.nextIndex, matchIndex := nd.matchIndex)
    ensures var e := Entry(nd.currentTerm, |f| + 1, cmd);
            nd.currentTerm >= 1 ==> SoloOk(s.(nd := AppendOwn(nd, cmd), stage := Applying), f + [e])
  {
    hide LastTerm;
    var e := Entry(nd.currentTerm, |f| + 1, cmd);
    var f' := f + [e];
    var nd' := AppendOwn(nd, cmd);
    LastView(s.nd, f);
    assert LastIndex(nd) == |f|;
    if nd.currentTerm >= 1 {
      var b := nd.snapshotIndex;
      assert f'[b..] == f[b..] + [e];
      assert f'[..b] == f[..b] && f'[..nd.lastApplied] == f[..nd.lastApplied];
      assert View(nd', f');
      AcksGrow(s.acked, f, e);
      AckAtLast(s.acked, f);
    }
  }

  lemma AcksGrow(acked: seq<Entry>, f: seq<Entry>, e: Entry)
    requires forall i: nat :: AckAt(acked, f, i)
    ensures forall i: nat :: AckAt(acked, f + [e], i)
  {
    forall i: nat ensures AckAt(acked, f + [e], i) { assert AckAt(acked, f, i); }
  }

  lemma AckAtLast(acked: seq<Entry>, f: seq<Entry>)
    requires forall i: nat :: AckAt(acked, f, i)
    ensures acked != [] ==> acked[|acked| - 1].index <= |f|
  {
    if acked != [] { assert AckAt(acked, f, |acked| - 1); }
  }

  lemma ApplyNextOk(cfg: Config, s: Solo, f: seq<Entry>)
    requires SoloOk(s, f) && s.stage == Applying && s.nd.lastApplied < s.nd.commitIndex
    ensures Moved(cfg, s, ApplyNext).Some? && SoloOk(Moved(cfg, s, ApplyNext).value, f)
  {
    var nd1 := s.nd.(lastApplied := s.nd.lastApplied + 1);
    var e := f[s.nd.lastApplied];
    FindByIndex(f, s.nd.snapshotIndex, nd1.lastApplied);
    Finds(s, f, nd1, e);
    hide SoloOk;
    ApplyNextIs(cfg, s, nd1, e);
    DeliveredOk(s, f, nd1, e, if SnapshotDue(cfg, Deliver(nd1, e)) then Due else Applying);
  }

  lemma Finds(s: Solo, f: seq<Entry>, nd1: Node, e: Entry)
    requires SoloOk(s, f) && s.stage == Applying && s.nd.lastApplied < s.nd.commitIndex
    requires nd1 == s.nd.(lastApplied := s.nd.lastApplied + 1) && e == f[s.nd.lastApplied]
    ensures nd1.lastApplied != nd1.snapshotIndex && Find(nd1.log, nd1.lastApplied) == Some(e)
  {
    FindByIndex(f, s.nd.snapshotIndex, nd1.lastApplied);
  }

  lemma ApplyNextIs(cfg: Config, s: Solo, nd1: Node, e: Entry)
    requires s.stage == Applying && s.nd.lastApplied < s.nd.commitIndex
    requires nd1 == s.nd.(lastApplied := s.nd.lastApplied + 1)
    requires nd1.lastApplied != nd1.snapshotIndex && Find(nd1.log, nd1.lastApplied) == Some(e)
    ensures Moved(cfg, s, ApplyNext)
            == Some(Solo(Deliver(nd1, e), if SnapshotDue(cfg, Deliver(nd1, e)) then Due else Applying,
                         s.acked + if Acks(nd1, e) then [e] else []))
  {
    hide Deliver, SnapshotDue, Acks, Find;
  }

  lemma DeliveredOk(s: Solo, f: seq<Entry>, nd1: Node, e: Entry, stage: Stage)
    requires (stage == Applying || stage == Due) && SoloOk(s, f) && s.stage == Applying && s.nd.lastApplied < |f|
             && e == f[s.nd.lastApplied]
    requires nd1 == s.nd.(lastApplied := s.nd.lastApplied + 1)
    ensures SoloOk(Solo(Deliver(nd1, e), stage, s.acked + if Acks(nd1, e) then [e] else []), f)
  {
    DeliverView(s.nd, f);
    AckDelivered(s, f, nd1, e);
  }

  lemma AckDelivered(s: Solo, f: seq<Entry>, nd1: Node, e: Entry)
    requires SoloOk(s, f) && s.nd.lastApplied < |f| && e == f[s.nd.lastApplied]
    requires nd1 == s.nd.(lastApplied := s.nd.lastApplied + 1)
    ensures var nd2 := Deliver(nd1, e);
            var acked := s.acked + if Acks(nd1, e) then [e] else [];
            && (forall i: nat :: AckAt(acked, f, i))
            && nd2.pending.Keys <= {|f|}
            && (|f| in nd2.pending ==> nd2.lastApplied < |f| && (acked != [] ==> acked[|acked| - 1].index < |f|))
  {
    var acked := s.acked + if Acks(nd1, e) then [e] else [];
    forall i: nat ensures AckAt(acked, f, i) {
      assert AckAt(s.acked, f, i);
      if Acks(nd1, e) { assert e.index == |f|; }
    }
  }

  lemma SaveOk(cfg: Config, s: Solo, f: seq<Entry>)
    requires SoloOk(s, f) && s.stage == Due
    ensures SoloOk(Moved(cfg, s, Save).value, f)
  {
    TermAtView(s.nd, f, s.nd.lastApplied);
    TakeSnapshotView(s.nd, f);
    assert RewriteOnly(SaveOnly(s.nd)) == TakeSnapshot(s.nd);
  }

  lemma CrashOk(s: Solo, f: seq<Entry>)
    requires SoloOk(s, f)
    ensures SoloOk(Solo(Restart(s.nd), Idle, s.acked), f)
  {
    if s.stage == Saved {
      SavedRestarts(s.nd);
      RestartView(RewriteOnly(s.nd), f);
    } else {
      RestartView(s.nd, f);
    }
  }

  /** The whole log only ever grows at its end, by at most one entry a move. */
  lemma MoveOk(cfg: Config, s: Solo, f: seq<Entry>, move: Move) returns (f': seq<Entry>)
    requires cfg.size == 1 && SoloOk(s, f) && Moved(cfg, s, move).Some? && TermOk(s)
    ensures SoloOk(Moved(cfg, s, move).value, f') && f <= f' && TermOk(Moved(cfg, s, move).value)
  {
    f' := f;
    match move {
      case Elect => QuietOk(cfg, s, f, move);
      case Announce =>
        AppendOwnOk(s, f, Lead(cfg, s.nd), Noop);
        f' := f + [Entry(s.nd.currentTerm, |f| + 1, Noop)];
      case Propose(cmd) =>
        AppendOwnOk(s, f, s.nd, cmd);
        f' := f + [Entry(s.nd.currentTerm, |f| + 1, cmd)];
      case ApplyNext =>
        hide SoloOk;
        ApplyNextOk(cfg, s, f);
        TermStays(cfg, s, move);
      case Save =>
        hide SoloOk;
        SaveOk(cfg, s, f);
        TermStays(cfg, s, move);
      case Rewrite => QuietOk(cfg, s, f, move);
      case Rest => QuietOk(cfg, s, f, move);
      case Crash => CrashOk(s, f);
    }
  }

  /** Moves that touch no entry. */
  lemma QuietOk(cfg: Config, s: Solo, f: seq<Entry>, move: Move)
    requires SoloOk(s, f) && Moved(cfg, s, move).Some? && TermOk(s) && (move.Elect? || move.Rewrite? || move.Rest?)
    ensures SoloOk(Moved(cfg, s, move).value, f) && TermOk(Moved(cfg, s, move).value)
  {
    hide Find, Deliver, TermAt, LogFrom;
  }

  lemma TermStays(cfg: Config, s: Solo, move: Move)
    requires Moved(cfg, s, move).Some? && TermOk(s) && (move.ApplyNext? || move.Save?)
    ensures TermOk(Moved(cfg, s, move).value)
  {
    hide Find, TermAt;
  }

  predicate TermOk(s: Solo) {
    s.stage != Idle || s.nd.role == Leader ==> s.nd.currentTerm >= 1
  }

  // ---- every run -----------------------------------------------------------

  lemma {:induction false} SoloRunOk(cfg: Config, run: seq<Solo>, n: nat) returns (fs: seq<seq<Entry>>)
    requires SoloRun(cfg, run) && n < |run|
    ensures |fs| == n + 1 && forall k | 0 <= k <= n :: SoloOk(run[k], fs[k]) && TermOk(run[k])
    ensures forall j, k | 0 <= j <= k <= n :: fs[j] <= fs[k]
  {
    if n == 0 {
      fs := [[]];
    } else {
      fs := SoloRunOk(cfg, run, n - 1);
      assert MoveAt(cfg, run, n - 1);
      hide SoloOk, Moved, TermOk;
      var move :| Moved(cfg, run[n - 1], move) == Some(run[n]);
      var f := MoveOk(cfg, run[n - 1], fs[n - 1], move);
      fs := fs + [f];
    }
  }

  /** What the process is after dying at this very moment, starting again and electing itself. */
  function Recovered(cfg: Config, s: Solo): Node {
    StartElection(cfg, Restart(s.nd)).node
  }

  lemma RecoveredIs(cfg: Config, s: Solo, f: seq<Entry>)
    requires cfg.size == 1 && SoloOk(s, f)
    ensures Recovered(cfg, s).role == Leader
    ensures Recovered(cfg, s).app == f + [Entry(s.nd.currentTerm + 1, |f| + 1, Noop)]
  {
    hide SoloOk, StartElection;
    CrashOk(s, f);
    ElectedApp(cfg, Solo(Restart(s.nd), Idle, s.acked), f);
    KeepsTerm(s.nd);
  }

  lemma KeepsTerm(nd: Node)
    ensures Restart(nd).currentTerm == nd.currentTerm
  {
  }

  lemma ElectedApp(cfg: Config, s: Solo, f: seq<Entry>)
    requires cfg.size == 1 && SoloOk(s, f) && s.stage == Idle
    ensures StartElection(cfg, s.nd).node.role == Leader
    ensures StartElection(cfg, s.nd).node.app == f + [Entry(s.nd.currentTerm + 1, |f| + 1, Noop)]
  {
    hide ApplyCommitted, BecomeLeader, AppendOwn;
    var s2 := s.(nd := Stand(s.nd), stage := Elected);
    var led := Lead(cfg, s2.nd);
    AnnounceIs(cfg, s2.nd);
    AppendOwnOk(s2, f, led, Noop);
    hide Lead;
    OwnApplied(cfg, s2, led, f, f + [Entry(led.currentTerm, |f| + 1, Noop)]);
  }

  lemma OwnApplied(cfg: Config, s: Solo, led: Node, f: seq<Entry>, f': seq<Entry>)
    requires SoloOk(s.(nd := AppendOwn(led, Noop), stage := Applying), f') && led.role == Leader
    ensures ApplyCommitted(cfg, AppendOwn(led, Noop)).role == Leader
    ensures ApplyCommitted(cfg, AppendOwn(led, Noop)).app == f'
  {
    var nd' := AppendOwn(led, Noop);
    ApplyCommittedView(cfg, nd', f');
    ApplyStands(cfg, nd');
    OwnRole(led, Noop);
    hide ApplyCommitted, AppendOwn;
    assert f'[..|f'|] == f';
  }

  lemma OwnRole(nd: Node, cmd: Command)
    ensures AppendOwn(nd, cmd).role == nd.role && AppendOwn(nd, cmd).id == nd.id
  {
  }

  lemma DiskIs(s: Solo, f: seq<Entry>)
    requires SoloOk(s, f)
    ensures OnDisk(s.nd) == f
  {
    if s.stage == Saved {
      SavedRestarts(s.nd);
      DiskView(RewriteOnly(s.nd), f);
    } else {
      DiskView(s.nd, f);
    }
  }

  lemma {:induction false} RevisionGrows(a: seq<Entry>, b: seq<Entry>)
    requires a <= b
    ensures StoreOf(a).revision <= StoreOf(b).revision && StoreOf(a).compactRevision <= StoreOf(b).compactRevision
    ensures WellFormed(StoreOf(b))
    decreases |b|
  {
    if b != [] {
      var b1 := b[..|b| - 1];
      assert b == b1 + [b[|b| - 1]];
      StoreOfPush(b1, b[|b| - 1]);
      RevisionGrows(if |a| < |b| then a else [], b1);
      ApplyGrows(StoreOf(b1), b[|b| - 1].cmd, b[|b| - 1].index);
      ApplyWellFormed(StoreOf(b1), b[|b| - 1].cmd, b[|b| - 1].index);
      if |a| == |b| { assert a == b; }
    }
  }

  /**
   At any moment of any run, with crashes wherever: dying, starting and self-election rebuild a
   leader that has applied the whole log on disk, every entry once, at its own index. Everything ever
   acknowledged is in it, in order, everything any earlier moment had applied is a prefix of it, and
   so the store's revision is not below what it ever was.
   */
  lemma CrashRecovery(cfg: Config, run: seq<Solo>, a: nat, b: nat)
    requires SoloRun(cfg, run) && a <= b < |run|
    ensures var r := Recovered(cfg, run[b]);
            && r.role == Leader && Numbered(r.app)
            && r.app != [] && r.app[..|r.app| - 1] == OnDisk(run[b].nd) && r.app[|r.app| - 1].cmd == Noop
            && run[a].nd.app <= r.app
            && (forall i: nat :: AckAt(run[a].acked, r.app, i))
            && StoreOf(run[a].nd.app).revision <= StoreOf(r.app).revision
  {
    hide SoloOk, StoreOf, Recovered, Moved;
    var fs := SoloRunOk(cfg, run, b);
    assert SoloOk(run[a], fs[a]) && SoloOk(run[b], fs[b]) && fs[a] <= fs[b];
    RecoveredIs(cfg, run[b], fs[b]);
    DiskIs(run[b], fs[b]);
    AppliedAndAcked(run[a], fs[a], Recovered(cfg, run[b]).app);
    DiskNumbered(run[b], fs[b]);
    RevisionGrows(run[a].nd.app, Recovered(cfg, run[b]).app);
  }

  lemma DiskNumbered(s: Solo, f: seq<Entry>)
    requires SoloOk(s, f)
    ensures Numbered(f)
  {
  }

  lemma AppliedAndAcked(s: Solo, f: seq<Entry>, whole: seq<Entry>)
    requires SoloOk(s, f) && f <= whole
    ensures s.nd.app <= whole && forall i: nat :: AckAt(s.acked, whole, i)
  {
    assert s.nd.app == f[..s.nd.lastApplied] == whole[..s.nd.lastApplied];
    forall i: nat ensures AckAt(s.acked, whole, i) { assert AckAt(s.acked, f, i); }
  }
}
