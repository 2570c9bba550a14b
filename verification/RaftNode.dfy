/**
 One Raft node as a value, and every handler as a function from a node to a node
 and the messages it sends. A handler runs to completion, so one call is one step.

 The state machine behind the log is kept free: `app` is the list of entries that
 were handed to it, a snapshot's state is such a list, and restoring installs it.
 Any deterministic store is then a fold over `app`.
 */
module RaftNode {
  import opened Wrappers
  import opened Commands

  type Id = nat

  datatype Role = Follower | Candidate | Leader

  datatype Entry = Entry(term: nat, index: nat, cmd: Command)

  datatype Snapshot = Snapshot(index: nat, term: nat, state: seq<Entry>)

  /** `size` counts every member including the node itself; None means snapshots are never due. */
  datatype Config = Config(size: nat, snapshotEvery: Option<nat>)

  /** A caller waiting for the entry it proposed: the term it was appended in, and its command. */
  datatype Waiter = Waiter(term: nat, cmd: Command)

  datatype Settle =
    | Resolved(index: nat, waiter: Waiter, entry: Entry)
    | Rejected(index: nat, waiter: Waiter)

  datatype Node = Node(
    id: Id,
    // durable
    currentTerm: nat, votedFor: Option<Id>, log: seq<Entry>, snapshot: Option<Snapshot>,
    // volatile
    snapshotIndex: nat, snapshotTerm: nat, commitIndex: nat, lastApplied: nat,
    role: Role, leaderId: Option<Id>, granted: set<Id>,
    nextIndex: map<Id, nat>, matchIndex: map<Id, nat>,
    pending: map<nat, Waiter>, settled: multiset<Settle>, app: seq<Entry>)

  /** Requests and replies. A reply carries the parts of its request that the callback closed over. */
  datatype Msg =
    | VoteReq(src: Id, dst: Id, term: nat, lastLogIndex: nat, lastLogTerm: nat)
    | VoteReply(src: Id, dst: Id, reqTerm: nat, term: nat, granted: bool)
    | AppendReq(src: Id, dst: Id, term: nat, prevLogIndex: nat, prevLogTerm: nat, entries: seq<Entry>,
        leaderCommit: nat)
    | AppendReply(src: Id, dst: Id, reqTerm: nat, prevIndex: nat, count: nat,
                  term: nat, success: bool, conflictIndex: Option<nat>)
    | SnapReq(src: Id, dst: Id, term: nat, snap: Snapshot)
    | SnapReply(src: Id, dst: Id, reqTerm: nat, index: nat, term: nat, success: bool)

  datatype Out = Out(node: Node, sent: set<Msg>)

  // ---- log helpers ---------------------------------------------------------

  function LastIndex(nd: Node): nat {
    if nd.log != [] then nd.log[|nd.log| - 1].index else nd.snapshotIndex
  }

  function LastTerm(nd: Node): nat {
    if nd.log != [] then nd.log[|nd.log| - 1].term else nd.snapshotTerm
  }

  function Find(log: seq<Entry>, index: nat): Option<Entry> {
    if log == [] then None
    else if log[0].index == index then Some(log[0])
    else Find(log[1..], index)
  }

  /** The term `entryAt` reports, the snapshot standing in for the last entry it covers. */
  function TermAt(nd: Node, index: nat): Option<nat> {
    if index == nd.snapshotIndex then Some(nd.snapshotTerm)
    else match Find(nd.log, index)
      case None => None
      case Some(e) => Some(e.term)
  }

  function LogFrom(log: seq<Entry>, index: nat): seq<Entry> {
    if log == [] then []
    else (if log[0].index >= index then [log[0]] else []) + LogFrom(log[1..], index)
  }

  lemma {:induction false} LogFromPlus(a: seq<Entry>, b: seq<Entry>, index: nat)
    ensures LogFrom(a + b, index) == LogFrom(a, index) + LogFrom(b, index)
  {
    if a == [] {
      assert a + b == b;
    } else {
      LogFromPlus(a[1..], b, index);
      assert (a + b)[1..] == a[1..] + b && (a + b)[0] == a[0];
      var first := if a[0].index >= index then [a[0]] else [];
      hide LogFrom;
      assert first + (LogFrom(a[1..], index) + LogFrom(b, index)) == first + LogFrom(a[1..], index) + LogFrom(b, index);
    }
  }

  /** Filtering again from a later index is filtering once. */
  lemma {:induction false} LogFromTwice(log: seq<Entry>, low: nat, index: nat)
    requires low <= index
    ensures LogFrom(LogFrom(log, low), index) == LogFrom(log, index)
  {
    if log != [] {
      LogFromTwice(log[1..], low, index);
      var rest := LogFrom(log[1..], low);
      if log[0].index >= low {
        assert LogFrom(log, low) == [log[0]] + rest && ([log[0]] + rest)[1..] == rest;
      } else {
        assert LogFrom(log, low) == rest;
      }
    }
  }

  function LogBelow(log: seq<Entry>, index: nat): seq<Entry> {
    if log == [] then []
    else (if log[0].index < index then [log[0]] else []) + LogBelow(log[1..], index)
  }

  /** The smallest index among the entries of `term`, or `bound` when there is none below it. */
  function MinIndexOfTerm(log: seq<Entry>, term: nat, bound: nat): nat {
    if log == [] then bound
    else
      var rest := MinIndexOfTerm(log[1..], term, bound);
      if log[0].term == term && log[0].index < rest then log[0].index else rest
  }

  function Quorum(cfg: Config): nat {
    cfg.size / 2 + 1
  }

  function Members(size: nat): set<Id> {
    if size == 0 then {} else Members(size - 1) + {size - 1}
  }

  function Peers(cfg: Config, self: Id): set<Id> {
    Members(cfg.size) - {self}
  }

  // ---- the apply loop ------------------------------------------------------

  function TakeSnapshot(nd: Node): Node {
    match TermAt(nd, nd.lastApplied)
    case None => nd
    case Some(t) =>
      nd.(snapshot := Some(Snapshot(nd.lastApplied, t, nd.app)),
          snapshotIndex := nd.lastApplied, snapshotTerm := t,
          log := LogFrom(nd.log, nd.lastApplied + 1))
  }

  function MaybeSnapshot(cfg: Config, nd: Node): Node {
    match cfg.snapshotEvery
    case None => nd
    case Some(every) => if nd.lastApplied - nd.snapshotIndex < every then nd else TakeSnapshot(nd)
  }

  /** Hands one entry to the state machine and settles whoever waited for that index. */
  function Deliver(nd: Node, e: Entry): Node {
    var nd1 := nd.(app := nd.app + [e]);
    if e.index in nd.pending then
      var w := nd.pending[e.index];
      nd1.(pending := nd.pending - {e.index},
           settled := nd.settled + multiset{if w.term == e.term then Resolved(e.index, w, e) else Rejected(e.index, w)})
    else nd1
  }

  function ApplyOne(cfg: Config, nd: Node): Node {
    var nd1 := nd.(lastApplied := nd.lastApplied + 1);
    if nd1.lastApplied == nd1.snapshotIndex then nd1
    else match Find(nd1.log, nd1.lastApplied)
      case None => nd1
      case Some(e) => MaybeSnapshot(cfg, Deliver(nd1, e))
  }

  function ApplyCommitted(cfg: Config, nd: Node): Node
    decreases nd.commitIndex - nd.lastApplied
  {
    if nd.lastApplied < nd.commitIndex then ApplyCommitted(cfg, ApplyOne(cfg, nd)) else nd
  }

  /** Applying changes nothing of a node's standing. */
  lemma {:induction false} ApplyStands(cfg: Config, nd: Node)
    ensures var nd' := ApplyCommitted(cfg, nd);
            && nd'.id == nd.id && nd'.role == nd.role && nd'.currentTerm == nd.currentTerm
            && nd'.commitIndex == nd.commitIndex && nd'.matchIndex == nd.matchIndex
    decreases nd.commitIndex - nd.lastApplied
  {
    if nd.lastApplied < nd.commitIndex { ApplyStands(cfg, ApplyOne(cfg, nd)); }
  }

  // ---- elections -----------------------------------------------------------

  function Rejections(pending: map<nat, Waiter>): multiset<Settle> {
    multiset(set i | i in pending :: Rejected(i, pending[i]))
  }

  function BecomeFollower(nd: Node, term: nat): Node {
    var nd1 :=
      if nd.role != Follower
      then nd.(role := Follower, pending := map[], settled := nd.settled + Rejections(nd.pending))
      else nd;
    if term > nd1.currentTerm then nd1.(currentTerm := term, votedFor := None) else nd1
  }

  /** The part of an election that is durable before anything is sent. */
  function Stand(nd: Node): Node {
    nd.(role := Candidate, currentTerm := nd.currentTerm + 1, votedFor := Some(nd.id),
        leaderId := None, granted := {nd.id})
  }

  function StartElection(cfg: Config, nd: Node): Out {
    var nd1 := Stand(nd);
    if 1 >= Quorum(cfg) then BecomeLeader(cfg, nd1)
    else Out(nd1, set p | p in Peers(cfg, nd.id) ::
               VoteReq(nd.id, p, nd1.currentTerm, LastIndex(nd1), LastTerm(nd1)))
  }

  predicate UpToDate(nd: Node, lastLogIndex: nat, lastLogTerm: nat) {
    lastLogTerm > LastTerm(nd) || (lastLogTerm == LastTerm(nd) && lastLogIndex >= LastIndex(nd))
  }

  function HandleVote(nd: Node, m: Msg): Out
    requires m.VoteReq?
  {
    var nd1 := if m.term > nd.currentTerm then BecomeFollower(nd, m.term) else nd;
    var granted := m.term >= nd1.currentTerm && (nd1.votedFor == None || nd1.votedFor == Some(m.src))
                   && UpToDate(nd1, m.lastLogIndex, m.lastLogTerm);
    var nd2 := if granted then nd1.(votedFor := Some(m.src)) else nd1;
    Out(nd2, {VoteReply(nd.id, m.src, m.term, nd2.currentTerm, granted)})
  }

  function OnVoteReply(cfg: Config, nd: Node, m: Msg): Out
    requires m.VoteReply?
  {
    if nd.role != Candidate || nd.currentTerm != m.reqTerm then Out(nd, {})
    else if m.term > nd.currentTerm then Out(BecomeFollower(nd, m.term), {})
    else if m.granted then
      var nd1 := nd.(granted := nd.granted + {m.src});
      if |nd1.granted| >= Quorum(cfg) then BecomeLeader(cfg, nd1) else Out(nd1, {})
    else Out(nd, {})
  }

  /** The same index for every peer. */
  function Each(peers: set<Id>, n: nat): map<Id, nat> {
    map p | p in peers :: n
  }

  /** Leadership without the entry that announces it. */
  function Lead(cfg: Config, nd: Node): Node {
    nd.(role := Leader, leaderId := Some(nd.id),
        nextIndex := Each(Peers(cfg, nd.id), LastIndex(nd) + 1),
        matchIndex := Each(Peers(cfg, nd.id), 0))
  }

  function BecomeLeader(cfg: Config, nd: Node): Out {
    if nd.role == Leader then Out(nd, {})
    else
      var out1 := AppendLocal(cfg, Lead(cfg, nd), Noop);
      var out2 := Replicate(cfg, out1.node);
      Out(out2.node, out1.sent + out2.sent)
  }

  // ---- replication ---------------------------------------------------------

  /** The log and the waiter after a leader appended one command of its own. */
  function Append(nd: Node, cmd: Command): Node {
    var e := Entry(nd.currentTerm, LastIndex(nd) + 1, cmd);
    nd.(log := nd.log + [e], pending := nd.pending[e.index := Waiter(e.term, cmd)])
  }

  function AppendLocal(cfg: Config, nd: Node, cmd: Command): Out {
    var nd1 := Append(nd, cmd);
    if Quorum(cfg) == 1 then Out(ApplyCommitted(cfg, nd1.(commitIndex := LastIndex(nd) + 1)), {})
    else Replicate(cfg, nd1)
  }

  function Propose(cfg: Config, nd: Node, cmd: Command): Out {
    if nd.role != Leader then Out(nd, {}) else AppendLocal(cfg, nd, cmd)
  }

  function NextFor(nd: Node, p: Id): nat {
    if p in nd.nextIndex then nd.nextIndex[p] else LastIndex(nd) + 1
  }

  /** True when the entries the peer needs are gone, or were never there. */
  predicate NeedsSnapshot(nd: Node, p: Id) {
    var prev := NextFor(nd, p) - 1;
    prev < nd.snapshotIndex || (prev != 0 && TermAt(nd, prev) == None)
  }

  function AppendFor(nd: Node, p: Id): Msg
    requires !NeedsSnapshot(nd, p)
  {
    var prev := NextFor(nd, p) - 1;
    AppendReq(nd.id, p, nd.currentTerm, prev,
              if prev == 0 then 0 else TermAt(nd, prev).value,
              LogFrom(nd.log, NextFor(nd, p)), nd.commitIndex)
  }

  function Replicate(cfg: Config, nd: Node): Out {
    if nd.role != Leader then Out(nd, {})
    else
      var behind := set p | p in Peers(cfg, nd.id) && NeedsSnapshot(nd, p);
      var appends := set p | p in Peers(cfg, nd.id) && !NeedsSnapshot(nd, p) :: AppendFor(nd, p);
      match nd.snapshot
      case None => Out(nd.(nextIndex := nd.nextIndex + map p | p in behind :: 1), appends)
      case Some(s) => Out(nd, appends + set p | p in behind :: SnapReq(nd.id, p, nd.currentTerm, s))
  }

  function Holders(nd: Node, n: nat): set<Id> {
    set p | p in nd.matchIndex && nd.matchIndex[p] >= n
  }

  function Replicas(nd: Node, n: nat): nat {
    1 + |Holders(nd, n)|
  }

  /** The downward scan of `advanceCommit`: the newest index at most `n` that may be committed. */
  function Committable(cfg: Config, nd: Node, n: nat): Option<nat> {
    if n <= nd.commitIndex then None
    else if TermAt(nd, n) == Some(nd.currentTerm) && Replicas(nd, n) >= Quorum(cfg) then Some(n)
    else Committable(cfg, nd, n - 1)
  }

  function AdvanceCommit(cfg: Config, nd: Node): Node {
    match Committable(cfg, nd, LastIndex(nd))
    case None => nd
    case Some(n) => ApplyCommitted(cfg, nd.(commitIndex := n))
  }

  function Max(a: nat, b: nat): nat { if a >= b then a else b }

  function Min(a: nat, b: nat): nat { if a <= b then a else b }

  /** A leader that takes a success at its word. */
  function Believing(nd: Node, m: Msg): Node
    requires m.AppendReply?
  {
    var reached := m.prevIndex + m.count;
    var known := if m.src in nd.matchIndex then nd.matchIndex[m.src] else 0;
    nd.(matchIndex := nd.matchIndex[m.src := Max(known, reached)], nextIndex := nd.nextIndex[m.src := reached + 1])
  }

  /** The callback checks the role, but not the term of the request it answers. */
  function OnAppendReply(cfg: Config, nd: Node, m: Msg): Node
    requires m.AppendReply?
  {
    if nd.role != Leader then nd
    else if m.term > nd.currentTerm then BecomeFollower(nd, m.term)
    else if m.success then AdvanceCommit(cfg, Believing(nd, m))
    else
      var next := match m.conflictIndex case None => m.prevIndex case Some(c) => c;
      nd.(nextIndex := nd.nextIndex[m.src := Max(1, next)])
  }

  function OnSnapReply(nd: Node, m: Msg): Node
    requires m.SnapReply?
  {
    if nd.role != Leader then nd
    else if m.term > nd.currentTerm then BecomeFollower(nd, m.term)
    else nd.(matchIndex := nd.matchIndex[m.src := m.index], nextIndex := nd.nextIndex[m.src := m.index + 1])
  }

  /** The first received entry this node lacks or holds in another term. */
  function Diverges(nd: Node, entries: seq<Entry>): Option<nat> {
    if entries == [] then None
    else if TermAt(nd, entries[0].index) != Some(entries[0].term) then Some(entries[0].index)
    else Diverges(nd, entries[1..])
  }

  /** Truncates only where the logs really diverge. */
  function Merge(nd: Node, entries: seq<Entry>): Node {
    match Diverges(nd, entries)
    case None => nd
    case Some(d) => nd.(log := LogBelow(nd.log, d) + LogFrom(entries, d))
  }

  predicate PrevMatches(nd: Node, m: Msg)
    requires m.AppendReq?
  {
    m.prevLogIndex == 0 || m.prevLogIndex == nd.snapshotIndex || TermAt(nd, m.prevLogIndex) == Some(m.prevLogTerm)
  }

  function ConflictIndex(nd: Node, prevLogIndex: nat): nat {
    match TermAt(nd, prevLogIndex)
    case None => LastIndex(nd) + 1
    case Some(t) => Max(1, MinIndexOfTerm(nd.log, t, prevLogIndex))
  }

  function LearnCommit(cfg: Config, nd: Node, leaderCommit: nat): Node {
    if leaderCommit > nd.commitIndex
    then ApplyCommitted(cfg, nd.(commitIndex := Min(leaderCommit, LastIndex(nd))))
    else nd
  }

  function AppendAnswer(nd: Node, m: Msg, success: bool, conflict: Option<nat>): Msg
    requires m.AppendReq?
  {
    AppendReply(nd.id, m.src, m.term, m.prevLogIndex, |m.entries|, nd.currentTerm, success, conflict)
  }

  /** Stepping down for a leader of this or a newer term. */
  function Heed(nd: Node, m: Msg): Node
    requires m.AppendReq?
  {
    (if m.term > nd.currentTerm || nd.role != Follower then BecomeFollower(nd, m.term) else nd)
      .(leaderId := Some(m.src))
  }

  function HandleAppend(cfg: Config, nd: Node, m: Msg): Out
    requires m.AppendReq?
  {
    if m.term < nd.currentTerm then Out(nd, {AppendAnswer(nd, m, false, None)})
    else
      var nd1 := Heed(nd, m);
      if !PrevMatches(nd1, m) then Out(nd1, {AppendAnswer(nd1, m, false, Some(ConflictIndex(nd1, m.prevLogIndex)))})
      else
        var nd2 := LearnCommit(cfg, Merge(nd1, m.entries), m.leaderCommit);
        Out(nd2, {AppendAnswer(nd2, m, true, None)})
  }

  function Install(nd: Node, s: Snapshot): Node {
    nd.(snapshot := Some(s), snapshotIndex := s.index, snapshotTerm := s.term,
        commitIndex := s.index, lastApplied := s.index,
        log := LogFrom(nd.log, s.index + 1), app := s.state)
  }

  function HandleSnapshot(nd: Node, m: Msg): Out
    requires m.SnapReq?
  {
    if m.term < nd.currentTerm then
      Out(nd, {SnapReply(nd.id, m.src, m.term, m.snap.index, nd.currentTerm, false)})
    else
      var nd1 := Install(BecomeFollower(nd, m.term).(leaderId := Some(m.src)), m.snap);
      Out(nd1, {SnapReply(nd.id, m.src, m.term, m.snap.index, nd1.currentTerm, true)})
  }

  // ---- lifecycle -----------------------------------------------------------

  function Fresh(id: Id): Node {
    Node(id, 0, None, [], None, 0, 0, 0, 0, Follower, None, {}, map[], map[], map[], multiset{}, [])
  }

  /** What a process finds on disk: term, vote, log and snapshot; everything else starts over. */
  function Restart(nd: Node): Node {
    match nd.snapshot
    case None => Fresh(nd.id).(currentTerm := nd.currentTerm, votedFor := nd.votedFor, log := LogFrom(nd.log, 1))
    case Some(s) =>
      Fresh(nd.id).(currentTerm := nd.currentTerm, votedFor := nd.votedFor, snapshot := Some(s),
                    snapshotIndex := s.index, snapshotTerm := s.term,
                    commitIndex := s.index, lastApplied := s.index, app := s.state,
                    log := LogFrom(nd.log, s.index + 1))
  }

  // ---- dying inside a handler ----------------------------------------------

  /** The snapshot is on disk and the log is not cut yet. */
  function SaveOnly(nd: Node): Node {
    match TermAt(nd, nd.lastApplied)
    case None => nd
    case Some(t) => nd.(snapshot := Some(Snapshot(nd.lastApplied, t, nd.app)))
  }

  /** At most `n` rounds of the apply loop. */
  function ApplySome(cfg: Config, nd: Node, n: nat): Node
    decreases n
  {
    if n == 0 || nd.lastApplied >= nd.commitIndex then nd else ApplySome(cfg, ApplyOne(cfg, nd), n - 1)
  }

  predicate SnapshotDue(cfg: Config, nd: Node) {
    cfg.snapshotEvery.Some? && nd.lastApplied - nd.snapshotIndex >= cfg.snapshotEvery.value
    && TermAt(nd, nd.lastApplied).Some?
  }

  /** In the middle of the next round: the entry handed over, its snapshot saved if one is due, the log not cut. */
  function MidRound(cfg: Config, nd: Node): Node {
    var nd1 := nd.(lastApplied := nd.lastApplied + 1);
    if nd.lastApplied >= nd.commitIndex then nd
    else if nd1.lastApplied == nd1.snapshotIndex then nd1
    else match Find(nd1.log, nd1.lastApplied)
      case None => nd1
      case Some(e) => var nd2 := Deliver(nd1, e); if SnapshotDue(cfg, nd2) then SaveOnly(nd2) else nd2
  }

  /** Where the apply loop begins that a replication message leads to, the log being on disk by then. */
  function LoopStart(cfg: Config, nd: Node, m: Msg): Node {
    match m
    case AppendReq(_, _, term, _, _, entries, leaderCommit) =>
      if term < nd.currentTerm then nd
      else
        var nd1 := Heed(nd, m);
        if !PrevMatches(nd1, m) then nd1
        else
          var nd2 := Merge(nd1, entries);
          if leaderCommit > nd2.commitIndex then nd2.(commitIndex := Min(leaderCommit, LastIndex(nd2))) else nd2
    case AppendReply(_, _, _, _, _, term, success, _) =>
      if nd.role != Leader || term > nd.currentTerm || !success then nd
      else (match Committable(cfg, Believing(nd, m), LastIndex(nd))
            case None => nd
            case Some(n) => Believing(nd, m).(commitIndex := n))
    case _ => nd
  }

  /** What the disk holds after `n` rounds of a loop, and perhaps the snapshot of the next one. */
  function DiesAfter(cfg: Config, start: Node, n: nat, saved: bool): Node {
    var nd1 := ApplySome(cfg, start, n);
    if saved then MidRound(cfg, nd1) else nd1
  }

  /** A received snapshot is on disk and the log is not cut yet. */
  function DiesInstalling(nd: Node, m: Msg): Node
    requires m.SnapReq?
  {
    if m.term < nd.currentTerm then nd else BecomeFollower(nd, m.term).(snapshot := Some(m.snap))
  }

  /** A crash between saving a snapshot and cutting the log leaves what the cut would have left. */
  lemma SavedRestarts(cfg: Config, nd: Node)
    requires nd.lastApplied < nd.commitIndex
    ensures Restart(MidRound(cfg, nd)) == Restart(ApplyOne(cfg, nd))
  {
    hide Find, TermAt, Deliver, LogFrom, Restart;
    var nd1 := nd.(lastApplied := nd.lastApplied + 1);
    match Find(nd1.log, nd1.lastApplied) {
      case None =>
      case Some(e) => CutRestarts(Deliver(nd1, e));
    }
  }

  lemma CutRestarts(nd: Node)
    ensures Restart(SaveOnly(nd)) == Restart(TakeSnapshot(nd))
  {
    hide TermAt;
    LogFromTwice(nd.log, nd.lastApplied + 1, nd.lastApplied + 1);
  }

  lemma InstalledRestarts(nd: Node, m: Msg)
    requires m.SnapReq?
    ensures Restart(DiesInstalling(nd, m)) == Restart(HandleSnapshot(nd, m).node)
  {
    LogFromTwice(nd.log, m.snap.index + 1, m.snap.index + 1);
  }
}
