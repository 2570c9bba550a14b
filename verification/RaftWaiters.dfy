/** Callers that wait for a proposal: each is answered at most once, and never with another's result. */
module RaftWaiters {
  import opened Wrappers
  import opened Commands
  import opened RaftNode
  import opened RaftView
  import opened RaftCluster
  import opened RaftInv
  import opened RaftReplication
  import opened RaftHandlers
  import opened RaftSafety

  /** The whole log of a node: what its snapshot covers, then what it still has. */
  function Whole(nd: Node): seq<Entry> {
    (match nd.snapshot case None => [] case Some(s) => s.state) + nd.log
  }

  lemma WholeIsFull(nd: Node, f: seq<Entry>)
    requires View(nd, f)
    ensures Whole(nd) == f
  {
    assert f == f[..nd.snapshotIndex] + f[nd.snapshotIndex..];
  }

  ghost predicate WaitsFor(nd: Node, index: nat, w: Waiter) {
    && nd.role.Leader? && w.term == nd.currentTerm
    && nd.lastApplied < index <= |Whole(nd)| && Whole(nd)[index - 1] == Entry(w.term, index, w.cmd)
  }

  ghost predicate PendingOk(nd: Node) {
    forall index | index in nd.pending :: WaitsFor(nd, index, nd.pending[index])
  }

  /** Settled in an earlier term, or in this term and then neither still waiting nor still to come. */
  ghost predicate Closed(nd: Node, s: Settle) {
    && s.waiter.term <= nd.currentTerm
    && (nd.role.Candidate? ==> s.waiter.term < nd.currentTerm)
    && (nd.role.Leader? && s.waiter.term == nd.currentTerm ==> s.index <= |Whole(nd)| && s.index !in nd.pending)
    && (s.Resolved? ==> s.entry == Entry(s.waiter.term, s.index, s.waiter.cmd))
  }

  ghost predicate SettledOk(nd: Node) {
    && (forall s | s in nd.settled :: Closed(nd, s) && nd.settled[s] == 1)
    && (forall s, s' | s in nd.settled && s' in nd.settled && s.index == s'.index
        && s.waiter.term == s'.waiter.term :: s == s')
  }

  ghost predicate WaitersOk(nd: Node) {
    PendingOk(nd) && SettledOk(nd)
  }

  // ---- small changes -------------------------------------------------------

  lemma RejectionsOf(pending: map<nat, Waiter>, s: Settle)
    ensures s in Rejections(pending) <==> s.Rejected? && s.index in pending && pending[s.index] == s.waiter
    ensures Rejections(pending)[s] <= 1
  {
    var all := set i | i in pending :: Rejected(i, pending[i]);
    assert multiset(all)[s] <= 1;
  }

  lemma OnlyLeadersWait(nd: Node)
    requires PendingOk(nd) && !nd.role.Leader?
    ensures nd.pending == map[]
  {
    assert nd.pending.Keys == {};
  }

  lemma FollowWaits(nd: Node, term: nat)
    requires WaitersOk(nd)
    ensures WaitersOk(BecomeFollower(nd, term)) && BecomeFollower(nd, term).pending == map[]
  {
    var nd' := BecomeFollower(nd, term);
    if nd.role == Follower { OnlyLeadersWait(nd); }
    forall s { RejectionsOf(nd.pending, s); }
    forall s, s' | s in nd.settled && s' in Rejections(nd.pending)
      ensures s.index != s'.index || s.waiter.term != s'.waiter.term
    {
      assert WaitsFor(nd, s'.index, nd.pending[s'.index]) && Closed(nd, s);
    }
    forall s | s in nd'.settled ensures Closed(nd', s) && nd'.settled[s] == 1 {
      if s in nd.settled {
        assert Closed(nd, s);
      } else {
        assert WaitsFor(nd, s.index, nd.pending[s.index]);
      }
    }
  }

  lemma DeliverWaits(nd: Node, e: Entry)
    requires WaitersOk(nd) && View(nd, Whole(nd)) && nd.lastApplied < nd.commitIndex
    requires e == Whole(nd)[nd.lastApplied]
    ensures WaitersOk(Deliver(nd.(lastApplied := nd.lastApplied + 1), e))
  {
    hide SettledOk, Closed, Deliver;
    var nd' := Deliver(nd.(lastApplied := nd.lastApplied + 1), e);
    OthersWait(nd, nd', e);
    if e.index in nd.pending {
      assert WaitsFor(nd, e.index, nd.pending[e.index]);
      SettleOne(nd, nd', e);
    } else {
      SettleNone(nd, nd', e);
    }
  }

  lemma OthersWait(nd: Node, nd': Node, e: Entry)
    requires PendingOk(nd) && e.index == nd.lastApplied + 1
    requires nd' == Deliver(nd.(lastApplied := nd.lastApplied + 1), e)
    ensures PendingOk(nd')
  {
    forall index | index in nd'.pending ensures WaitsFor(nd', index, nd'.pending[index]) {
      assert WaitsFor(nd, index, nd.pending[index]);
    }
  }

  lemma SettleNone(nd: Node, nd': Node, e: Entry)
    requires SettledOk(nd) && e.index !in nd.pending
    requires nd' == Deliver(nd.(lastApplied := nd.lastApplied + 1), e)
    ensures SettledOk(nd')
  {
    forall s | s in nd'.settled ensures Closed(nd', s) && nd'.settled[s] == 1 { assert Closed(nd, s); }
  }

  /** The waiter just settled was not settled before. */
  lemma SettleOne(nd: Node, nd': Node, e: Entry)
    requires SettledOk(nd) && e.index in nd.pending && WaitsFor(nd, e.index, nd.pending[e.index])
             && e == Whole(nd)[e.index - 1]
    requires nd' == Deliver(nd.(lastApplied := nd.lastApplied + 1), e)
    ensures SettledOk(nd')
  {
    forall s | s in nd.settled ensures Closed(nd', s) && (s.index != e.index || s.waiter.term != nd.currentTerm) {
      assert Closed(nd, s);
    }
    assert nd.pending[e.index].term == e.term;
    var just := Resolved(e.index, nd.pending[e.index], e);
    assert nd'.settled == nd.settled + multiset{just};
    assert Closed(nd', just) && just !in nd.settled;
  }

  /** Nothing a waiter depends on differs. */
  ghost predicate SameWaits(nd: Node, nd': Node) {
    && nd'.role == nd.role && nd'.currentTerm == nd.currentTerm && nd'.lastApplied == nd.lastApplied
    && nd'.pending == nd.pending && nd'.settled == nd.settled && Whole(nd') == Whole(nd)
  }

  lemma SameWaitsOk(nd: Node, nd': Node)
    requires WaitersOk(nd) && SameWaits(nd, nd')
    ensures WaitersOk(nd')
  {
    forall index | index in nd'.pending ensures WaitsFor(nd', index, nd'.pending[index]) {
      assert WaitsFor(nd, index, nd.pending[index]);
    }
    forall s | s in nd'.settled ensures Closed(nd', s) && nd'.settled[s] == 1 {
      assert Closed(nd, s);
    }
  }

  lemma SnapshotSame(cfg: Config, nd: Node, f: seq<Entry>)
    requires View(nd, f) && nd.lastApplied > 0
    ensures SameWaits(nd, MaybeSnapshot(cfg, nd))
  {
    WholeIsFull(nd, f);
    TakeSnapshotView(nd, f);
    WholeIsFull(TakeSnapshot(nd), f);
    assert Core(TakeSnapshot(nd)).role == Core(nd).role && Core(TakeSnapshot(nd)).currentTerm == Core(nd).currentTerm;
  }

  lemma ApplyOneWaits(cfg: Config, nd: Node, f: seq<Entry>)
    requires WaitersOk(nd) && View(nd, f) && nd.lastApplied < nd.commitIndex
    ensures WaitersOk(ApplyOne(cfg, nd))
  {
    WholeIsFull(nd, f);
    ApplyOneDelivers(cfg, nd, f);
    DeliverView(nd, f);
    DeliverWaits(nd, f[nd.lastApplied]);
    var nd1 := Deliver(nd.(lastApplied := nd.lastApplied + 1), f[nd.lastApplied]);
    SnapshotSame(cfg, nd1, f);
    SameWaitsOk(nd1, MaybeSnapshot(cfg, nd1));
  }

  lemma {:induction false} ApplyWaits(cfg: Config, nd: Node, f: seq<Entry>)
    requires WaitersOk(nd) && View(nd, f)
    ensures WaitersOk(ApplyCommitted(cfg, nd))
    decreases nd.commitIndex - nd.lastApplied
  {
    if nd.lastApplied < nd.commitIndex {
      ApplyOneWaits(cfg, nd, f);
      ApplyOneView(cfg, nd, f);
      assert Core(ApplyOne(cfg, nd)).commitIndex == Core(nd).commitIndex;
      ApplyWaits(cfg, ApplyOne(cfg, nd), f);
    }
  }

  lemma AppendWaits(nd: Node, cmd: Command)
    requires WaitersOk(nd) && View(nd, Whole(nd)) && nd.role.Leader?
    ensures WaitersOk(Append(nd, cmd))
            && Whole(Append(nd, cmd)) == Whole(nd) + [Entry(nd.currentTerm, |Whole(nd)| + 1, cmd)]
  {
    LastView(nd, Whole(nd));
    hide View;
    var nd' := Append(nd, cmd);
    var e := Entry(nd.currentTerm, |Whole(nd)| + 1, cmd);
    assert Whole(nd') == Whole(nd) + [e];
    forall index | index in nd'.pending ensures WaitsFor(nd', index, nd'.pending[index]) {
      if index != e.index { assert WaitsFor(nd, index, nd.pending[index]); }
    }
    forall s | s in nd'.settled ensures Closed(nd', s) && nd'.settled[s] == 1 {
      assert Closed(nd, s);
    }
  }

  /** A node nobody waits on, whose role or log may change freely as long as it does not lead. */
  lemma IdleWaits(nd: Node, nd': Node)
    requires WaitersOk(nd) && nd.pending == map[] && nd'.pending == map[] && nd'.settled == nd.settled
    requires (nd'.role.Follower? && nd'.currentTerm == nd.currentTerm)
             || (nd'.role.Candidate? && nd'.currentTerm > nd.currentTerm)
             || (nd.role.Candidate? && nd'.role.Leader? && nd'.currentTerm == nd.currentTerm)
    ensures WaitersOk(nd')
  {
    forall s | s in nd'.settled ensures Closed(nd', s) && nd'.settled[s] == 1 {
      assert Closed(nd, s);
    }
  }

  // ---- handlers ------------------------------------------------------------

  lemma ReplicateWaits(cfg: Config, nd: Node)
    requires WaitersOk(nd)
    ensures WaitersOk(Replicate(cfg, nd).node)
  {
    SameWaitsOk(nd, Replicate(cfg, nd).node);
  }

  lemma AppendLocalWaits(cfg: Config, nd: Node, cmd: Command)
    requires WaitersOk(nd) && View(nd, Whole(nd)) && nd.role.Leader? && nd.currentTerm > 0
    ensures WaitersOk(AppendLocal(cfg, nd, cmd).node)
  {
    hide WaitersOk, View, ApplyCommitted, Append, Whole, LastIndex, Replicate, AppendFor, NeedsSnapshot;
    var nd1 := Append(nd, cmd);
    AppendWaits(nd, cmd);
    if Quorum(cfg) == 1 { SoloWaits(cfg, nd, cmd); } else { ReplicateWaits(cfg, nd1); }
  }

  /** A node alone commits and applies what it has just appended. */
  lemma SoloWaits(cfg: Config, nd: Node, cmd: Command)
    requires WaitersOk(Append(nd, cmd)) && View(nd, Whole(nd)) && nd.currentTerm > 0
    ensures WaitersOk(ApplyCommitted(cfg, Append(nd, cmd).(commitIndex := LastIndex(nd) + 1)))
  {
    var nd1 := Append(nd, cmd);
    AppendView(nd, Whole(nd), cmd);
    LastView(nd, Whole(nd));
    var nd2 := nd1.(commitIndex := LastIndex(nd) + 1);
    SameWaitsOk(nd1, nd2);
    ApplyWaits(cfg, nd2, Whole(nd1));
  }

  lemma LeadWaits(cfg: Config, nd: Node)
    requires WaitersOk(nd) && View(nd, Whole(nd)) && nd.role.Candidate? && nd.currentTerm > 0
    ensures WaitersOk(BecomeLeader(cfg, nd).node)
  {
    OnlyLeadersWait(nd);
    IdleWaits(nd, Lead(cfg, nd));
    AppendLocalWaits(cfg, Lead(cfg, nd), Noop);
    ReplicateWaits(cfg, AppendLocal(cfg, Lead(cfg, nd), Noop).node);
  }

  lemma StartElectionWaits(cfg: Config, nd: Node)
    requires WaitersOk(nd) && View(nd, Whole(nd)) && !nd.role.Leader?
    ensures WaitersOk(StartElection(cfg, nd).node)
  {
    OnlyLeadersWait(nd);
    IdleWaits(nd, Stand(nd));
    if 1 >= Quorum(cfg) { LeadWaits(cfg, Stand(nd)); }
  }

  lemma VoteWaits(nd: Node, m: Msg)
    requires WaitersOk(nd) && m.VoteReq?
    ensures WaitersOk(HandleVote(nd, m).node)
  {
    var nd1 := if m.term > nd.currentTerm then BecomeFollower(nd, m.term) else nd;
    FollowWaits(nd, m.term);
    SameWaitsOk(nd1, HandleVote(nd, m).node);
  }

  lemma VoteReplyWaits(cfg: Config, nd: Node, m: Msg)
    requires WaitersOk(nd) && View(nd, Whole(nd)) && m.VoteReply? && nd.currentTerm > 0
    ensures WaitersOk(OnVoteReply(cfg, nd, m).node)
  {
    FollowWaits(nd, m.term);
    var nd1 := nd.(granted := nd.granted + {m.src});
    SameWaitsOk(nd, nd1);
    if nd.role.Candidate? { LeadWaits(cfg, nd1); }
  }

  lemma AdvanceWaits(cfg: Config, nd: Node)
    requires WaitersOk(nd) && View(nd, Whole(nd))
    ensures WaitersOk(AdvanceCommit(cfg, nd))
  {
    CommittableIs(cfg, nd, LastIndex(nd));
    LastView(nd, Whole(nd));
    match Committable(cfg, nd, LastIndex(nd)) {
      case None =>
      case Some(n) =>
        SameWaitsOk(nd, nd.(commitIndex := n));
        ApplyWaits(cfg, nd.(commitIndex := n), Whole(nd));
    }
  }

  lemma AppendReplyWaits(cfg: Config, nd: Node, m: Msg)
    requires WaitersOk(nd) && View(nd, Whole(nd)) && m.AppendReply?
    ensures WaitersOk(OnAppendReply(cfg, nd, m))
  {
    hide AdvanceCommit, WaitersOk;
    FollowWaits(nd, m.term);
    if nd.role.Leader? && m.term <= nd.currentTerm && m.success {
      var k := m.prevIndex + m.count;
      var known := if m.src in nd.matchIndex then nd.matchIndex[m.src] else 0;
      var nd1 := nd.(matchIndex := nd.matchIndex[m.src := Max(known, k)], nextIndex := nd.nextIndex[m.src := k + 1]);
      SameWaitsOk(nd, nd1);
      AdvanceWaits(cfg, nd1);
    } else if nd.role.Leader? && m.term <= nd.currentTerm {
      SameWaitsOk(nd, OnAppendReply(cfg, nd, m));
    }
  }

  lemma SnapReplyWaits(nd: Node, m: Msg)
    requires WaitersOk(nd) && m.SnapReply?
    ensures WaitersOk(OnSnapReply(nd, m))
  {
    FollowWaits(nd, m.term);
    if nd.role.Leader? && m.term <= nd.currentTerm { SameWaitsOk(nd, OnSnapReply(nd, m)); }
  }

  /** A node that is told anything by a leader waits for nothing afterwards. */
  lemma {:induction false} FollowerApplies(cfg: Config, nd: Node)
    requires WaitersOk(nd) && nd.role.Follower?
    ensures WaitersOk(ApplyCommitted(cfg, nd))
    decreases nd.commitIndex - nd.lastApplied
  {
    OnlyLeadersWait(nd);
    if nd.lastApplied < nd.commitIndex {
      IdleWaits(nd, ApplyOne(cfg, nd));
      FollowerApplies(cfg, ApplyOne(cfg, nd));
    }
  }

  lemma AppendReqWaits(cfg: Config, nd: Node, m: Msg)
    requires WaitersOk(nd) && m.AppendReq?
    ensures WaitersOk(HandleAppend(cfg, nd, m).node)
  {
    hide ApplyCommitted, SettledOk, Find, Closed;
    if m.term >= nd.currentTerm {
      FollowWaits(nd, m.term);
      var nd1 := Heed(nd, m);
      if nd.role.Follower? { OnlyLeadersWait(nd); }
      IdleWaits(if m.term > nd.currentTerm || nd.role != Follower then BecomeFollower(nd, m.term) else nd, nd1);
      if PrevMatches(nd1, m) {
        var nd2 := Merge(nd1, m.entries);
        IdleWaits(nd1, nd2);
        if m.leaderCommit > nd2.commitIndex {
          var nd3 := nd2.(commitIndex := Min(m.leaderCommit, LastIndex(nd2)));
          IdleWaits(nd2, nd3);
          FollowerApplies(cfg, nd3);
        }
      }
    }
  }

  lemma SnapReqWaits(nd: Node, m: Msg)
    requires WaitersOk(nd) && m.SnapReq?
    ensures WaitersOk(HandleSnapshot(nd, m).node)
  {
    FollowWaits(nd, m.term);
    if m.term >= nd.currentTerm {
      IdleWaits(BecomeFollower(nd, m.term), HandleSnapshot(nd, m).node);
    }
  }

  lemma RestartWaits(nd: Node)
    ensures WaitersOk(Restart(nd))
  {
  }

  // ---- every run -----------------------------------------------------------

  lemma ActWaits(cfg: Config, nd: Node, step: Step)
    requires WaitersOk(nd) && View(nd, Whole(nd))
    requires step.Timeout? ==> !nd.role.Leader?
    requires nd.role.Follower? || nd.currentTerm > 0
    ensures WaitersOk(Act(cfg, nd, step).node)
  {
    match step {
      case Timeout(_) => StartElectionWaits(cfg, nd);
      case Propose(_, cmd) => if nd.role.Leader? { AppendLocalWaits(cfg, nd, cmd); }
      case Heartbeat(_) => ReplicateWaits(cfg, nd);
      case Crash(_) => RestartWaits(nd);
      case CrashStanding(_) => RestartWaits(Stand(nd));
      case CrashHeeding(m) => RestartWaits(BecomeFollower(nd, m.term));
      case CrashApplying(m, n, saved) => RestartWaits(DiesAfter(cfg, LoopStart(cfg, nd, m), n, saved));
      case CrashInstalling(m) => RestartWaits(if m.SnapReq? then DiesInstalling(nd, m) else nd);
      case Receive(m) =>
        match m {
          case VoteReq(_, _, _, _, _) => VoteWaits(nd, m);
          case VoteReply(_, _, _, _, _) => if nd.role.Candidate? { VoteReplyWaits(cfg, nd, m); }
          case AppendReq(_, _, _, _, _, _, _) => AppendReqWaits(cfg, nd, m);
          case AppendReply(_, _, _, _, _, _, _, _) => AppendReplyWaits(cfg, nd, m);
          case SnapReq(_, _, _, _) => SnapReqWaits(nd, m);
          case SnapReply(_, _, _, _, _, _) => SnapReplyWaits(nd, m);
        }
    }
  }

  lemma InvActs(cfg: Config, c: Cluster, h: Hist, i: Id)
    requires Inv(cfg, c, h) && i < cfg.size
    ensures View(c.nodes[i], Whole(c.nodes[i]))
    ensures c.nodes[i].role.Follower? || c.nodes[i].currentTerm > 0
  {
    var nd := c.nodes[i];
    assert NodeOk(cfg, h, i, nd);
    WholeIsFull(nd, h.full[i]);
    if nd.role.Leader? {
      assert ReignOk(cfg, h, nd.currentTerm);
    } else if nd.role.Candidate? {
      assert BallotOk(cfg, h, nd.currentTerm, i);
    }
  }

  lemma WaitersStep(cfg: Config, c: Cluster, h: Hist, c': Cluster, i: Id)
    requires Inv(cfg, c, h) && Next(cfg, c, c') && i < cfg.size && WaitersOk(c.nodes[i])
    ensures i < |c'.nodes| && WaitersOk(c'.nodes[i])
  {
    InvActs(cfg, c, h, i);
    var step :| Enabled(c, step) && Allowed(c, step) && c' == Do(cfg, c, step);
    if Actor(step) == i { ActWaits(cfg, c.nodes[i], step); }
  }

  lemma {:induction false} WaitersAlwaysOk(cfg: Config, run: seq<Cluster>, hs: seq<Hist>, a: nat, i: Id)
    requires Run(cfg, run) && Trace(cfg, run, hs) && a < |run| && i < cfg.size
    ensures i < |run[a].nodes| && WaitersOk(run[a].nodes[i])
  {
    if a > 0 {
      WaitersAlwaysOk(cfg, run, hs, a - 1, i);
      assert StepAt(cfg, run, a - 1);
      WaitersStep(cfg, run[a - 1], hs[a - 1], run[a], i);
    }
  }

  /**
   In every reachable state only a leader has waiters; each waits, in the current term, for the very
   entry it proposed; no promise was settled twice, and one that was resolved got its own entry.
   */
  lemma WaitersGetTheirOwn(cfg: Config, run: seq<Cluster>, a: nat, i: Id, index: nat, s: Settle, s': Settle)
    requires Run(cfg, run) && a < |run| && i < |run[a].nodes|
    ensures var nd := run[a].nodes[i];
            index in nd.pending ==>
              nd.role == Leader && nd.pending[index].term == nd.currentTerm && index > nd.lastApplied
              && Holds(nd, index) == Some(Entry(nd.currentTerm, index, nd.pending[index].cmd))
    ensures var settled := run[a].nodes[i].settled;
            s in settled ==> settled[s] == 1 && (s.Resolved? ==> s.entry == Entry(s.waiter.term, s.index, s.waiter.cmd))
    ensures var settled := run[a].nodes[i].settled;
            s in settled && s' in settled && s.index == s'.index && s.waiter.term == s'.waiter.term ==> s == s'
  {
    var hs := RunOk(cfg, run);
    var nd := run[a].nodes[i];
    assert Inv(cfg, run[a], hs[a]);
    WaitersAlwaysOk(cfg, run, hs, a, i);
    InvActs(cfg, run[a], hs[a], i);
    if index in nd.pending {
      assert WaitsFor(nd, index, nd.pending[index]);
      HoldsView(nd, Whole(nd), index);
    }
    if s in nd.settled { assert Closed(nd, s); }
  }
}
