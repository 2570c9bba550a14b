/** Every handler, taken as a whole, keeps the invariant. */
module RaftHandlers {
  import opened Wrappers
  import opened Commands
  import opened RaftNode
  import opened RaftView
  import opened RaftCluster
  import opened RaftInv
  import opened RaftGrow
  import opened RaftSteps
  import opened RaftReplication

  lemma Sent(cfg: Config, c: Cluster, h: Hist, i: Id, out: Out)
    requires i < |c.nodes| && Inv(cfg, SetNode(c, i, out.node), h)
    requires forall m | m in out.sent :: MsgOk(cfg, h, m)
    ensures Inv(cfg, After(c, i, out), h)
  {
    Send(cfg, SetNode(c, i, out.node), h, out.sent);
    assert SetNode(c, i, out.node).(net := c.net + out.sent) == After(c, i, out);
  }

  // ---- sending -------------------------------------------------------------

  lemma AppendForShape(nd: Node, f: seq<Entry>, p: Id)
    requires View(nd, f) && !NeedsSnapshot(nd, p)
    ensures var m := AppendFor(nd, p);
            && m.prevLogIndex + |m.entries| == |f|
            && m.entries == f[m.prevLogIndex..]
            && m.prevLogTerm == TermOf(f, m.prevLogIndex)
  {
    var prev := NextFor(nd, p) - 1;
    LastView(nd, f);
    TermAtView(nd, f, prev);
    FilterFrom(f, nd.snapshotIndex, prev + 1);
  }

  lemma AppendForOk(cfg: Config, h: Hist, i: Id, nd: Node, p: Id)
    requires NodeOk(cfg, h, i, nd) && nd.role.Leader? && p != i && !NeedsSnapshot(nd, p)
    ensures MsgOk(cfg, h, AppendFor(nd, p))
  {
    AppendForShape(nd, h.full[i], p);
  }

  lemma SnapForOk(cfg: Config, h: Hist, i: Id, nd: Node, p: Id)
    requires NodeOk(cfg, h, i, nd) && nd.role.Leader? && p != i && nd.snapshot.Some?
    ensures MsgOk(cfg, h, SnapReq(i, p, nd.currentTerm, nd.snapshot.value))
  {
    CommittedLess(cfg, h, h.full[i], nd.commitIndex, nd.snapshotIndex, nd.currentTerm, nd.currentTerm);
  }

  lemma ReplicateOk(cfg: Config, c: Cluster, h: Hist, i: Id)
    requires Inv(cfg, c, h) && i < cfg.size
    ensures Inv(cfg, After(c, i, Replicate(cfg, c.nodes[i])), h)
  {
    var nd := c.nodes[i];
    var out := Replicate(cfg, nd);
    assert NodeOk(cfg, h, i, nd);
    assert NodeOk(cfg, h, i, out.node);
    Local(cfg, c, h, i, out.node);
    forall m | m in out.sent ensures MsgOk(cfg, h, m) {
      var p :| p in Peers(cfg, i)
               && if NeedsSnapshot(nd, p)
                  then nd.snapshot.Some? && m == SnapReq(i, p, nd.currentTerm, nd.snapshot.value)
                  else m == AppendFor(nd, p);
      if NeedsSnapshot(nd, p) { SnapForOk(cfg, h, i, nd, p); } else { AppendForOk(cfg, h, i, nd, p); }
    }
    Sent(cfg, c, h, i, out);
  }

  // ---- committing as leader ------------------------------------------------

  /** Enough replicas in the leader's own bookkeeping really is a quorum that holds the entry. */
  lemma CountedAckers(cfg: Config, h: Hist, i: Id, nd: Node, n: nat)
    requires RoleIsLeader(cfg, h, i, nd) && i < cfg.size && 0 < n <= |h.full[i]|
    ensures Holders(nd, n) + {i} <= Ackers(cfg, h, nd.currentTerm, n)
    ensures i !in nd.matchIndex
  {
    MembersAre(cfg.size);
    forall p | p in Holders(nd, n) ensures p in Ackers(cfg, h, nd.currentTerm, n) {
      assert p in Peers(cfg, i);
    }
  }

  lemma CountedQuorum(cfg: Config, h: Hist, i: Id, nd: Node, n: nat)
    requires RoleIsLeader(cfg, h, i, nd) && i < cfg.size
    requires 0 < n <= |h.full[i]| && h.full[i][n - 1].term == nd.currentTerm
    requires Quorum(cfg) == 1 || Replicas(nd, n) >= Quorum(cfg)
    ensures Committed(cfg, h, h.full[i], n, nd.currentTerm)
  {
    var peers := Holders(nd, n);
    CountedAckers(cfg, h, i, nd, n);
    assert |peers + {i}| == |peers| + 1;
    Subset(peers + {i}, Ackers(cfg, h, nd.currentTerm, n));
    assert CommitWitness(cfg, h, h.full[i], n, nd.currentTerm, n);
  }

  ghost predicate RoleIsLeader(cfg: Config, h: Hist, i: Id, nd: Node) {
    i < |h.full| && nd.role.Leader? && RoleOk(cfg, h, i, nd)
  }

  lemma {:induction false} CommittableIs(cfg: Config, nd: Node, n: nat)
    ensures match Committable(cfg, nd, n)
            case None => true
            case Some(k) =>
              nd.commitIndex < k <= n && TermAt(nd, k) == Some(nd.currentTerm) && Replicas(nd, k) >= Quorum(cfg)
  {
    if n > nd.commitIndex { CommittableIs(cfg, nd, n - 1); }
  }

  lemma AdvanceCommitOk(cfg: Config, h: Hist, i: Id, nd: Node)
    requires NodeOk(cfg, h, i, nd) && nd.role.Leader? && i < cfg.size
    ensures NodeOk(cfg, h, i, AdvanceCommit(cfg, nd))
  {
    match Committable(cfg, nd, LastIndex(nd)) {
      case None =>
      case Some(n) =>
        CommittableOk(cfg, h, i, nd);
        CommitOk(cfg, h, i, nd, n);
    }
  }

  /** What the scan finds is committed. */
  lemma CommittableOk(cfg: Config, h: Hist, i: Id, nd: Node)
    requires NodeOk(cfg, h, i, nd) && nd.role.Leader? && i < cfg.size
    ensures match Committable(cfg, nd, LastIndex(nd))
            case None => true
            case Some(n) => nd.commitIndex <= n && Committed(cfg, h, h.full[i], n, nd.currentTerm)
  {
    LastView(nd, h.full[i]);
    CommittableIs(cfg, nd, LastIndex(nd));
    match Committable(cfg, nd, LastIndex(nd)) {
      case None =>
      case Some(n) =>
        TermAtView(nd, h.full[i], n);
        CountedQuorum(cfg, h, i, nd, n);
    }
  }

  /** In a cluster of one, what is appended is committed at once. */
  lemma SoleCommitOk(cfg: Config, h: Hist, i: Id, nd: Node)
    requires NodeOk(cfg, h, i, nd) && nd.role.Leader? && i < cfg.size && Quorum(cfg) == 1
    requires nd.log != [] && nd.log[|nd.log| - 1].term == nd.currentTerm
    ensures NodeOk(cfg, h, i, ApplyCommitted(cfg, nd.(commitIndex := LastIndex(nd))))
  {
    hide ApplyCommitted;
    var f := h.full[i];
    LastView(nd, f);
    assert nd.log[|nd.log| - 1] == f[|f| - 1];
    assert RoleIsLeader(cfg, h, i, nd) && nd.commitIndex <= |f|;
    hide NodeOk, RoleOk, RoleIsLeader, Committed, LastIndex;
    CountedQuorum(cfg, h, i, nd, |f|);
    CommitOk(cfg, h, i, nd, |f|);
  }

  lemma Later(c: Cluster, i: Id, nd: Node, out: Out)
    requires i < |c.nodes|
    ensures SetNode(c, i, nd).nodes[i] == nd
    ensures SetNode(SetNode(c, i, nd), i, out.node) == SetNode(c, i, out.node)
    ensures After(SetNode(c, i, nd), i, out) == After(c, i, out)
    ensures out.sent == {} ==> After(c, i, out) == SetNode(c, i, out.node)
  {
    assert c.net + {} == c.net;
  }

  lemma AppendLocalOk(cfg: Config, c: Cluster, h: Hist, i: Id, cmd: Command) returns (h': Hist)
    requires Inv(cfg, c, h) && i < cfg.size && c.nodes[i].role.Leader?
    ensures Inv(cfg, After(c, i, AppendLocal(cfg, c.nodes[i], cmd)), h') && Grows(h, h')
  {
    var nd1 := Append(c.nodes[i], cmd);
    var out := AppendLocal(cfg, c.nodes[i], cmd);
    h' := AppendOkStep(cfg, c, h, i, cmd);
    Later(c, i, nd1, out);
    var c1 := SetNode(c, i, nd1);
    if Quorum(cfg) == 1 {
      assert NodeOk(cfg, h', i, c1.nodes[i]);
      SoleCommitOk(cfg, h', i, nd1);
      Local(cfg, c1, h', i, out.node);
    } else {
      ReplicateOk(cfg, c1, h', i);
    }
  }

  // ---- elections -----------------------------------------------------------

  lemma BecomeLeaderOk(cfg: Config, c: Cluster, h: Hist, i: Id) returns (h': Hist)
    requires Inv(cfg, c, h) && i < cfg.size
    requires c.nodes[i].role.Candidate? && |c.nodes[i].granted| >= Quorum(cfg)
    ensures Inv(cfg, After(c, i, BecomeLeader(cfg, c.nodes[i])), h') && Grows(h, h')
  {
    var nd := c.nodes[i];
    var nd1 := Lead(cfg, nd);
    var h1 := LeadOk(cfg, c, h, i);
    var c1 := SetNode(c, i, nd1);
    assert c1.nodes[i] == nd1;
    h' := AppendLocalOk(cfg, c1, h1, i, Noop);
    var out1 := AppendLocal(cfg, nd1, Noop);
    var c2 := After(c1, i, out1);
    assert c2.nodes[i] == out1.node;
    ReplicateOk(cfg, c2, h', i);
    GrowsTrans(h, h1, h');
    var out := BecomeLeader(cfg, nd);
    assert After(c2, i, Replicate(cfg, out1.node)) == After(c, i, out);
  }

  lemma StartElectionOk(cfg: Config, c: Cluster, h: Hist, i: Id) returns (h': Hist)
    requires Inv(cfg, c, h) && i < cfg.size
    ensures Inv(cfg, After(c, i, StartElection(cfg, c.nodes[i])), h') && Grows(h, h')
  {
    hide BecomeLeader, BallotOk, ReignOk, View, PromisesOk;
    var nd := c.nodes[i];
    var nd1 := Stand(nd);
    var out := StartElection(cfg, nd);
    var h1 := StandOk(cfg, c, h, i);
    var c1 := SetNode(c, i, nd1);
    assert c1.nodes[i] == nd1 && NodeOk(cfg, h1, i, nd1);
    if 1 >= Quorum(cfg) {
      h' := BecomeLeaderOk(cfg, c1, h1, i);
      GrowsTrans(h, h1, h');
      assert After(c1, i, out) == After(c, i, out);
    } else {
      h' := h1;
      LastView(nd1, h1.full[i]);
      Sent(cfg, c, h1, i, out);
    }
  }

  lemma FollowStep(cfg: Config, c: Cluster, h: Hist, i: Id, term: nat)
    requires Inv(cfg, c, h) && i < cfg.size
    ensures Inv(cfg, SetNode(c, i, BecomeFollower(c.nodes[i], term)), h)
  {
    assert NodeOk(cfg, h, i, c.nodes[i]);
    FollowOk(cfg, h, i, c.nodes[i], term);
    Local(cfg, c, h, i, BecomeFollower(c.nodes[i], term));
  }

  /** The voter's comparison of last terms and lengths is a comparison of whole logs. */
  lemma VoteComparesLogs(cfg: Config, h: Hist, i: Id, nd: Node, m: Msg)
    requires HistOk(cfg, h) && NodeOk(cfg, h, i, nd) && m.VoteReq? && MsgOk(cfg, h, m)
    requires UpToDate(nd, m.lastLogIndex, m.lastLogTerm)
    ensures m.src < cfg.size && VotedFor(h, m.term, m.src, m.src)
    ensures MoreUpToDate(h.ballots[(m.term, m.src)].log, h.full[i])
  {
    LastView(nd, h.full[i]);
    assert BallotOk(cfg, h, m.term, m.src);
  }

  lemma VoteStep(cfg: Config, c: Cluster, h: Hist, i: Id, m: Msg) returns (h': Hist)
    requires Inv(cfg, c, h) && m.VoteReq? && m in c.net && i < cfg.size
    requires m.term == c.nodes[i].currentTerm && UpToDate(c.nodes[i], m.lastLogIndex, m.lastLogTerm)
    requires c.nodes[i].votedFor == None || c.nodes[i].votedFor == Some(m.src)
    ensures Inv(cfg, SetNode(c, i, c.nodes[i].(votedFor := Some(m.src))), h') && Grows(h, h')
    ensures VotedFor(h', m.term, i, m.src)
  {
    assert MsgOk(cfg, h, m) && NodeOk(cfg, h, i, c.nodes[i]);
    VoteComparesLogs(cfg, h, i, c.nodes[i], m);
    h' := GrantOk(cfg, c, h, i, m.src);
  }

  lemma HandleVoteOk(cfg: Config, c: Cluster, h: Hist, m: Msg) returns (h': Hist)
    requires Inv(cfg, c, h) && m.VoteReq? && m in c.net && m.dst < cfg.size
    ensures Inv(cfg, After(c, m.dst, HandleVote(c.nodes[m.dst], m)), h') && Grows(h, h')
  {
    hide After, UpToDate, AppendOk, BallotOk, ReignOk, View, PromisesOk, RoleOk;
    var i := m.dst;
    var nd := c.nodes[i];
    var out := HandleVote(nd, m);
    var nd1 := if m.term > nd.currentTerm then BecomeFollower(nd, m.term) else nd;
    var c1 := SetNode(c, i, nd1);
    FollowStep(cfg, c, h, i, m.term);
    Later(c, i, nd1, out);
    assert nd1 == nd ==> c1 == c;
    assert NodeOk(cfg, h, i, nd);
    if VoteReply(i, m.src, m.term, out.node.currentTerm, true) in out.sent {
      h' := VoteStep(cfg, c1, h, i, m);
    } else {
      h' := h;
    }
    Sent(cfg, c, h', i, out);
  }

  lemma TallyStep(cfg: Config, c: Cluster, h: Hist, i: Id, v: Id)
    requires Inv(cfg, c, h) && i < cfg.size && VotedFor(h, c.nodes[i].currentTerm, v, i)
    ensures Inv(cfg, SetNode(c, i, c.nodes[i].(granted := c.nodes[i].granted + {v})), h)
  {
    assert NodeOk(cfg, h, i, c.nodes[i]);
    assert NodeOk(cfg, h, i, c.nodes[i].(granted := c.nodes[i].granted + {v}));
    Local(cfg, c, h, i, c.nodes[i].(granted := c.nodes[i].granted + {v}));
  }

  lemma OnVoteReplyOk(cfg: Config, c: Cluster, h: Hist, m: Msg) returns (h': Hist)
    requires Inv(cfg, c, h) && m.VoteReply? && m in c.net && m.dst < cfg.size
    ensures Inv(cfg, After(c, m.dst, OnVoteReply(cfg, c.nodes[m.dst], m)), h') && Grows(h, h')
  {
    var i := m.dst;
    var nd := c.nodes[i];
    var out := OnVoteReply(cfg, nd, m);
    h' := h;
    assert MsgOk(cfg, h, m);
    if nd.role != Candidate || nd.currentTerm != m.reqTerm {
      Unmoved(c, i);
    } else if m.term > nd.currentTerm {
      FollowStep(cfg, c, h, i, m.term);
      Later(c, i, out.node, out);
    } else if m.granted {
      var nd1 := nd.(granted := nd.granted + {m.src});
      TallyStep(cfg, c, h, i, m.src);
      Later(c, i, nd1, out);
      if |nd1.granted| >= Quorum(cfg) {
        h' := BecomeLeaderOk(cfg, SetNode(c, i, nd1), h, i);
      }
    } else {
      Unmoved(c, i);
    }
  }

  lemma Unmoved(c: Cluster, i: Id)
    requires i < |c.nodes|
    ensures After(c, i, Out(c.nodes[i], {})) == c
  {
    assert c.net + {} == c.net;
  }
}
