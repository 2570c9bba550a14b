/** Replication requests and their replies keep the invariant when they are delivered soundly. */
module RaftDelivery {
  import opened Wrappers
  import opened RaftNode
  import opened RaftView
  import opened RaftCluster
  import opened RaftInv
  import opened RaftGrow
  import opened RaftSteps
  import opened RaftReplication
  import opened RaftHandlers

  // ---- appends -------------------------------------------------------------

  lemma LeaderIdOk(cfg: Config, h: Hist, i: Id, nd: Node, leaderId: Option<Id>)
    requires NodeOk(cfg, h, i, nd)
    ensures NodeOk(cfg, h, i, nd.(leaderId := leaderId))
  {
  }

  lemma HeedStep(cfg: Config, c: Cluster, h: Hist, i: Id, m: Msg)
    requires Inv(cfg, c, h) && i < cfg.size && m.AppendReq? && m.term >= c.nodes[i].currentTerm
    ensures Inv(cfg, SetNode(c, i, Heed(c.nodes[i], m)), h)
    ensures var nd := Heed(c.nodes[i], m); nd.role.Follower? && nd.currentTerm == m.term
  {
    hide NodeOk, PromisesOk, MsgOk;
    var nd := c.nodes[i];
    assert NodeOk(cfg, h, i, nd);
    FollowOk(cfg, h, i, nd, m.term);
    LeaderIdOk(cfg, h, i, BecomeFollower(nd, m.term), Some(m.src));
    LeaderIdOk(cfg, h, i, nd, Some(m.src));
    Local(cfg, c, h, i, Heed(nd, m));
  }

  /** The leader's log as far as this request carries it. */
  function Carried(h: Hist, m: Msg): seq<Entry>
    requires m.AppendReq? && m.term in h.reign && m.prevLogIndex + |m.entries| <= |h.reign[m.term].log|
  {
    h.reign[m.term].log[..m.prevLogIndex + |m.entries|]
  }

  /** A node that passes the consistency check agrees with the leader up to the previous entry. */
  lemma PrevAgrees(h: Hist, nd: Node, f: seq<Entry>, log: seq<Entry>, m: Msg)
    requires View(nd, f) && LogOk(h, f) && LogOk(h, log)
    requires f[..nd.commitIndex] <= log
    requires m.AppendReq? && m.prevLogIndex <= |log| && m.prevLogTerm == TermOf(log, m.prevLogIndex)
    requires PrevMatches(nd, m)
    ensures m.prevLogIndex <= |f| && f[..m.prevLogIndex] == log[..m.prevLogIndex]
    ensures m.prevLogIndex == 0 || nd.snapshotIndex <= m.prevLogIndex
  {
    var prev := m.prevLogIndex;
    if prev == nd.snapshotIndex {
      assert f[..prev] == f[..nd.commitIndex][..prev];
    } else if prev > 0 {
      TermAtView(nd, f, prev);
      LogsMatch(h, f, log);
      assert MatchAt(f, log, prev - 1);
    }
  }

  lemma MergeCarried(h: Hist, nd: Node, f: seq<Entry>, m: Msg)
    requires View(nd, f) && LogOk(h, f)
    requires m.AppendReq? && m.term in h.reign && LogOk(h, h.reign[m.term].log)
    requires var log := h.reign[m.term].log;
             && m.prevLogIndex + |m.entries| <= |log|
             && m.entries == log[m.prevLogIndex..m.prevLogIndex + |m.entries|]
             && m.prevLogTerm == TermOf(log, m.prevLogIndex)
             && f[..nd.commitIndex] <= log
    requires PrevMatches(nd, m)
    requires m.prevLogIndex != 0 || nd.snapshotIndex <= 1 || m.entries == []
    ensures View(Merge(nd, m.entries), Adopted(f, Carried(h, m)))
    ensures Merge(nd, m.entries).(log := []) == nd.(log := [])
    ensures f[..nd.commitIndex] <= Adopted(f, Carried(h, m))
  {
    var log := h.reign[m.term].log;
    var prev := m.prevLogIndex;
    var g := Carried(h, m);
    PrevAgrees(h, nd, f, log, m);
    PrefixOk(h, g, log);
    LogsMatch(h, f, g);
    assert g[prev..] == m.entries;
    assert f[..prev] == g[..prev];
    AdoptKeeps(f, g, log, f[..nd.commitIndex]);
    if prev == 0 && nd.snapshotIndex == 1 && m.entries != [] {
      assert f[..1] == f[..nd.commitIndex][..1] == log[..1] == g[..1];
    }
    MergeView(nd, f, g, prev);
  }

  lemma MergeStep(cfg: Config, c: Cluster, h: Hist, i: Id, m: Msg) returns (h': Hist)
    requires Inv(cfg, c, h) && i < cfg.size && m.AppendReq? && AppendOk(cfg, h, m)
    requires c.nodes[i].role.Follower? && c.nodes[i].currentTerm == m.term && PrevMatches(c.nodes[i], m)
    requires m.prevLogIndex != 0 || c.nodes[i].snapshotIndex <= 1 || m.entries == []
    ensures Inv(cfg, SetNode(c, i, Merge(c.nodes[i], m.entries)), h') && Grows(h, h')
    ensures h'.reign == h.reign && i < |h'.full| && Carried(h, m) <= h'.full[i]
    ensures m.prevLogIndex + |m.entries| <= Ack(h', m.term, i)
  {
    hide Find, Diverges, ElectorOk, BallotOk, View, PromisesOk, RoleOk, MsgOk;
    var nd := c.nodes[i];
    assert NodeOk(cfg, h, i, nd) && ReignOk(cfg, h, m.term);
    var f := h.full[i];
    var g := Carried(h, m);
    CommittedInReign(cfg, h, f, nd.commitIndex, m.term);
    MergeCarried(h, nd, f, m);
    var nd' := Merge(nd, m.entries);
    assert nd'.(log := []).commitIndex == nd.(log := []).commitIndex
        && nd'.(log := []).role == nd.(log := []).role && nd'.(log := []).id == nd.(log := []).id
        && nd'.(log := []).currentTerm == nd.(log := []).currentTerm
            && nd'.(log := []).votedFor == nd.(log := []).votedFor;
    SelfGrows(h);
    CommittedGrows(cfg, h, h, f, Adopted(f, g), nd.commitIndex, m.term, m.term);
    h' := AdoptStep(cfg, c, h, i, g, nd');
  }

  /** The follower's commit index: the smaller of the leader's and its own last index is the leader's. */
  lemma LearnOk(cfg: Config, h: Hist, i: Id, nd: Node, m: Msg)
    requires NodeOk(cfg, h, i, nd) && m.AppendReq? && AppendOk(cfg, h, m) && nd.currentTerm == m.term
    requires Carried(h, m) <= h.full[i]
    ensures NodeOk(cfg, h, i, LearnCommit(cfg, nd, m.leaderCommit))
  {
    if m.leaderCommit > nd.commitIndex {
      LearnsCommitted(cfg, h, i, nd, m);
      CommitOk(cfg, h, i, nd, m.leaderCommit);
    }
  }

  lemma LearnsCommitted(cfg: Config, h: Hist, i: Id, nd: Node, m: Msg)
    requires NodeOk(cfg, h, i, nd) && m.AppendReq? && AppendOk(cfg, h, m) && nd.currentTerm == m.term
    requires Carried(h, m) <= h.full[i]
    ensures Min(m.leaderCommit, LastIndex(nd)) == m.leaderCommit && Committed(cfg, h, h.full[i], m.leaderCommit, m.term)
  {
    LastView(nd, h.full[i]);
    var log := h.reign[m.term].log;
    assert log[..m.leaderCommit] == Carried(h, m)[..m.leaderCommit] == h.full[i][..m.leaderCommit];
    SelfGrows(h);
    CommittedGrows(cfg, h, h, log, h.full[i], m.leaderCommit, m.term, m.term);
  }

  lemma LearnStep(cfg: Config, c: Cluster, h: Hist, i: Id, m: Msg)
    requires Inv(cfg, c, h) && i < cfg.size && i < |h.full| && m.AppendReq? && AppendOk(cfg, h, m)
    requires c.nodes[i].currentTerm == m.term && Carried(h, m) <= h.full[i]
    ensures Inv(cfg, SetNode(c, i, LearnCommit(cfg, c.nodes[i], m.leaderCommit)), h)
  {
    assert NodeOk(cfg, h, i, c.nodes[i]);
    LearnOk(cfg, h, i, c.nodes[i], m);
    Local(cfg, c, h, i, LearnCommit(cfg, c.nodes[i], m.leaderCommit));
  }

  lemma AcceptStep(cfg: Config, c: Cluster, h: Hist, i: Id, m: Msg) returns (h': Hist)
    requires Inv(cfg, c, h) && i < cfg.size && m.AppendReq? && m in c.net
    requires c.nodes[i].role.Follower? && c.nodes[i].currentTerm == m.term && PrevMatches(c.nodes[i], m)
    requires m.prevLogIndex != 0 || c.nodes[i].snapshotIndex <= 1 || m.entries == []
    ensures Inv(cfg, SetNode(c, i, LearnCommit(cfg, Merge(c.nodes[i], m.entries), m.leaderCommit)), h') && Grows(h, h')
    ensures m.prevLogIndex + |m.entries| <= Ack(h', m.term, i)
  {
    assert MsgOk(cfg, h, m);
    var nd1 := Merge(c.nodes[i], m.entries);
    h' := MergeStep(cfg, c, h, i, m);
    var c1 := SetNode(c, i, nd1);
    assert MsgOk(cfg, h', m);
    assert nd1.(log := []).currentTerm == c.nodes[i].(log := []).currentTerm by {
      MergeLeaves(c.nodes[i], m.entries);
    }
    LearnStep(cfg, c1, h', i, m);
    Later(c, i, nd1, Out(LearnCommit(cfg, nd1, m.leaderCommit), {}));
  }

  lemma MergeLeaves(nd: Node, entries: seq<Entry>)
    ensures Merge(nd, entries).(log := []) == nd.(log := [])
  {
  }

  lemma AnswerOk(cfg: Config, h: Hist, nd: Node, m: Msg, success: bool, conflict: Option<nat>)
    requires m.AppendReq? && m.dst == nd.id < cfg.size && m.src != m.dst
    requires success ==> m.prevLogIndex + |m.entries| <= Ack(h, m.term, m.dst)
    ensures MsgOk(cfg, h, AppendAnswer(nd, m, success, conflict))
  {
  }

  lemma LearnLeaves(cfg: Config, nd: Node, leaderCommit: nat)
    ensures LearnCommit(cfg, nd, leaderCommit).id == nd.id
  {
    ApplyStands(cfg, nd.(commitIndex := Min(leaderCommit, LastIndex(nd))));
  }

  lemma NodeId(cfg: Config, c: Cluster, h: Hist, i: Id)
    requires Inv(cfg, c, h) && i < cfg.size
    ensures c.nodes[i].id == i
  {
    assert NodeOk(cfg, h, i, c.nodes[i]);
  }

  lemma HandleAppendOk(cfg: Config, c: Cluster, h: Hist, m: Msg) returns (h': Hist)
    requires Inv(cfg, c, h) && m.AppendReq? && m in c.net && m.dst < cfg.size
    requires ReachesLog(c.nodes[m.dst], m)
    ensures Inv(cfg, After(c, m.dst, HandleAppend(cfg, c.nodes[m.dst], m)), h') && Grows(h, h')
  {
    var i := m.dst;
    var nd := c.nodes[i];
    var out := HandleAppend(cfg, nd, m);
    h' := h;
    assert MsgOk(cfg, h, m);
    NodeId(cfg, c, h, i);
    if m.term < nd.currentTerm {
      assert SetNode(c, i, nd) == c;
      AnswerOk(cfg, h, nd, m, false, None);
    } else {
      var nd1 := Heed(nd, m);
      HeedStep(cfg, c, h, i, m);
      Later(c, i, nd1, out);
      if PrevMatches(nd1, m) {
        h' := AcceptStep(cfg, SetNode(c, i, nd1), h, i, m);
        MergeLeaves(nd1, m.entries);
        LearnLeaves(cfg, Merge(nd1, m.entries), m.leaderCommit);
        assert Merge(nd1, m.entries).(log := []).id == nd1.(log := []).id;
        AnswerOk(cfg, h', out.node, m, true, None);
      } else {
        AnswerOk(cfg, h, nd1, m, false, Some(ConflictIndex(nd1, m.prevLogIndex)));
      }
    }
    Sent(cfg, c, h', i, out);
  }

  // ---- snapshots -----------------------------------------------------------

  lemma InstallFacts(cfg: Config, h: Hist, nd: Node, f: seq<Entry>, m: Msg)
    requires View(nd, f) && LogOk(h, f) && HistOk(cfg, h) && m.SnapReq? && SnapOk(cfg, h, m)
    requires m.snap.index >= nd.snapshotIndex
    requires LastIndex(nd) <= m.snap.index || TermAt(nd, m.snap.index) == Some(m.snap.term)
    ensures View(Install(nd, m.snap), Adopted(f, m.snap.state))
    ensures m.snap.state <= Adopted(f, m.snap.state)
  {
    var log := h.reign[m.term].log;
    var s := m.snap.index;
    assert ReignOk(cfg, h, m.term);
    PrefixOk(h, m.snap.state, log);
    LastView(nd, f);
    if |f| > s {
      TermAtView(nd, f, s);
      LogsMatch(h, f, log);
      assert MatchAt(f, log, s - 1);
    }
    InstallView(nd, f, m.snap);
  }

  lemma InstallStep(cfg: Config, c: Cluster, h: Hist, i: Id, m: Msg) returns (h': Hist)
    requires Inv(cfg, c, h) && i < cfg.size && m.SnapReq? && SnapOk(cfg, h, m)
    requires c.nodes[i].role.Follower? && c.nodes[i].currentTerm == m.term
    requires m.snap.index >= c.nodes[i].snapshotIndex
    requires LastIndex(c.nodes[i]) <= m.snap.index || TermAt(c.nodes[i], m.snap.index) == Some(m.snap.term)
    ensures Inv(cfg, SetNode(c, i, Install(c.nodes[i], m.snap)), h') && Grows(h, h')
    ensures m.snap.index <= Ack(h', m.term, i)
  {
    var nd := c.nodes[i];
    assert NodeOk(cfg, h, i, nd);
    var f := h.full[i];
    InstallFacts(cfg, h, nd, f, m);
    var f' := Adopted(f, m.snap.state);
    var log := h.reign[m.term].log;
    assert log[..m.snap.index] == f'[..m.snap.index];
    SelfGrows(h);
    CommittedGrows(cfg, h, h, log, f', m.snap.index, m.term, m.term);
    h' := AdoptStep(cfg, c, h, i, m.snap.state, Install(nd, m.snap));
  }

  /** Stepping down for a leader keeps the log and its snapshot. */
  lemma HeardLeader(cfg: Config, c: Cluster, h: Hist, i: Id, term: nat, src: Id)
    requires Inv(cfg, c, h) && i < cfg.size && term >= c.nodes[i].currentTerm
    ensures var nd1 := BecomeFollower(c.nodes[i], term).(leaderId := Some(src));
            && Inv(cfg, SetNode(c, i, nd1), h) && nd1.role == Follower && nd1.currentTerm == term
            && LastIndex(nd1) == LastIndex(c.nodes[i]) && nd1.snapshotIndex == c.nodes[i].snapshotIndex
            && forall k :: TermAt(nd1, k) == TermAt(c.nodes[i], k)
  {
    hide Inv, NodeOk, BecomeFollower, TermAt, LastIndex;
    NodeAt(cfg, c, h, i);
    var nd := c.nodes[i];
    FollowOk(cfg, h, i, nd, term);
    LeaderIdOk(cfg, h, i, BecomeFollower(nd, term), Some(src));
    Local(cfg, c, h, i, BecomeFollower(nd, term).(leaderId := Some(src)));
    HeardSame(nd, term, src);
  }

  lemma NodeAt(cfg: Config, c: Cluster, h: Hist, i: Id)
    requires Inv(cfg, c, h) && i < cfg.size
    ensures i < |c.nodes| && NodeOk(cfg, h, i, c.nodes[i])
  {
  }

  lemma HeardSame(nd: Node, term: nat, src: Id)
    requires term >= nd.currentTerm
    ensures var nd1 := BecomeFollower(nd, term).(leaderId := Some(src));
            && nd1.role == Follower && nd1.currentTerm == term
            && LastIndex(nd1) == LastIndex(nd) && nd1.snapshotIndex == nd.snapshotIndex
            && forall k :: TermAt(nd1, k) == TermAt(nd, k)
  {
    hide BecomeFollower, Find;
    FollowerHas(nd, term);
  }

  lemma FollowerHas(nd: Node, term: nat)
    requires term >= nd.currentTerm
    ensures var nd1 := BecomeFollower(nd, term);
            && nd1.role == Follower && nd1.currentTerm == term && nd1.log == nd.log
            && nd1.snapshotIndex == nd.snapshotIndex && nd1.snapshotTerm == nd.snapshotTerm
  {
  }

  lemma SnapshotStep(cfg: Config, c: Cluster, h: Hist, m: Msg) returns (h': Hist)
    requires Inv(cfg, c, h) && m.SnapReq? && m in c.net && m.dst < cfg.size && m.term >= c.nodes[m.dst].currentTerm
    requires ExtendsSnapshot(c.nodes[m.dst], m)
    ensures Inv(cfg, SetNode(c, m.dst, HandleSnapshot(c.nodes[m.dst], m).node), h') && Grows(h, h')
    ensures m.snap.index <= Ack(h', m.term, m.dst)
  {
    var i, nd := m.dst, c.nodes[m.dst];
    var nd1 := BecomeFollower(nd, m.term).(leaderId := Some(m.src));
    assert MsgOk(cfg, h, m);
    HeardLeader(cfg, c, h, i, m.term, m.src);
    Later(c, i, nd1, HandleSnapshot(nd, m));
    hide Inv, SnapOk, BecomeFollower, Install, TermAt, LastIndex;
    h' := InstallStep(cfg, SetNode(c, i, nd1), h, i, m);
  }

  lemma HandleSnapshotOk(cfg: Config, c: Cluster, h: Hist, m: Msg) returns (h': Hist)
    requires Inv(cfg, c, h) && m.SnapReq? && m in c.net && m.dst < cfg.size
    requires ExtendsSnapshot(c.nodes[m.dst], m)
    ensures Inv(cfg, After(c, m.dst, HandleSnapshot(c.nodes[m.dst], m)), h') && Grows(h, h')
  {
    var i := m.dst;
    var nd := c.nodes[i];
    var out := HandleSnapshot(nd, m);
    h' := h;
    assert MsgOk(cfg, h, m) && NodeOk(cfg, h, i, nd);
    if m.term >= nd.currentTerm {
      h' := SnapshotStep(cfg, c, h, m);
      hide NodeOk, Install, BecomeFollower;
    } else {
      assert SetNode(c, i, nd) == c;
    }
    Sent(cfg, c, h', i, out);
  }

  // ---- replies -------------------------------------------------------------

  lemma MatchOk(cfg: Config, h: Hist, i: Id, nd: Node, p: Id, k: nat, next: map<Id, nat>)
    requires NodeOk(cfg, h, i, nd) && nd.role.Leader? && p != i && p < cfg.size
    requires k <= Ack(h, nd.currentTerm, p)
    ensures NodeOk(cfg, h, i, nd.(matchIndex := nd.matchIndex[p := k], nextIndex := next))
  {
    MembersAre(cfg.size);
    assert nd.matchIndex[p := k].Keys == Peers(cfg, i);
  }

  lemma NextOk(cfg: Config, h: Hist, i: Id, nd: Node, next: map<Id, nat>)
    requires NodeOk(cfg, h, i, nd)
    ensures NodeOk(cfg, h, i, nd.(nextIndex := next))
  {
  }

  /** What a true reply claims is acknowledged in this term, whatever request it answers. */
  lemma ClaimAcked(cfg: Config, c: Cluster, h: Hist, m: Msg)
    requires Inv(cfg, c, h) && m in c.net && m.dst < cfg.size && TrueReply(c, m)
    requires m.AppendReply? || m.SnapReply?
    requires c.nodes[m.dst].role == Leader && m.term <= c.nodes[m.dst].currentTerm && (m.AppendReply? ==> m.success)
    ensures m.src != m.dst && m.src < cfg.size && Claim(m) <= Ack(h, c.nodes[m.dst].currentTerm, m.src)
  {
    assert MsgOk(cfg, h, m);
    if Claim(m) > 0 {
      var told :| told in c.net && Tells(told, m.src, m.dst, c.nodes[m.dst].currentTerm, Claim(m));
      assert MsgOk(cfg, h, told);
    }
  }

  lemma BelievingOk(cfg: Config, h: Hist, i: Id, nd: Node, m: Msg)
    requires NodeOk(cfg, h, i, nd) && nd.role.Leader? && i < cfg.size && m.AppendReply?
    requires m.src != i && m.src < cfg.size && Claim(m) <= Ack(h, nd.currentTerm, m.src)
    ensures NodeOk(cfg, h, i, Believing(nd, m)) && Believing(nd, m).role.Leader?
  {
    var nd1 := Believing(nd, m);
    MatchOk(cfg, h, i, nd, m.src, nd1.matchIndex[m.src], nd1.nextIndex);
  }

  lemma AppendReplyNode(cfg: Config, h: Hist, i: Id, nd: Node, m: Msg)
    requires NodeOk(cfg, h, i, nd) && nd.role.Leader? && i < cfg.size && m.AppendReply? && m.dst == i
    requires m.term <= nd.currentTerm && m.success ==>
               m.src != i && m.src < cfg.size && Claim(m) <= Ack(h, nd.currentTerm, m.src)
    ensures NodeOk(cfg, h, i, OnAppendReply(cfg, nd, m))
  {
    hide AdvanceCommit, View, LogOk, PromisesOk, Committed;
    if m.term > nd.currentTerm {
      FollowOk(cfg, h, i, nd, m.term);
    } else if m.success {
      BelievingOk(cfg, h, i, nd, m);
      AdvanceCommitOk(cfg, h, i, Believing(nd, m));
    } else {
      NextOk(cfg, h, i, nd, OnAppendReply(cfg, nd, m).nextIndex);
    }
  }

  lemma OnAppendReplyOk(cfg: Config, c: Cluster, h: Hist, m: Msg)
    requires Inv(cfg, c, h) && m.AppendReply? && m in c.net && m.dst < cfg.size
    requires TrueReply(c, m)
    ensures Inv(cfg, SetNode(c, m.dst, OnAppendReply(cfg, c.nodes[m.dst], m)), h)
  {
    var i := m.dst;
    var nd := c.nodes[i];
    assert MsgOk(cfg, h, m) && NodeOk(cfg, h, i, nd);
    if nd.role == Leader {
      if m.success && m.term <= nd.currentTerm { ClaimAcked(cfg, c, h, m); }
      AppendReplyNode(cfg, h, i, nd, m);
    }
    Local(cfg, c, h, i, OnAppendReply(cfg, nd, m));
  }

  lemma OnSnapReplyOk(cfg: Config, c: Cluster, h: Hist, m: Msg)
    requires Inv(cfg, c, h) && m.SnapReply? && m in c.net && m.dst < cfg.size
    requires TrueReply(c, m)
    ensures Inv(cfg, SetNode(c, m.dst, OnSnapReply(c.nodes[m.dst], m)), h)
  {
    var i := m.dst;
    var nd := c.nodes[i];
    assert MsgOk(cfg, h, m) && NodeOk(cfg, h, i, nd);
    if nd.role != Leader {
    } else if m.term > nd.currentTerm {
      FollowOk(cfg, h, i, nd, m.term);
    } else {
      ClaimAcked(cfg, c, h, m);
      MatchOk(cfg, h, i, nd, m.src, m.index, nd.nextIndex[m.src := m.index + 1]);
    }
    Local(cfg, c, h, i, OnSnapReply(nd, m));
  }

  // ---- dying inside a handler ----------------------------------------------

  /** Where a delivered append's apply loop begins, the follower is as it should be. */
  lemma AppendLoops(cfg: Config, c: Cluster, h: Hist, m: Msg) returns (h': Hist)
    requires Inv(cfg, c, h) && m.AppendReq? && m in c.net && m.dst < cfg.size && ReachesLog(c.nodes[m.dst], m)
    ensures Inv(cfg, SetNode(c, m.dst, LoopStart(cfg, c.nodes[m.dst], m)), h') && Grows(h, h')
  {
    var i, nd := m.dst, c.nodes[m.dst];
    h' := h;
    SelfGrows(h);
    if m.term < nd.currentTerm {
      assert SetNode(c, i, nd) == c;
    } else {
      HeedStep(cfg, c, h, i, m);
      if PrevMatches(Heed(nd, m), m) { h' := MergedLoops(cfg, SetNode(c, i, Heed(nd, m)), h, i, m); }
      Later(c, i, Heed(nd, m), Out(LoopStart(cfg, nd, m), {}));
    }
  }

  /** What a follower that accepted an append knows to be committed before it applies anything. */
  function Learning(nd: Node, leaderCommit: nat): Node {
    if leaderCommit > nd.commitIndex then nd.(commitIndex := Min(leaderCommit, LastIndex(nd))) else nd
  }

  lemma MergedLoops(cfg: Config, c: Cluster, h: Hist, i: Id, m: Msg) returns (h': Hist)
    requires Inv(cfg, c, h) && i < cfg.size && m.AppendReq? && m in c.net
    requires c.nodes[i].role.Follower? && c.nodes[i].currentTerm == m.term && PrevMatches(c.nodes[i], m)
    requires m.prevLogIndex != 0 || c.nodes[i].snapshotIndex <= 1 || m.entries == []
    ensures Inv(cfg, SetNode(c, i, Learning(Merge(c.nodes[i], m.entries), m.leaderCommit)), h') && Grows(h, h')
  {
    assert MsgOk(cfg, h, m);
    var nd1 := Merge(c.nodes[i], m.entries);
    h' := MergeStep(cfg, c, h, i, m);
    var c1 := SetNode(c, i, nd1);
    assert MsgOk(cfg, h', m) && NodeOk(cfg, h', i, c1.nodes[i]);
    assert nd1.(log := []).currentTerm == c.nodes[i].(log := []).currentTerm by {
      MergeLeaves(c.nodes[i], m.entries);
    }
    if m.leaderCommit > nd1.commitIndex {
      LearnsCommitted(cfg, h', i, nd1, m);
      KnowsOk(cfg, h', i, nd1, m.leaderCommit);
    }
    Local(cfg, c1, h', i, Learning(nd1, m.leaderCommit));
    Later(c, i, nd1, Out(Learning(nd1, m.leaderCommit), {}));
  }

  /** And so is a leader that has heard enough to commit. */
  lemma ReplyLoops(cfg: Config, c: Cluster, h: Hist, m: Msg)
    requires Inv(cfg, c, h) && m.AppendReply? && m in c.net && m.dst < cfg.size && TrueReply(c, m)
    ensures Inv(cfg, SetNode(c, m.dst, LoopStart(cfg, c.nodes[m.dst], m)), h)
  {
    var i, nd := m.dst, c.nodes[m.dst];
    assert NodeOk(cfg, h, i, nd);
    if nd.role == Leader && m.term <= nd.currentTerm && m.success {
      ClaimAcked(cfg, c, h, m);
      BelievingOk(cfg, h, i, nd, m);
      ReplyLoopsNode(cfg, h, i, nd, m);
    }
    hide NodeOk, Committable;
    Local(cfg, c, h, i, LoopStart(cfg, nd, m));
  }

  lemma ReplyLoopsNode(cfg: Config, h: Hist, i: Id, nd: Node, m: Msg)
    requires m.AppendReply? && NodeOk(cfg, h, i, nd) && NodeOk(cfg, h, i, Believing(nd, m))
    requires Believing(nd, m).role.Leader? && i < cfg.size
    ensures NodeOk(cfg, h, i, LoopStart(cfg, nd, m))
  {
    hide NodeOk;
    var nd1 := Believing(nd, m);
    CommittableOk(cfg, h, i, nd1);
    match Committable(cfg, nd1, LastIndex(nd1)) {
      case None =>
      case Some(n) => KnowsOk(cfg, h, i, nd1, n);
    }
  }

  lemma LoopsOk(cfg: Config, c: Cluster, h: Hist, m: Msg) returns (h': Hist)
    requires Inv(cfg, c, h) && m in c.net && m.dst < cfg.size && Sound(c, m)
    ensures Inv(cfg, SetNode(c, m.dst, LoopStart(cfg, c.nodes[m.dst], m)), h') && Grows(h, h')
  {
    h' := h;
    SelfGrows(h);
    match m {
      case AppendReq(_, _, _, _, _, _, _) => h' := AppendLoops(cfg, c, h, m);
      case AppendReply(_, _, _, _, _, _, _, _) => ReplyLoops(cfg, c, h, m);
      case _ => assert SetNode(c, m.dst, c.nodes[m.dst]) == c;
    }
  }

  /** Death in the middle of a round leaves what death at its end would have left. */
  lemma DiesAsAfter(cfg: Config, nd: Node, n: nat)
    ensures Restart(DiesAfter(cfg, nd, n, true)) == Restart(ApplySome(cfg, ApplySome(cfg, nd, n), 1))
  {
    hide ApplyOne, MidRound, Restart;
    var nd1 := ApplySome(cfg, nd, n);
    if nd1.lastApplied < nd1.commitIndex {
      SavedRestarts(cfg, nd1);
      assert ApplySome(cfg, nd1, 1) == ApplySome(cfg, ApplyOne(cfg, nd1), 0);
    } else {
      RoundOver(cfg, nd1);
    }
  }

  lemma RoundOver(cfg: Config, nd: Node)
    requires nd.lastApplied >= nd.commitIndex
    ensures MidRound(cfg, nd) == nd
  {
  }

  /** A node that is as it should be when its apply loop begins is so again after dying in it. */
  lemma DiesOk(cfg: Config, c: Cluster, h: Hist, i: Id, nd: Node, n: nat, saved: bool)
    requires i < cfg.size && i < |c.nodes| && Inv(cfg, SetNode(c, i, nd), h)
    ensures Inv(cfg, SetNode(c, i, Restart(DiesAfter(cfg, nd, n, saved))), h)
  {
    hide ApplySome, MidRound, Restart;
    DiesAsAfter(cfg, nd, n);
    SomeRestarts(cfg, c, h, i, nd, n, if saved then 1 else 0);
    NoRounds(cfg, ApplySome(cfg, nd, n));
  }

  lemma NoRounds(cfg: Config, nd: Node)
    ensures ApplySome(cfg, nd, 0) == nd
  {
  }

  lemma SomeRestarts(cfg: Config, c: Cluster, h: Hist, i: Id, nd: Node, n: nat, k: nat)
    requires i < cfg.size && i < |c.nodes| && Inv(cfg, SetNode(c, i, nd), h)
    ensures Inv(cfg, SetNode(c, i, Restart(ApplySome(cfg, ApplySome(cfg, nd, n), k))), h)
  {
    hide ApplySome, Restart;
    var c1 := SetNode(c, i, nd);
    var nd2 := ApplySome(cfg, ApplySome(cfg, nd, n), k);
    assert NodeOk(cfg, h, i, c1.nodes[i]);
    SomeOk(cfg, h, i, nd, n);
    SomeOk(cfg, h, i, ApplySome(cfg, nd, n), k);
    RestartOk(cfg, h, i, nd2);
    Local(cfg, c1, h, i, Restart(nd2));
    Later(c, i, nd, Out(Restart(nd2), {}));
  }
}
