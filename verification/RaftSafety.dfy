/** The safety theorems, over every run of a cluster whose deliveries are sound. */
module RaftSafety {
  import opened Wrappers
  import opened Commands
  import opened RaftNode
  import opened RaftView
  import opened RaftCluster
  import opened RaftInv
  import opened RaftGrow
  import opened RaftSteps
  import opened RaftHandlers
  import opened RaftDelivery

  // ---- one step ------------------------------------------------------------

  lemma ReceiveOk(cfg: Config, c: Cluster, h: Hist, m: Msg) returns (h': Hist)
    requires Inv(cfg, c, h) && m in c.net && m.dst < cfg.size && Sound(c, m)
    ensures Inv(cfg, After(c, m.dst, OnMsg(cfg, c.nodes[m.dst], m)), h') && Grows(h, h')
  {
    var out := OnMsg(cfg, c.nodes[m.dst], m);
    Later(c, m.dst, out.node, out);
    SelfGrows(h);
    match m {
      case VoteReq(_, _, _, _, _) => h' := HandleVoteOk(cfg, c, h, m);
      case VoteReply(_, _, _, _, _) => h' := OnVoteReplyOk(cfg, c, h, m);
      case AppendReq(_, _, _, _, _, _, _) => h' := HandleAppendOk(cfg, c, h, m);
      case AppendReply(_, _, _, _, _, _, _, _) => h' := h; OnAppendReplyOk(cfg, c, h, m);
      case SnapReq(_, _, _, _) => h' := HandleSnapshotOk(cfg, c, h, m);
      case SnapReply(_, _, _, _, _, _) => h' := h; OnSnapReplyOk(cfg, c, h, m);
    }
  }

  lemma RestartStep(cfg: Config, c: Cluster, h: Hist, i: Id)
    requires Inv(cfg, c, h) && i < cfg.size
    ensures Inv(cfg, SetNode(c, i, Restart(c.nodes[i])), h)
  {
    assert NodeOk(cfg, h, i, c.nodes[i]);
    RestartOk(cfg, h, i, c.nodes[i]);
    Local(cfg, c, h, i, Restart(c.nodes[i]));
  }

  lemma ProposeOk(cfg: Config, c: Cluster, h: Hist, i: Id, cmd: Command) returns (h': Hist)
    requires Inv(cfg, c, h) && i < cfg.size
    ensures Inv(cfg, After(c, i, RaftNode.Propose(cfg, c.nodes[i], cmd)), h') && Grows(h, h')
  {
    if c.nodes[i].role == Leader {
      h' := AppendLocalOk(cfg, c, h, i, cmd);
    } else {
      h' := h;
      Unmoved(c, i);
    }
  }

  lemma DiesInstallingOk(cfg: Config, c: Cluster, h: Hist, m: Msg) returns (h': Hist)
    requires Inv(cfg, c, h) && m in c.net && m.dst < cfg.size && Sound(c, m)
    ensures var dead := if m.SnapReq? then DiesInstalling(c.nodes[m.dst], m) else c.nodes[m.dst];
            Inv(cfg, SetNode(c, m.dst, Restart(dead)), h')
    ensures Grows(h, h')
  {
    var i, nd := m.dst, c.nodes[m.dst];
    hide DiesInstalling, HandleSnapshot, Restart, Inv;
    h' := h;
    SelfGrows(h);
    if m.SnapReq? {
      InstalledRestarts(nd, m);
      h' := SnapshotDies(cfg, c, h, m);
    } else {
      RestartStep(cfg, c, h, i);
    }
  }

  lemma SnapshotDies(cfg: Config, c: Cluster, h: Hist, m: Msg) returns (h': Hist)
    requires Inv(cfg, c, h) && m.SnapReq? && m in c.net && m.dst < cfg.size && ExtendsSnapshot(c.nodes[m.dst], m)
    ensures Inv(cfg, SetNode(c, m.dst, Restart(HandleSnapshot(c.nodes[m.dst], m).node)), h') && Grows(h, h')
  {
    hide HandleSnapshot, Restart;
    var i, nd := m.dst, c.nodes[m.dst];
    var nd1 := HandleSnapshot(nd, m).node;
    h' := h;
    SelfGrows(h);
    if m.term < nd.currentTerm {
      assert nd1 == nd by { Refuses(nd, m); }
      assert SetNode(c, i, nd) == c;
    } else {
      h' := SnapshotStep(cfg, c, h, m);
    }
    RestartStep(cfg, SetNode(c, i, nd1), h', i);
    Later(c, i, nd1, Out(Restart(nd1), {}));
  }

  lemma Refuses(nd: Node, m: Msg)
    requires m.SnapReq? && m.term < nd.currentTerm
    ensures HandleSnapshot(nd, m).node == nd
  {
  }

  lemma StepOk(cfg: Config, c: Cluster, h: Hist, step: Step) returns (h': Hist)
    requires Inv(cfg, c, h) && Enabled(c, step)
    requires Allowed(c, step)
    ensures Inv(cfg, Do(cfg, c, step), h') && Grows(h, h')
  {
    var i := Actor(step);
    var nd := c.nodes[i];
    var out := Act(cfg, nd, step);
    Later(c, i, out.node, out);
    h' := h;
    SelfGrows(h);
    match step {
      case Timeout(_) => h' := StartElectionOk(cfg, c, h, i);
      case Propose(_, cmd) => h' := ProposeOk(cfg, c, h, i, cmd);
      case Heartbeat(_) => ReplicateOk(cfg, c, h, i);
      case Receive(m) => h' := ReceiveOk(cfg, c, h, m);
      case Crash(_) => RestartStep(cfg, c, h, i);
      case CrashStanding(_) =>
        h' := StandOk(cfg, c, h, i);
        Later(c, i, Stand(nd), out);
        RestartStep(cfg, SetNode(c, i, Stand(nd)), h', i);
      case CrashHeeding(m) =>
        FollowStep(cfg, c, h, i, m.term);
        Later(c, i, BecomeFollower(nd, m.term), out);
        RestartStep(cfg, SetNode(c, i, BecomeFollower(nd, m.term)), h, i);
      case CrashApplying(m, n, saved) =>
        h' := LoopsOk(cfg, c, h, m);
        DiesOk(cfg, c, h', i, LoopStart(cfg, nd, m), n, saved);
      case CrashInstalling(m) => h' := DiesInstallingOk(cfg, c, h, m);
    }
    assert Do(cfg, c, step) == After(c, i, out);
  }

  // ---- every run -----------------------------------------------------------

  lemma InitOk(cfg: Config, c: Cluster) returns (h: Hist)
    requires Init(cfg, c)
    ensures Inv(cfg, c, h)
  {
    h := Hist(seq(cfg.size, _ => []), map[], map[], map[]);
    forall i | 0 <= i < cfg.size ensures NodeOk(cfg, h, i, c.nodes[i]) {
      assert h.full[i] == [];
    }
  }

  ghost predicate Trace(cfg: Config, run: seq<Cluster>, hs: seq<Hist>) {
    && |hs| == |run|
    && (forall k {:trigger hs[k]} | 0 <= k < |run| :: Inv(cfg, run[k], hs[k]))
    && (forall j, k {:trigger hs[j], hs[k]} | 0 <= j <= k < |run| :: Grows(hs[j], hs[k]))
  }

  lemma RunPrefix(cfg: Config, run: seq<Cluster>, n: nat)
    requires Run(cfg, run) && 0 < n <= |run|
    ensures Run(cfg, run[..n])
  {
    forall k: nat ensures StepAt(cfg, run[..n], k) { assert StepAt(cfg, run, k); }
  }

  lemma LastStepOk(cfg: Config, run: seq<Cluster>, n: nat, h: Hist) returns (h': Hist)
    requires Run(cfg, run) && n + 1 < |run| && Inv(cfg, run[n], h)
    ensures Inv(cfg, run[n + 1], h') && Grows(h, h')
  {
    assert StepAt(cfg, run, n);
    var step :| Enabled(run[n], step) && Allowed(run[n], step) && run[n + 1] == Do(cfg, run[n], step);
    h' := StepOk(cfg, run[n], h, step);
  }

  lemma Longer(cfg: Config, run: seq<Cluster>, hs: seq<Hist>, h: Hist)
    requires |run| > 1 && Trace(cfg, run[..|run| - 1], hs) && Inv(cfg, run[|run| - 1], h)
    requires Grows(hs[|hs| - 1], h)
    ensures Trace(cfg, run, hs + [h])
  {
    var n := |run| - 1;
    SelfGrows(h);
    forall j | 0 <= j < n ensures Grows(hs[j], h) {
      assert Grows(hs[j], hs[n - 1]);
      GrowsTrans(hs[j], hs[n - 1], h);
    }
    forall k | 0 <= k < |run| ensures Inv(cfg, run[k], (hs + [h])[k]) {
      if k < n { assert run[..n][k] == run[k] && (hs + [h])[k] == hs[k]; }
    }
  }

  /** Every run leaves a history that only grows and that the invariant ties to every state. */
  lemma {:induction false} RunOk(cfg: Config, run: seq<Cluster>) returns (hs: seq<Hist>)
    requires Run(cfg, run)
    ensures Trace(cfg, run, hs)
    decreases |run|
  {
    hide Grows, NodeOk, BallotOk, ReignOk, MsgOk;
    var n := |run| - 1;
    if n == 0 {
      var h := InitOk(cfg, run[0]);
      SelfGrows(h);
      hs := [h];
    } else {
      RunPrefix(cfg, run, n);
      var hs0 := RunOk(cfg, run[..n]);
      assert run[..n][n - 1] == run[n - 1] && Inv(cfg, run[n - 1], hs0[n - 1]);
      var h := LastStepOk(cfg, run, n - 1, hs0[n - 1]);
      Longer(cfg, run, hs0, h);
      hs := hs0 + [h];
    }
  }

  /** Two moments of a run, read against the history at the later of the two. */
  lemma TwoMoments(cfg: Config, run: seq<Cluster>, a: nat, b: nat) returns (ha: Hist, hb: Hist, h: Hist)
    requires Run(cfg, run) && a < |run| && b < |run|
    ensures Inv(cfg, run[a], ha) && Inv(cfg, run[b], hb) && HistOk(cfg, h)
    ensures Grows(ha, h) && Grows(hb, h)
  {
    var hs := RunOk(cfg, run);
    ha, hb := hs[a], hs[b];
    h := if a <= b then hb else ha;
  }

  // ---- what a node holds ---------------------------------------------------

  lemma HoldsView(nd: Node, f: seq<Entry>, k: nat)
    requires View(nd, f) && k > 0
    ensures Holds(nd, k) == if k <= |f| then Some(f[k - 1]) else None
  {
    FindByIndex(f, nd.snapshotIndex, k);
  }

  /** What has been applied is numbered without gaps, and its terms never go down. */
  lemma AppliedInOrder(cfg: Config, run: seq<Cluster>, a: nat, i: Id, k: nat)
    requires Run(cfg, run) && a < |run| && i < |run[a].nodes|
    ensures |run[a].nodes[i].app| == run[a].nodes[i].lastApplied
    ensures k < |run[a].nodes[i].app| ==> run[a].nodes[i].app[k].index == k + 1
    ensures k < |run[a].nodes[i].log| ==> run[a].nodes[i].log[k].index == run[a].nodes[i].snapshotIndex + k + 1
    ensures 0 < k < |run[a].nodes[i].log| ==> run[a].nodes[i].log[k - 1].term <= run[a].nodes[i].log[k].term
  {
    var hs := RunOk(cfg, run);
    var nd, f := run[a].nodes[i], hs[a].full[i];
    assert NodeOk(cfg, hs[a], i, nd);
    if 0 < k < |nd.log| {
      assert Ordered(f, nd.snapshotIndex + k - 1, nd.snapshotIndex + k);
    }
  }

  // ---- theorems ------------------------------------------------------------

  /** At most one node is ever leader in a term, at whatever two moments one looks. */
  lemma ElectionSafety(cfg: Config, run: seq<Cluster>, a: nat, i: Id, b: nat, j: Id)
    requires Run(cfg, run) && a < |run| && b < |run| && i < |run[a].nodes| && j < |run[b].nodes|
    requires run[a].nodes[i].role == Leader && run[b].nodes[j].role == Leader
    requires run[a].nodes[i].currentTerm == run[b].nodes[j].currentTerm
    ensures i == j
  {
    var ha, hb, h := TwoMoments(cfg, run, a, b);
    assert NodeOk(cfg, ha, i, run[a].nodes[i]) && NodeOk(cfg, hb, j, run[b].nodes[j]);
    var t := run[a].nodes[i].currentTerm;
    assert ReignGrows(ha, h, t) && ReignGrows(hb, h, t);
  }

  /** Entries with the same index and term: everything before them is the same too. */
  lemma LogMatching(cfg: Config, run: seq<Cluster>, a: nat, i: Id, b: nat, j: Id, k: nat, k0: nat)
    requires Run(cfg, run) && a < |run| && b < |run| && i < |run[a].nodes| && j < |run[b].nodes|
    requires 0 < k0 <= k
    requires Holds(run[a].nodes[i], k).Some? && Holds(run[b].nodes[j], k).Some?
    requires Holds(run[a].nodes[i], k).value.term == Holds(run[b].nodes[j], k).value.term
    ensures Holds(run[a].nodes[i], k0).Some? && Holds(run[a].nodes[i], k0) == Holds(run[b].nodes[j], k0)
  {
    hide HistOk, Inv, BallotOk, ReignOk, View, PromisesOk, RoleOk, MsgOk;
    var ha, hb, h := TwoMoments(cfg, run, a, b);
    assert NodeOk(cfg, ha, i, run[a].nodes[i]) && NodeOk(cfg, hb, j, run[b].nodes[j]);
    var f, g := ha.full[i], hb.full[j];
    HoldsView(run[a].nodes[i], f, k);
    HoldsView(run[b].nodes[j], g, k);
    HoldsView(run[a].nodes[i], f, k0);
    HoldsView(run[b].nodes[j], g, k0);
    LogGrows(ha, h, f);
    LogGrows(hb, h, g);
    LogsMatch(h, f, g);
    assert MatchAt(f, g, k - 1);
    assert f[..k][k0 - 1] == g[..k][k0 - 1];
  }

  /** Whatever any node has committed is held by every leader of every later term, then or at any other time. */
  lemma LeaderCompleteness(cfg: Config, run: seq<Cluster>, a: nat, i: Id, b: nat, j: Id, k: nat)
    requires Run(cfg, run) && a < |run| && b < |run| && i < |run[a].nodes| && j < |run[b].nodes|
    requires run[b].nodes[j].role == Leader && run[a].nodes[i].currentTerm < run[b].nodes[j].currentTerm
    requires 0 < k <= run[a].nodes[i].commitIndex
    ensures Holds(run[a].nodes[i], k).Some? && Holds(run[b].nodes[j], k) == Holds(run[a].nodes[i], k)
  {
    hide Run, HistOk, Inv, Committed, NodeOk, View, Holds;
    var ha, hb, h := TwoMoments(cfg, run, a, b);
    var nd, ld := run[a].nodes[i], run[b].nodes[j];
    NodeStands(cfg, run[a], ha, i);
    LeaderStart(cfg, run[b], hb, j);
    var f, g := ha.full[i], hb.full[j];
    HoldsView(nd, f, k);
    HoldsView(ld, g, k);
    CommittedGrows(cfg, ha, h, f, f, nd.commitIndex, nd.currentTerm, nd.currentTerm);
    assert ReignGrows(hb, h, ld.currentTerm);
    CommittedInStart(cfg, h, f, nd.commitIndex, nd.currentTerm, ld.currentTerm);
    assert f[..nd.commitIndex][k - 1] == g[k - 1];
  }

  lemma NodeStands(cfg: Config, c: Cluster, h: Hist, i: Id)
    requires Inv(cfg, c, h) && i < |c.nodes|
    ensures i < |h.full| && View(c.nodes[i], h.full[i])
    ensures Committed(cfg, h, h.full[i], c.nodes[i].commitIndex, c.nodes[i].currentTerm)
  {
    assert NodeOk(cfg, h, i, c.nodes[i]);
  }

  /** Every later reign starts with what was committed before it. */
  lemma CommittedInStart(cfg: Config, h: Hist, f: seq<Entry>, c: nat, bound: nat, T: nat)
    requires HistOk(cfg, h) && Committed(cfg, h, f, c, bound) && T in h.reign && bound < T
    ensures c <= |f| && f[..c] <= h.reign[T].start
  {
    if c > 0 {
      var t: nat, n: nat :| t <= bound && CommitWitness(cfg, h, f, c, t, n);
      LeadersComplete(cfg, h, t, n, T);
    }
  }

  lemma LeaderStart(cfg: Config, c: Cluster, h: Hist, j: Id)
    requires Inv(cfg, c, h) && j < |c.nodes| && c.nodes[j].role == Leader
    ensures j < |h.full| && View(c.nodes[j], h.full[j])
    ensures c.nodes[j].currentTerm in h.reign && h.reign[c.nodes[j].currentTerm].start <= h.full[j]
  {
    assert NodeOk(cfg, h, j, c.nodes[j]);
    assert ReignOk(cfg, h, c.nodes[j].currentTerm);
  }

  /** No two nodes ever apply different commands at the same log index. */
  lemma StateMachineSafety(cfg: Config, run: seq<Cluster>, a: nat, i: Id, b: nat, j: Id)
    requires Run(cfg, run) && a < |run| && b < |run| && i < |run[a].nodes| && j < |run[b].nodes|
    ensures run[a].nodes[i].app <= run[b].nodes[j].app || run[b].nodes[j].app <= run[a].nodes[i].app
  {
    var ha, hb, h := TwoMoments(cfg, run, a, b);
    AppliedAgree(cfg, run[a], ha, i, run[b], hb, j, h);
  }

  /** What two states' nodes have applied agrees if one history continues both of theirs. */
  lemma AppliedAgree(cfg: Config, a: Cluster, ha: Hist, i: Id, b: Cluster, hb: Hist, j: Id, h: Hist)
    requires Inv(cfg, a, ha) && Inv(cfg, b, hb) && HistOk(cfg, h) && Grows(ha, h) && Grows(hb, h)
    requires i < |a.nodes| && j < |b.nodes|
    ensures a.nodes[i].app <= b.nodes[j].app || b.nodes[j].app <= a.nodes[i].app
  {
    hide Grows, View, RoleOk, MsgOk;
    var m, n := a.nodes[i], b.nodes[j];
    assert NodeOk(cfg, ha, i, m) && NodeOk(cfg, hb, j, n);
    var f, g := ha.full[i], hb.full[j];
    AppliedCommitted(cfg, ha, h, i, m);
    AppliedCommitted(cfg, hb, h, j, n);
    hide NodeOk, Committed, Inv;
    if m.lastApplied <= n.lastApplied {
      CommittedAgree(cfg, h, f, m.lastApplied, m.currentTerm, g, n.lastApplied, n.currentTerm);
    } else {
      CommittedAgree(cfg, h, g, n.lastApplied, n.currentTerm, f, m.lastApplied, m.currentTerm);
    }
  }

  /** What a node has applied is a committed prefix of its log, and stays committed as the history grows. */
  lemma AppliedCommitted(cfg: Config, h: Hist, h': Hist, i: Id, nd: Node)
    requires NodeOk(cfg, h, i, nd) && Grows(h, h')
    ensures nd.lastApplied <= |h.full[i]| && nd.app == h.full[i][..nd.lastApplied]
    ensures Committed(cfg, h', h.full[i], nd.lastApplied, nd.currentTerm)
  {
    CommittedLess(cfg, h, h.full[i], nd.commitIndex, nd.lastApplied, nd.currentTerm, nd.currentTerm);
    CommittedGrows(cfg, h, h', h.full[i], h.full[i], nd.lastApplied, nd.currentTerm, nd.currentTerm);
  }

  /** Every append ever sent reaches at least as far as the commit index it carries. */
  lemma AppendsCoverCommit(cfg: Config, run: seq<Cluster>, a: nat, m: Msg)
    requires Run(cfg, run) && a < |run| && m in run[a].net && m.AppendReq?
    ensures m.leaderCommit <= m.prevLogIndex + |m.entries|
  {
    var hs := RunOk(cfg, run);
    assert MsgOk(cfg, hs[a], m);
  }

  /**
   The follower takes the smaller of the leader's commit index and its own last index. After a sound
   append that is always the smaller of the leader's commit index and the last new entry, whatever
   uncommitted tail the follower keeps.
   */
  lemma CommitRule(cfg: Config, run: seq<Cluster>, a: nat, m: Msg)
    requires Run(cfg, run) && a < |run| && m in run[a].net && m.AppendReq? && m.dst < |run[a].nodes|
    requires Sound(run[a], m) && m.term >= run[a].nodes[m.dst].currentTerm
    requires PrevMatches(Heed(run[a].nodes[m.dst], m), m)
    ensures var merged := Merge(Heed(run[a].nodes[m.dst], m), m.entries);
            Min(m.leaderCommit, LastIndex(merged)) == Min(m.leaderCommit, m.prevLogIndex + |m.entries|)
  {
    hide Next, Grows, HistOk, View, PromisesOk, RoleOk;
    var hs := RunOk(cfg, run);
    var c, h, i := run[a], hs[a], m.dst;
    assert MsgOk(cfg, h, m);
    var nd1 := Heed(c.nodes[i], m);
    HeedStep(cfg, c, h, i, m);
    var c1 := SetNode(c, i, nd1);
    hide Heed, Merge, PrevMatches;
    var h' := MergeStep(cfg, c1, h, i, m);
    assert NodeOk(cfg, h', i, SetNode(c1, i, Merge(nd1, m.entries)).nodes[i]);
    LastView(Merge(nd1, m.entries), h'.full[i]);
    assert Carried(h, m) <= h'.full[i];
  }
}
