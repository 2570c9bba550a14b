/** Runs in which everything is sound but for one check: what a run needs is what such a run can break. */
module RaftSlips {
  import opened Wrappers
  import opened Commands
  import opened RaftNode
  import opened RaftCluster

  /**
   The check a run may do without: that replies are true, that appends from the beginning reach only
   nodes that still have theirs, that snapshots extend what is held, that votes go to up-to-date logs,
   or that a leader counts replicas for entries of its own term only.
   */
  datatype Slip = LateReply | FromStart | OldSnapshot | AnyVote | NoTermTest

  /** The vote without the comparison of logs. */
  function VoteAnyway(nd: Node, m: Msg): Out
    requires m.VoteReq?
  {
    var nd1 := if m.term > nd.currentTerm then BecomeFollower(nd, m.term) else nd;
    var granted := m.term >= nd1.currentTerm && (nd1.votedFor == None || nd1.votedFor == Some(m.src));
    var nd2 := if granted then nd1.(votedFor := Some(m.src)) else nd1;
    Out(nd2, {VoteReply(nd.id, m.src, m.term, nd2.currentTerm, granted)})
  }

  /** The downward scan, counting replicas for an entry of any term. */
  function AnyTerm(cfg: Config, nd: Node, n: nat): Option<nat> {
    if n <= nd.commitIndex then None
    else if TermAt(nd, n).Some? && Replicas(nd, n) >= Quorum(cfg) then Some(n)
    else AnyTerm(cfg, nd, n - 1)
  }

  /** A leader with what that scan finds committed. */
  function CountsAny(cfg: Config, nd: Node): Node {
    match AnyTerm(cfg, nd, LastIndex(nd))
    case None => nd
    case Some(n) => nd.(commitIndex := n)
  }

  function AdvanceAnyTerm(cfg: Config, nd: Node): Node {
    if AnyTerm(cfg, nd, LastIndex(nd)) == None then nd else ApplyCommitted(cfg, CountsAny(cfg, nd))
  }

  predicate Believes(nd: Node, m: Msg)
    requires m.AppendReply?
  {
    nd.role == Leader && m.term <= nd.currentTerm && m.success
  }

  /** The answer to a reply, with the scan that counts replicas for any term. */
  function OnReplyAnyTerm(cfg: Config, nd: Node, m: Msg): Node
    requires m.AppendReply?
  {
    if Believes(nd, m) then AdvanceAnyTerm(cfg, Believing(nd, m)) else OnAppendReply(cfg, nd, m)
  }

  function SlipAct(cfg: Config, slip: Slip, nd: Node, step: Step): Out {
    if slip == AnyVote && step.Receive? && step.m.VoteReq? then VoteAnyway(nd, step.m)
    else if slip == NoTermTest && step.Receive? && step.m.AppendReply? then Out(OnReplyAnyTerm(cfg, nd, step.m), {})
    else if slip == NoTermTest && step.CrashApplying? && step.m.AppendReply? && Believes(nd, step.m)
    then Out(Restart(DiesAfter(cfg, CountsAny(cfg, Believing(nd, step.m)), step.n, step.saved)), {})
    else Act(cfg, nd, step)
  }

  ghost predicate Lets(slip: Slip, c: Cluster, step: Step)
    requires Enabled(c, step)
  {
    Handles(step) ==>
      && (slip == LateReply || TrueReply(c, step.m))
      && (slip == FromStart || ReachesLog(c.nodes[step.m.dst], step.m))
      && (slip == OldSnapshot || ExtendsSnapshot(c.nodes[step.m.dst], step.m))
  }

  ghost predicate SlipNext(cfg: Config, slip: Slip, c: Cluster, c': Cluster) {
    exists step :: Enabled(c, step) && Lets(slip, c, step)
        && c' == After(c, Actor(step), SlipAct(cfg, slip, c.nodes[Actor(step)], step))
  }

  ghost predicate SlipAt(cfg: Config, slip: Slip, run: seq<Cluster>, k: nat) {
    k + 1 < |run| ==> SlipNext(cfg, slip, run[k], run[k + 1])
  }

  ghost predicate SlipRun(cfg: Config, slip: Slip, run: seq<Cluster>) {
    |run| > 0 && Init(cfg, run[0]) && forall k: nat :: SlipAt(cfg, slip, run, k)
  }

  ghost predicate Reachable(cfg: Config, slip: Slip, c: Cluster) {
    exists run :: SlipRun(cfg, slip, run) && run[|run| - 1] == c
  }

  lemma Starts(cfg: Config, slip: Slip, c: Cluster)
    requires Init(cfg, c)
    ensures Reachable(cfg, slip, c)
  {
    var run := [c];
    assert SlipRun(cfg, slip, run) && run[|run| - 1] == c;
  }

  lemma Reach(cfg: Config, slip: Slip, c: Cluster, step: Step)
    requires Reachable(cfg, slip, c) && Enabled(c, step) && Lets(slip, c, step)
    ensures Reachable(cfg, slip, After(c, Actor(step), SlipAct(cfg, slip, c.nodes[Actor(step)], step)))
  {
    hide Lets, Init, SlipAct;
    var c' := After(c, Actor(step), SlipAct(cfg, slip, c.nodes[Actor(step)], step));
    var run :| SlipRun(cfg, slip, run) && run[|run| - 1] == c;
    var longer := run + [c'];
    forall k: nat ensures SlipAt(cfg, slip, longer, k) {
      assert SlipAt(cfg, slip, run, k);
      if k + 1 == |run| { assert longer[k] == c && longer[k + 1] == c'; }
    }
    assert longer[|longer| - 1] == c';
  }

  /** A new leader replicates from its first entry and once more, with the same effect. */
  lemma LeadsTwice(cfg: Config, nd: Node)
    requires nd.role != Leader && Quorum(cfg) != 1
    requires Replicate(cfg, Append(Lead(cfg, nd), Noop)).node == Append(Lead(cfg, nd), Noop)
    ensures BecomeLeader(cfg, nd) == Replicate(cfg, Append(Lead(cfg, nd), Noop))
  {
    hide Replicate, Append, Lead;
    assert AppendLocal(cfg, Lead(cfg, nd), Noop) == Replicate(cfg, Append(Lead(cfg, nd), Noop));
  }
}
