/**
 A cluster: its nodes and every message ever sent. Any message in `net` may be delivered at any
 time, any number of times, or never, so delay, duplication, reordering and loss are all runs.
 */
module RaftCluster {
  import opened Wrappers
  import opened Commands
  import opened RaftNode

  datatype Cluster = Cluster(nodes: seq<Node>, net: set<Msg>)

  datatype Step =
    | Timeout(i: Id)
    | Propose(i: Id, cmd: Command)
    | Heartbeat(i: Id)
    | Receive(m: Msg)
    | Crash(i: Id)
    /** The process dies after the vote or the term was made durable and before anything else was. */
    | CrashStanding(i: Id)
    | CrashHeeding(m: Msg)
    /** It dies in the apply loop a message leads to, or between saving a received snapshot and cutting the log. */
    | CrashApplying(m: Msg, n: nat, saved: bool)
    | CrashInstalling(m: Msg)

  ghost predicate Init(cfg: Config, c: Cluster) {
    && |c.nodes| == cfg.size > 0
    && c.net == {}
    && forall i | 0 <= i < cfg.size :: c.nodes[i] == Fresh(i)
  }

  /** What a node does with a message that reaches it. */
  function OnMsg(cfg: Config, nd: Node, m: Msg): Out {
    match m
    case VoteReq(_, _, _, _, _) => HandleVote(nd, m)
    case VoteReply(_, _, _, _, _) => OnVoteReply(cfg, nd, m)
    case AppendReq(_, _, _, _, _, _, _) => HandleAppend(cfg, nd, m)
    case AppendReply(_, _, _, _, _, _, _, _) => Out(OnAppendReply(cfg, nd, m), {})
    case SnapReq(_, _, _, _) => HandleSnapshot(nd, m)
    case SnapReply(_, _, _, _, _, _) => Out(OnSnapReply(nd, m), {})
  }

  /** How far a reply to a replication request says its sender holds the leader's log. */
  function Claim(m: Msg): nat
    requires m.AppendReply? || m.SnapReply?
  {
    if m.AppendReply? then m.prevIndex + m.count else m.index
  }

  /** Node `p` has answered a request of term `t` from node `i` with a success that reaches entry `n`. */
  ghost predicate Told(net: set<Msg>, p: Id, i: Id, t: nat, n: nat) {
    exists m :: m in net && Tells(m, p, i, t, n)
  }

  predicate Tells(m: Msg, p: Id, i: Id, t: nat, n: nat) {
    (m.AppendReply? || m.SnapReply?) && m.success && m.src == p && m.dst == i && m.reqTerm == t && n <= Claim(m)
  }

  /**
   A late reply is harmless to a leader if it makes it step down, if it is a refusal, or if its sender
   has meanwhile told this very leadership as much; what reaches no leader is harmless anyway.
   */
  ghost predicate TrueReply(c: Cluster, m: Msg)
    requires m.dst < |c.nodes|
  {
    m.AppendReply? || m.SnapReply? ==>
      var nd := c.nodes[m.dst];
      || nd.role != Leader || m.term > nd.currentTerm
      || (m.AppendReply? && !m.success) || Claim(m) == 0
      || Told(c.net, m.src, m.dst, nd.currentTerm, Claim(m))
  }

  /** The reply reaches its receiver in the leadership that sent the request, or when it leads no more. */
  predicate FreshReply(nd: Node, m: Msg) {
    (m.AppendReply? || m.SnapReply?) ==> nd.role != Leader || m.reqTerm == nd.currentTerm
  }

  /** An append from the very beginning does not reach a node that has compacted its beginning away. */
  predicate ReachesLog(nd: Node, m: Msg) {
    m.AppendReq? ==> m.term < nd.currentTerm || m.prevLogIndex != 0 || nd.snapshotIndex <= 1 || m.entries == []
  }

  /** A snapshot is not older than the one held, and no suffix of another history lies behind it. */
  predicate ExtendsSnapshot(nd: Node, m: Msg) {
    m.SnapReq? ==> m.term < nd.currentTerm ||
                   (m.snap.index >= nd.snapshotIndex
                    && (LastIndex(nd) <= m.snap.index || TermAt(nd, m.snap.index) == Some(m.snap.term)))
  }

  ghost predicate Sound(c: Cluster, m: Msg)
    requires m.dst < |c.nodes|
  {
    TrueReply(c, m) && ReachesLog(c.nodes[m.dst], m) && ExtendsSnapshot(c.nodes[m.dst], m)
  }

  function Actor(step: Step): Id {
    match step
    case Receive(m) => m.dst
    case CrashHeeding(m) => m.dst
    case CrashApplying(m, _, _) => m.dst
    case CrashInstalling(m) => m.dst
    case _ => step.i
  }

  function Act(cfg: Config, nd: Node, step: Step): Out {
    match step
    case Timeout(_) => StartElection(cfg, nd)
    case Propose(_, cmd) => RaftNode.Propose(cfg, nd, cmd)
    case Heartbeat(_) => Replicate(cfg, nd)
    case Receive(m) => OnMsg(cfg, nd, m)
    case Crash(_) => Out(Restart(nd), {})
    case CrashStanding(_) => Out(Restart(Stand(nd)), {})
    case CrashHeeding(m) => Out(Restart(BecomeFollower(nd, m.term)), {})
    case CrashApplying(m, n, saved) => Out(Restart(DiesAfter(cfg, LoopStart(cfg, nd, m), n, saved)), {})
    case CrashInstalling(m) => Out(Restart(if m.SnapReq? then DiesInstalling(nd, m) else nd), {})
  }

  /** A leader has no election timer; only messages in the network arrive. */
  predicate Enabled(c: Cluster, step: Step) {
    && Actor(step) < |c.nodes|
    && (step.Timeout? || step.CrashStanding? ==> c.nodes[step.i].role != Leader)
    && (step.CrashHeeding? || Handles(step) ==> step.m in c.net)
  }

  /** Steps in which a message is acted on, to the end or until the process dies. */
  predicate Handles(step: Step) {
    step.Receive? || step.CrashApplying? || step.CrashInstalling?
  }

  function After(c: Cluster, i: Id, out: Out): Cluster
    requires i < |c.nodes|
  {
    Cluster(c.nodes[i := out.node], c.net + out.sent)
  }

  function Do(cfg: Config, c: Cluster, step: Step): Cluster
    requires Enabled(c, step)
  {
    After(c, Actor(step), Act(cfg, c.nodes[Actor(step)], step))
  }

  /** What is acted on is sound. */
  ghost predicate Allowed(c: Cluster, step: Step)
    requires Enabled(c, step)
  {
    Handles(step) ==> Sound(c, step.m)
  }

  ghost predicate Next(cfg: Config, c: Cluster, c': Cluster) {
    exists step :: Enabled(c, step) && Allowed(c, step) && c' == Do(cfg, c, step)
  }

  ghost predicate StepAt(cfg: Config, run: seq<Cluster>, k: nat) {
    k + 1 < |run| ==> Next(cfg, run[k], run[k + 1])
  }

  ghost predicate Run(cfg: Config, run: seq<Cluster>) {
    && |run| > 0
    && Init(cfg, run[0])
    && forall k: nat :: StepAt(cfg, run, k)
  }

  /** The entry a node holds at an index, in its log or already folded into its state machine. */
  function Holds(nd: Node, index: nat): Option<Entry>
    requires index > 0
  {
    if index <= |nd.app| then Some(nd.app[index - 1]) else Find(nd.log, index)
  }
}
