/**
 Replies to replication requests are checked for the role of their receiver, not for the request they
 answer. Which late ones a leader may believe: exactly those that leave its books true.
 */
module RaftReplies {
  import opened Commands
  import opened RaftNode
  import opened RaftView
  import opened RaftCluster
  import opened RaftInv
  import opened RaftHandlers
  import opened RaftSafety

  // ---- what an action does to a leader's books -----------------------------

  /** The replica positions after a step, as long as the node goes on leading. */
  function Counted(nd: Node, step: Step): map<Id, nat> {
    if step.Receive? && step.m.AppendReply? && step.m.success then
      var known := if step.m.src in nd.matchIndex then nd.matchIndex[step.m.src] else 0;
      nd.matchIndex[step.m.src := Max(known, Claim(step.m))]
    else if step.Receive? && step.m.SnapReply? then nd.matchIndex[step.m.src := step.m.index]
    else nd.matchIndex
  }

  /** Either the same leadership goes on, or the node does not lead, or its books are still empty. */
  ghost predicate LeadsOn(nd: Node, step: Step, nd': Node) {
    nd'.role == Leader ==>
      if nd.role == Leader
      then nd'.currentTerm == nd.currentTerm && nd.commitIndex <= nd'.commitIndex && nd'.matchIndex == Counted(nd, step)
      else forall p | p in nd'.matchIndex :: nd'.matchIndex[p] == 0
  }

  lemma AppendLocalLeads(cfg: Config, nd: Node, f: seq<Entry>, cmd: Command)
    requires nd.role == Leader && LastIndex(nd) == |f| && nd.commitIndex <= |f|
    ensures var nd' := AppendLocal(cfg, nd, cmd).node;
            && nd'.role == Leader && nd'.currentTerm == nd.currentTerm
            && nd.commitIndex <= nd'.commitIndex && nd'.matchIndex == nd.matchIndex
  {
    ApplyStands(cfg, Append(nd, cmd).(commitIndex := LastIndex(nd) + 1));
  }

  lemma BecomeLeaderLeads(cfg: Config, nd: Node, f: seq<Entry>)
    requires nd.role != Leader && LastIndex(nd) == |f| && nd.commitIndex <= |f|
    ensures var nd' := BecomeLeader(cfg, nd).node;
            && nd'.role == Leader && nd'.currentTerm == nd.currentTerm
            && forall p | p in nd'.matchIndex :: nd'.matchIndex[p] == 0
  {
    hide AppendLocal;
    AppendLocalLeads(cfg, Lead(cfg, nd), f, Noop);
  }

  lemma AdvanceStands(cfg: Config, nd: Node)
    ensures var nd' := AdvanceCommit(cfg, nd);
            && nd'.role == nd.role && nd'.currentTerm == nd.currentTerm
            && nd.commitIndex <= nd'.commitIndex && nd'.matchIndex == nd.matchIndex
  {
    hide ApplyCommitted;
    CommittableIs(cfg, nd, LastIndex(nd));
    match Committable(cfg, nd, LastIndex(nd)) {
      case None =>
      case Some(n) => ApplyStands(cfg, nd.(commitIndex := n));
    }
  }

  lemma ReplyLeads(cfg: Config, nd: Node, m: Msg)
    requires m.AppendReply?
    ensures LeadsOn(nd, Receive(m), OnAppendReply(cfg, nd, m))
  {
    hide AdvanceCommit;
    AdvanceStands(cfg, Believing(nd, m));
  }

  lemma RequestLeads(cfg: Config, nd: Node, m: Msg)
    requires m.AppendReq?
    ensures LeadsOn(nd, Receive(m), HandleAppend(cfg, nd, m).node)
    ensures nd.role != Leader ==> HandleAppend(cfg, nd, m).node.role != Leader
  {
    if m.term >= nd.currentTerm {
      var nd1 := Merge(Heed(nd, m), m.entries);
      ApplyStands(cfg, nd1.(commitIndex := Min(m.leaderCommit, LastIndex(nd1))));
    }
  }

  lemma ReceiveLeads(cfg: Config, nd: Node, f: seq<Entry>, m: Msg)
    requires View(nd, f)
    ensures LeadsOn(nd, Receive(m), OnMsg(cfg, nd, m).node)
  {
    hide BecomeLeader, HandleVote, HandleAppend, HandleSnapshot, OnVoteReply, OnAppendReply, OnSnapReply, LeadsOn;
    match m {
      case VoteReq(_, _, _, _, _) => VoteLeads(nd, m);
      case VoteReply(_, _, _, _, _) => TallyLeads(cfg, nd, f, m);
      case AppendReq(_, _, _, _, _, _, _) => RequestLeads(cfg, nd, m);
      case AppendReply(_, _, _, _, _, _, _, _) => ReplyLeads(cfg, nd, m);
      case SnapReq(_, _, _, _) => InstallLeads(nd, m);
      case SnapReply(_, _, _, _, _, _) => SnapReplyLeads(nd, m);
    }
  }

  lemma VoteLeads(nd: Node, m: Msg)
    requires m.VoteReq?
    ensures LeadsOn(nd, Receive(m), HandleVote(nd, m).node)
  {
  }

  lemma InstallLeads(nd: Node, m: Msg)
    requires m.SnapReq?
    ensures LeadsOn(nd, Receive(m), HandleSnapshot(nd, m).node)
  {
  }

  lemma SnapReplyLeads(nd: Node, m: Msg)
    requires m.SnapReply?
    ensures LeadsOn(nd, Receive(m), OnSnapReply(nd, m))
  {
  }

  lemma TallyLeads(cfg: Config, nd: Node, f: seq<Entry>, m: Msg)
    requires View(nd, f) && m.VoteReply?
    ensures LeadsOn(nd, Receive(m), OnVoteReply(cfg, nd, m).node)
  {
    hide BecomeLeader;
    LastView(nd, f);
    if nd.role == Candidate { BecomeLeaderLeads(cfg, nd.(granted := nd.granted + {m.src}), f); }
  }

  lemma ActLeads(cfg: Config, nd: Node, f: seq<Entry>, step: Step)
    requires View(nd, f) && (step.Timeout? || step.CrashStanding? ==> nd.role != Leader)
    ensures LeadsOn(nd, step, Act(cfg, nd, step).node)
  {
    hide Replicate, AppendLocal, BecomeLeader, OnMsg;
    match step {
      case Timeout(_) =>
        LastView(nd, f);
        BecomeLeaderLeads(cfg, Stand(nd), f);
      case Propose(_, cmd) =>
        LastView(nd, f);
        if nd.role == Leader { AppendLocalLeads(cfg, nd, f, cmd); }
      case Heartbeat(_) => ReplicateKeeps(cfg, nd);
      case Receive(m) => ReceiveLeads(cfg, nd, f, m);
      case _ =>
    }
  }

  lemma ReplicateKeeps(cfg: Config, nd: Node)
    ensures Replicate(cfg, nd).node == nd.(nextIndex := Replicate(cfg, nd).node.nextIndex)
  {
  }

  // ---- the books -----------------------------------------------------------

  /** Whatever a leader counts a peer for, the peer has told this leadership. */
  ghost predicate BooksTrue(c: Cluster, i: Id)
    requires i < |c.nodes|
  {
    var nd := c.nodes[i];
    nd.role == Leader ==>
      forall p | p in nd.matchIndex && nd.matchIndex[p] > 0 :: Told(c.net, p, i, nd.currentTerm, nd.matchIndex[p])
  }

  lemma ToldLess(net: set<Msg>, net': set<Msg>, p: Id, i: Id, t: nat, n: nat, n': nat)
    requires Told(net, p, i, t, n) && n' <= n && net <= net'
    ensures Told(net', p, i, t, n')
  {
    var m :| m in net && Tells(m, p, i, t, n);
    assert m in net' && Tells(m, p, i, t, n');
  }

  lemma ToldAsMuch(net: set<Msg>, p: Id, i: Id, t: nat, n: nat, n': nat)
    requires n' <= n
    ensures Told(net, p, i, t, n) ==> Told(net, p, i, t, n')
  {
    if Told(net, p, i, t, n) { ToldLess(net, net, p, i, t, n, n'); }
  }

  lemma BooksStep(cfg: Config, c: Cluster, h: Hist, step: Step, out: Out, i: Id)
    requires Inv(cfg, c, h) && Enabled(c, step) && i < cfg.size && BooksTrue(c, i)
    requires step.Receive? ==> TrueReply(c, step.m)
    requires LeadsOn(c.nodes[Actor(step)], step, out.node)
    requires Believed(c.nodes[Actor(step)], step, out.node)
    ensures BooksTrue(After(c, Actor(step), out), i)
  {
    var c', nd := After(c, Actor(step), out), c.nodes[i];
    var nd' := c'.nodes[i];
    hide Inv, HistOk;
    if nd.role == Leader && nd'.role == Leader {
      forall p | p in nd'.matchIndex && nd'.matchIndex[p] > 0
        ensures Told(c'.net, p, i, nd'.currentTerm, nd'.matchIndex[p])
      {
        if p in nd.matchIndex && nd'.matchIndex[p] == nd.matchIndex[p] {
          ToldLess(c.net, c'.net, p, i, nd.currentTerm, nd.matchIndex[p], nd.matchIndex[p]);
        } else {
          ToldLess(c.net, c'.net, p, i, nd.currentTerm, Claim(step.m), Claim(step.m));
        }
      }
    }
  }

  /** If the books of a leader changed and it still leads, it believed a reply. */
  ghost predicate Believed(nd: Node, step: Step, nd': Node) {
    nd.role == Leader && nd'.role == Leader && Counted(nd, step) != nd.matchIndex ==>
      step.Receive? && ((step.m.AppendReply? && step.m.success) || step.m.SnapReply?) && step.m.term <= nd.currentTerm
  }

  lemma ActBelieves(cfg: Config, nd: Node, step: Step)
    ensures Believed(nd, step, Act(cfg, nd, step).node)
  {
  }

  lemma BooksDo(cfg: Config, c: Cluster, h: Hist, step: Step, i: Id)
    requires Inv(cfg, c, h) && Enabled(c, step) && i < cfg.size && BooksTrue(c, i)
    requires step.Receive? ==> TrueReply(c, step.m)
    ensures BooksTrue(Do(cfg, c, step), i)
  {
    var k := Actor(step);
    assert NodeOk(cfg, h, k, c.nodes[k]);
    hide Act, NodeOk, Inv, BooksTrue;
    ActLeads(cfg, c.nodes[k], h.full[k], step);
    ActBelieves(cfg, c.nodes[k], step);
    BooksStep(cfg, c, h, step, Act(cfg, c.nodes[k], step), i);
  }

  lemma BooksNext(cfg: Config, c: Cluster, h: Hist, c': Cluster, i: Id)
    requires Inv(cfg, c, h) && Next(cfg, c, c') && i < cfg.size && BooksTrue(c, i)
    ensures i < |c'.nodes| && BooksTrue(c', i)
  {
    hide Inv, BooksTrue;
    var step :| Enabled(c, step) && Allowed(c, step) && c' == Do(cfg, c, step);
    BooksDo(cfg, c, h, step, i);
    CountNodes(cfg, c, h);
  }

  lemma CountNodes(cfg: Config, c: Cluster, h: Hist)
    requires Inv(cfg, c, h)
    ensures |c.nodes| == cfg.size
  {
  }

  lemma {:induction false} BooksAlwaysTrue(cfg: Config, run: seq<Cluster>, hs: seq<Hist>, a: nat, i: Id)
    requires Run(cfg, run) && Trace(cfg, run, hs) && a < |run| && i < cfg.size
    ensures i < |run[a].nodes| && BooksTrue(run[a], i)
  {
    hide Inv, BooksTrue, Next;
    if a == 0 {
      assert run[0].nodes[i] == Fresh(i);
      assert BooksTrue(run[0], i) by { FreshBooks(run[0], i); }
    } else {
      BooksAlwaysTrue(cfg, run, hs, a - 1, i);
      assert StepAt(cfg, run, a - 1);
      BooksNext(cfg, run[a - 1], hs[a - 1], run[a], i);
    }
  }

  lemma FreshBooks(c: Cluster, i: Id)
    requires i < |c.nodes| && c.nodes[i] == Fresh(i)
    ensures BooksTrue(c, i)
  {
  }

  // ---- which late replies are harmless -------------------------------------

  lemma ReplyKeepsBooks(cfg: Config, c: Cluster, h: Hist, m: Msg)
    requires Inv(cfg, c, h) && m in c.net && (m.AppendReply? || m.SnapReply?) && m.dst < cfg.size
    requires BooksTrue(c, m.dst)
    ensures BooksTrue(Do(cfg, c, Receive(m)), m.dst) <==> TrueReply(c, m)
  {
    var i := m.dst;
    var nd, c' := c.nodes[i], Do(cfg, c, Receive(m));
    if TrueReply(c, m) {
      BooksDo(cfg, c, h, Receive(m), i);
    } else {
      StillLeads(cfg, nd, m);
      var now := c'.nodes[i].matchIndex[m.src];
      assert c'.net == c.net && now >= Claim(m);
      ToldAsMuch(c.net, m.src, i, nd.currentTerm, now, Claim(m));
    }
  }

  /** A reply that is believed leaves the leader in place, with what it claims in the books. */
  lemma StillLeads(cfg: Config, nd: Node, m: Msg)
    requires (m.AppendReply? && m.success) || m.SnapReply?
    requires nd.role == Leader && m.term <= nd.currentTerm
    ensures var nd' := OnMsg(cfg, nd, m).node;
            nd'.role == Leader && nd'.currentTerm == nd.currentTerm && nd'.matchIndex == Counted(nd, Receive(m))
    ensures OnMsg(cfg, nd, m).sent == {}
  {
    if m.AppendReply? {
      hide AdvanceCommit;
      AdvanceStands(cfg, Believing(nd, m));
    }
  }

  lemma FreshIsTrue(cfg: Config, c: Cluster, h: Hist, m: Msg)
    requires Inv(cfg, c, h) && m in c.net && (m.AppendReply? || m.SnapReply?) && m.dst < cfg.size
    requires FreshReply(c.nodes[m.dst], m)
    ensures TrueReply(c, m)
  {
    assert MsgOk(cfg, h, m);
    if m.success { assert Tells(m, m.src, m.dst, m.reqTerm, Claim(m)); }
  }

  /**
   In any reachable state a leader counts a peer for no more than the peer has told this leadership,
   and a reply keeps that so if and only if it is a true one; a reply to this leadership always is.
   */
  lemma LateReplies(cfg: Config, run: seq<Cluster>, a: nat, m: Msg)
    requires Run(cfg, run) && a < |run| && m in run[a].net && (m.AppendReply? || m.SnapReply?) && m.dst < |run[a].nodes|
    ensures BooksTrue(run[a], m.dst)
    ensures BooksTrue(Do(cfg, run[a], Receive(m)), m.dst) <==> TrueReply(run[a], m)
    ensures FreshReply(run[a].nodes[m.dst], m) ==> TrueReply(run[a], m)
  {
    var hs := RunOk(cfg, run);
    CountNodes(cfg, run[a], hs[a]);
    BooksAlwaysTrue(cfg, run, hs, a, m.dst);
    ReplyKeepsBooks(cfg, run[a], hs[a], m);
    if FreshReply(run[a].nodes[m.dst], m) { FreshIsTrue(cfg, run[a], hs[a], m); }
  }

  // ---- runs in which leaders hear fresh replies only -----------------------

  /** What the receiver can tell: a reply belongs to its leadership, and the two guards on requests hold. */
  ghost predicate FreshStep(c: Cluster, step: Step)
    requires Enabled(c, step)
  {
    Handles(step) ==>
      && FreshReply(c.nodes[step.m.dst], step.m)
      && ReachesLog(c.nodes[step.m.dst], step.m) && ExtendsSnapshot(c.nodes[step.m.dst], step.m)
  }

  ghost predicate FreshNext(cfg: Config, c: Cluster, c': Cluster) {
    exists step :: Enabled(c, step) && FreshStep(c, step) && c' == Do(cfg, c, step)
  }

  ghost predicate FreshAt(cfg: Config, run: seq<Cluster>, k: nat) {
    k + 1 < |run| ==> FreshNext(cfg, run[k], run[k + 1])
  }

  ghost predicate FreshRun(cfg: Config, run: seq<Cluster>) {
    |run| > 0 && Init(cfg, run[0]) && forall k: nat :: FreshAt(cfg, run, k)
  }

  lemma FreshIsNext(cfg: Config, c: Cluster, h: Hist, c': Cluster)
    requires Inv(cfg, c, h) && FreshNext(cfg, c, c')
    ensures Next(cfg, c, c')
  {
    var step :| Enabled(c, step) && FreshStep(c, step) && c' == Do(cfg, c, step);
    if Handles(step) && (step.m.AppendReply? || step.m.SnapReply?) { FreshIsTrue(cfg, c, h, step.m); }
    assert Allowed(c, step);
  }

  /** A run whose replies are fresh is sound. */
  lemma {:induction false} FreshRuns(cfg: Config, run: seq<Cluster>)
    requires FreshRun(cfg, run)
    ensures Run(cfg, run)
    decreases |run|
  {
    hide FreshNext, Next, Init;
    var n := |run| - 1;
    if n > 0 {
      var before := run[..n];
      forall k: nat ensures FreshAt(cfg, before, k) { assert FreshAt(cfg, run, k); }
      FreshRuns(cfg, before);
      var hs := RunOk(cfg, before);
      assert FreshAt(cfg, run, n - 1);
      FreshIsNext(cfg, before[n - 1], hs[n - 1], run[n]);
      forall k: nat ensures StepAt(cfg, run, k) { assert StepAt(cfg, before, k); }
    }
  }

  /**
   State Machine Safety from what receivers can check: every reply in the leadership that asked, no
   append from the beginning at a node that compacted its own, no snapshot that is old or of another log.
   */
  lemma FreshSafety(cfg: Config, run: seq<Cluster>, a: nat, i: Id, b: nat, j: Id)
    requires FreshRun(cfg, run) && a < |run| && b < |run| && i < |run[a].nodes| && j < |run[b].nodes|
    ensures run[a].nodes[i].app <= run[b].nodes[j].app || run[b].nodes[j].app <= run[a].nodes[i].app
  {
    FreshRuns(cfg, run);
    StateMachineSafety(cfg, run, a, i, b, j);
  }
}
