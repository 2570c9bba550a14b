/**
 A leader counts replicas only for entries of its own term. Without that test nothing would go wrong
 here: a new leader appends at once and every request carries its whole suffix, so a peer that has told
 this leadership of an older entry has told it of the leader's first own one as well. Leaders that hear
 fresh replies only would not even answer differently.
 */
module RaftTermTest {
  import opened Wrappers
  import opened Commands
  import opened RaftNode
  import opened RaftView
  import opened RaftCluster
  import opened RaftInv
  import opened RaftGrow
  import opened RaftSteps
  import opened RaftReplication
  import opened RaftHandlers
  import opened RaftDelivery
  import opened RaftSafety
  import opened RaftWaiters
  import opened RaftReplies
  import opened RaftSlips

  // ---- what leaders send ---------------------------------------------------

  /** Every append carries the sender's log to its end, every snapshot is the sender's own. */
  ghost predicate SendsWhole(nd: Node, sent: set<Msg>) {
    forall m | m in sent && (m.AppendReq? || m.SnapReq?) ::
      && nd.role == Leader && m.src == nd.id && m.term == nd.currentTerm
      && if m.AppendReq? then m.prevLogIndex + |m.entries| == LastIndex(nd) else nd.snapshot == Some(m.snap)
  }

  lemma ReplicateSends(cfg: Config, nd: Node, f: seq<Entry>)
    requires View(nd, f)
    ensures SendsWhole(Replicate(cfg, nd).node, Replicate(cfg, nd).sent) && View(Replicate(cfg, nd).node, f)
  {
    if nd.role == Leader {
      var out := Replicate(cfg, nd);
      LastView(nd, f);
      forall m | m in out.sent ensures m.AppendReq? ==> m.prevLogIndex + |m.entries| == |f| {
        if m.AppendReq? {
          var p :| p in Peers(cfg, nd.id) && !NeedsSnapshot(nd, p) && m == AppendFor(nd, p);
          AppendForShape(nd, f, p);
        }
      }
    }
  }

  /** After its own entry the leader's log ends in its own term. */
  lemma AppendLocalSends(cfg: Config, nd: Node, f: seq<Entry>, cmd: Command)
    requires View(nd, f) && nd.currentTerm > 0 && nd.role == Leader
    ensures var out := AppendLocal(cfg, nd, cmd);
            SendsWhole(out.node, out.sent) && View(out.node, f + [Entry(nd.currentTerm, |f| + 1, cmd)])
  {
    hide Replicate, ApplyOne, View;
    var f1 := f + [Entry(nd.currentTerm, |f| + 1, cmd)];
    AppendView(nd, f, cmd);
    LastView(nd, f);
    hide LastIndex;
    if Quorum(cfg) == 1 {
      ApplyCommittedView(cfg, Append(nd, cmd).(commitIndex := LastIndex(nd) + 1), f1);
    } else {
      ReplicateSends(cfg, Append(nd, cmd), f1);
    }
  }

  /** What a node that has just become leader looks like. */
  ghost predicate JustLed(nd: Node, nd': Node) {
    nd.role != Leader && nd'.role == Leader ==>
      && LastIndex(nd') > 0 && LastTerm(nd') == nd'.currentTerm
      && (nd'.currentTerm > nd.currentTerm || (nd.role == Candidate && nd'.currentTerm == nd.currentTerm))
  }

  lemma BecomeLeaderSends(cfg: Config, nd: Node, f: seq<Entry>)
    requires View(nd, f) && nd.currentTerm > 0 && nd.role == Candidate
    ensures var out := BecomeLeader(cfg, nd);
            SendsWhole(out.node, out.sent) && JustLed(nd, out.node)
  {
    hide AppendLocal, Replicate;
    var f1 := f + [Entry(nd.currentTerm, |f| + 1, Noop)];
    var out1 := AppendLocal(cfg, Lead(cfg, nd), Noop);
    AppendLocalSends(cfg, Lead(cfg, nd), f, Noop);
    AppendLocalStands(cfg, Lead(cfg, nd), Noop);
    ReplicateSends(cfg, out1.node, f1);
    ReplicateKeeps(cfg, out1.node);
    LastView(out1.node, f1);
    LastView(Replicate(cfg, out1.node).node, f1);
  }

  lemma AppendLocalStands(cfg: Config, nd: Node, cmd: Command)
    requires nd.role == Leader
    ensures var nd' := AppendLocal(cfg, nd, cmd).node;
            nd'.role == Leader && nd'.currentTerm == nd.currentTerm && nd'.id == nd.id
  {
    ApplyStands(cfg, Append(nd, cmd).(commitIndex := LastIndex(nd) + 1));
  }

  lemma ReceiveSends(cfg: Config, nd: Node, f: seq<Entry>, m: Msg)
    requires View(nd, f) && (nd.role == Candidate ==> nd.currentTerm > 0)
    ensures var out := OnMsg(cfg, nd, m); SendsWhole(out.node, out.sent) && JustLed(nd, out.node)
  {
    hide BecomeLeader, LastIndex, LastTerm;
    match m {
      case VoteReply(_, _, _, _, _) =>
        var nd1 := nd.(granted := nd.granted + {m.src});
        if nd.role == Candidate { BecomeLeaderSends(cfg, nd1, f); }
      case AppendReq(_, _, _, _, _, _, _) => RequestLeads(cfg, nd, m);
      case AppendReply(_, _, _, _, _, _, _, _) => ReplyLeads(cfg, nd, m);
      case _ =>
    }
  }

  lemma ActSends(cfg: Config, nd: Node, f: seq<Entry>, step: Step)
    requires View(nd, f) && (nd.role != Follower ==> nd.currentTerm > 0)
    requires step.Timeout? ==> nd.role != Leader
    ensures var out := Act(cfg, nd, step); SendsWhole(out.node, out.sent) && JustLed(nd, out.node)
  {
    hide AppendLocal, Replicate, BecomeLeader, OnMsg, LastIndex, LastTerm;
    match step {
      case Timeout(_) => BecomeLeaderSends(cfg, Stand(nd), f);
      case Propose(_, cmd) =>
        if nd.role == Leader {
          AppendLocalSends(cfg, nd, f, cmd);
          LastView(AppendLocal(cfg, nd, cmd).node, f + [Entry(nd.currentTerm, |f| + 1, cmd)]);
        }
      case Heartbeat(_) =>
        ReplicateSends(cfg, nd, f);
        ReplicateKeeps(cfg, nd);
      case Receive(m) => ReceiveSends(cfg, nd, f, m);
      case _ =>
    }
  }

  ghost predicate NoReplies(sent: set<Msg>) {
    forall m | m in sent :: !m.AppendReply? && !m.SnapReply?
  }

  lemma ReplicateAsks(cfg: Config, nd: Node)
    ensures NoReplies(Replicate(cfg, nd).sent)
  {
    hide NeedsSnapshot;
  }

  lemma AppendLocalAsks(cfg: Config, nd: Node, cmd: Command)
    ensures NoReplies(AppendLocal(cfg, nd, cmd).sent)
  {
    hide Replicate;
    ReplicateAsks(cfg, Append(nd, cmd));
  }

  lemma BecomeLeaderAsks(cfg: Config, nd: Node)
    ensures NoReplies(BecomeLeader(cfg, nd).sent)
  {
    hide Replicate, AppendLocal;
    AppendLocalAsks(cfg, Lead(cfg, nd), Noop);
    ReplicateAsks(cfg, AppendLocal(cfg, Lead(cfg, nd), Noop).node);
  }

  /** A reply claims what its request carried. */
  ghost predicate RepliesCarry(step: Step, sent: set<Msg>) {
    forall m | m in sent && (m.AppendReply? || m.SnapReply?) ::
      && step.Receive? && m.dst == step.m.src
      && (m.AppendReply? ==>
            && step.m.AppendReq? && m.reqTerm == step.m.term
            && Claim(m) == step.m.prevLogIndex + |step.m.entries|)
      && (m.SnapReply? ==> step.m.SnapReq? && m.reqTerm == step.m.term && m.index == step.m.snap.index)
  }

  lemma ActCarries(cfg: Config, nd: Node, step: Step)
    ensures RepliesCarry(step, Act(cfg, nd, step).sent)
  {
    hide Replicate, AppendLocal, BecomeLeader, HandleAppend, OnAppendReply;
    BecomeLeaderAsks(cfg, Stand(nd));
    ReplicateAsks(cfg, nd);
    if step.Propose? { AppendLocalAsks(cfg, nd, step.cmd); }
    if step.Receive? && step.m.VoteReply? { BecomeLeaderAsks(cfg, nd.(granted := nd.granted + {step.m.src})); }
    if step.Receive? && step.m.AppendReq? { AnswerCarries(cfg, nd, step.m); }
  }

  lemma AnswerCarries(cfg: Config, nd: Node, m: Msg)
    requires m.AppendReq?
    ensures forall r | r in HandleAppend(cfg, nd, m).sent ::
              r.AppendReply? && r.dst == m.src && r.reqTerm == m.term && Claim(r) == m.prevLogIndex + |m.entries|
  {
    hide LearnCommit, Merge, PrevMatches, ConflictIndex, Heed;
  }

  /** Everything that matters of what a node makes of a step, with the test for the current term or without it. */
  ghost predicate Proper(nd: Node, step: Step, out: Out) {
    && LeadsOn(nd, step, out.node) && Believed(nd, step, out.node)
    && SendsWhole(out.node, out.sent) && JustLed(nd, out.node) && RepliesCarry(step, out.sent)
  }

  lemma ActProper(cfg: Config, c: Cluster, h: Hist, step: Step)
    requires Inv(cfg, c, h) && Enabled(c, step)
    ensures Proper(c.nodes[Actor(step)], step, Act(cfg, c.nodes[Actor(step)], step))
  {
    var i := Actor(step);
    CountNodes(cfg, c, h);
    InvActs(cfg, c, h, i);
    ViewOf(cfg, c, h, i);
    hide Act, Inv, LeadsOn, Believed, SendsWhole, JustLed, RepliesCarry;
    ActLeads(cfg, c.nodes[i], h.full[i], step);
    ActBelieves(cfg, c.nodes[i], step);
    ActSends(cfg, c.nodes[i], h.full[i], step);
    ActCarries(cfg, c.nodes[i], step);
  }

  lemma ViewOf(cfg: Config, c: Cluster, h: Hist, i: Id)
    requires Inv(cfg, c, h) && i < cfg.size
    ensures i < |h.full| && View(c.nodes[i], h.full[i])
  {
    assert NodeOk(cfg, h, i, c.nodes[i]);
  }

  // ---- what every run keeps ------------------------------------------------

  /** Entry `n` lies past the log with which the leader of term `t` began. */
  ghost predicate PastStart(h: Hist, t: nat, n: nat) {
    t in h.reign && |h.reign[t].start| < n
  }

  /** As long as node `i` leads term `t`, it has committed entry `n`. */
  ghost predicate LeaderPast(c: Cluster, i: Id, t: nat, n: nat) {
    i < |c.nodes| && c.nodes[i].role == Leader && c.nodes[i].currentTerm == t ==> n <= c.nodes[i].commitIndex
  }

  ghost predicate MsgWhole(c: Cluster, h: Hist, m: Msg) {
    match m
    case AppendReq(_, _, term, prev, _, entries, _) => PastStart(h, term, prev + |entries|)
    case AppendReply(_, _, reqTerm, _, _, _, success, _) => success ==> PastStart(h, reqTerm, Claim(m))
    case SnapReq(src, _, term, snap) => LeaderPast(c, src, term, snap.index)
    case SnapReply(_, dst, reqTerm, index, _, success) => success ==> LeaderPast(c, dst, reqTerm, index)
    case _ => true
  }

  ghost predicate NodeWhole(h: Hist, i: Id, nd: Node) {
    nd.role == Leader ==> i < |h.full| && PastStart(h, nd.currentTerm, |h.full[i]|)
  }

  ghost predicate AllWhole(c: Cluster, h: Hist) {
    && (forall i {:trigger NodeWhole(h, i, c.nodes[i])} | 0 <= i < |c.nodes| :: NodeWhole(h, i, c.nodes[i]))
    && (forall m {:trigger MsgWhole(c, h, m)} | m in c.net :: MsgWhole(c, h, m))
  }

  /** A step between two states of a run, each with its history. */
  ghost predicate StepsTo(cfg: Config, c: Cluster, h: Hist, step: Step, out: Out, c': Cluster, h': Hist) {
    && Inv(cfg, c, h) && Inv(cfg, c', h') && Grows(h, h') && Enabled(c, step)
    && Proper(c.nodes[Actor(step)], step, out) && c' == After(c, Actor(step), out)
  }

  lemma StartStays(h: Hist, h': Hist, t: nat, n: nat, n': nat)
    requires Grows(h, h') && PastStart(h, t, n) && n <= n'
    ensures PastStart(h', t, n')
  {
    assert ReignGrows(h, h', t);
  }

  /** A new leader leads a term in which nobody led. */
  lemma NewTerm(cfg: Config, h: Hist, h': Hist, i: Id, nd: Node, nd': Node, t: nat)
    requires i < |h.full| && PromisesOk(h, i, nd) && Grows(h, h')
    requires nd.role != Leader && nd'.role == Leader && JustLed(nd, nd') && t == nd'.currentTerm
    requires t in h'.reign && h'.reign[t].leader == i
    ensures t !in h.reign
  {
    assert t in h.reign ==> ReignGrows(h, h', t);
  }

  lemma LedLonger(cfg: Config, c: Cluster, h: Hist, c': Cluster, h': Hist, i: Id)
    requires Inv(cfg, c, h) && Inv(cfg, c', h') && Grows(h, h') && i < cfg.size && NodeWhole(h, i, c.nodes[i])
    requires c'.nodes[i].role == Leader && JustLed(c.nodes[i], c'.nodes[i])
    requires c.nodes[i].role == Leader ==> c'.nodes[i].currentTerm == c.nodes[i].currentTerm
    ensures i < |h'.full| && PastStart(h', c'.nodes[i].currentTerm, |h'.full[i]|)
  {
    var nd, nd' := c.nodes[i], c'.nodes[i];
    assert NodeOk(cfg, h, i, nd) && NodeOk(cfg, h', i, nd');
    var t := nd'.currentTerm;
    if nd.role == Leader {
      assert ReignGrows(h, h', t);
      StartStays(h, h', t, |h.full[i]|, |h'.full[i]|);
    } else {
      LastView(nd', h'.full[i]);
      assert ReignOk(cfg, h', t);
      var r := h'.reign[t];
      assert forall k | 0 <= k < |r.start| :: r.log[k].term < t by {
        assert forall k | 0 <= k < |r.start| :: r.log[k] == r.start[k];
      }
    }
  }

  lemma StillLeading(cfg: Config, c: Cluster, h: Hist, step: Step, out: Out, c': Cluster, h': Hist, i: Id)
    requires StepsTo(cfg, c, h, step, out, c', h') && i < cfg.size
    ensures |c.nodes| == |c'.nodes| == cfg.size && JustLed(c.nodes[i], c'.nodes[i])
    ensures c'.nodes[i].role == Leader && c.nodes[i].role == Leader ==>
              && c'.nodes[i].currentTerm == c.nodes[i].currentTerm
              && c.nodes[i].commitIndex <= c'.nodes[i].commitIndex
  {
    CountNodes(cfg, c, h);
    hide Inv, Grows;
  }

  lemma NodesWhole(cfg: Config, c: Cluster, h: Hist, step: Step, out: Out, c': Cluster, h': Hist, i: Id)
    requires StepsTo(cfg, c, h, step, out, c', h') && AllWhole(c, h) && i < cfg.size
    ensures i < |c'.nodes| && NodeWhole(h', i, c'.nodes[i])
  {
    StillLeading(cfg, c, h, step, out, c', h', i);
    assert NodeWhole(h, i, c.nodes[i]);
    hide Inv, AllWhole, Proper, JustLed;
    if c'.nodes[i].role == Leader { LedLonger(cfg, c, h, c', h', i); }
  }

  /** What was committed in a leadership stays so while it lasts; a new leadership has been told nothing. */
  lemma PastStays(
    cfg: Config, c: Cluster, h: Hist, step: Step, out: Out, c': Cluster, h': Hist, i: Id, t: nat, n: nat)
    requires StepsTo(cfg, c, h, step, out, c', h') && LeaderPast(c, i, t, n) && (n > 0 ==> t in h.reign)
    ensures LeaderPast(c', i, t, n)
  {
    hide Proper, JustLed;
    if i < |c'.nodes| && c'.nodes[i].role == Leader && c'.nodes[i].currentTerm == t {
      StillLeading(cfg, c, h, step, out, c', h', i);
      if c.nodes[i].role != Leader {
        assert NodeOk(cfg, h, i, c.nodes[i]) && NodeOk(cfg, h', i, c'.nodes[i]);
        NewTerm(cfg, h, h', i, c.nodes[i], c'.nodes[i], t);
      }
    }
  }

  lemma OldMsgWhole(cfg: Config, c: Cluster, h: Hist, step: Step, out: Out, c': Cluster, h': Hist, m: Msg)
    requires StepsTo(cfg, c, h, step, out, c', h') && AllWhole(c, h) && m in c.net
    ensures MsgWhole(c', h', m)
  {
    assert MsgOk(cfg, h, m) && MsgWhole(c, h, m);
    hide Proper, AllWhole, LeaderPast, PastStart;
    match m {
      case AppendReq(_, _, term, prev, _, entries, _) => StartStays(h, h', term, prev + |entries|, prev + |entries|);
      case AppendReply(_, _, reqTerm, _, _, _, success, _) =>
        if success { StartStays(h, h', reqTerm, Claim(m), Claim(m)); }
      case SnapReq(src, _, term, snap) => PastStays(cfg, c, h, step, out, c', h', src, term, snap.index);
      case SnapReply(src, dst, reqTerm, index, _, success) =>
        if success {
          assert (reqTerm, src) in h.ack ==> AckOk(cfg, h, reqTerm, src);
          PastStays(cfg, c, h, step, out, c', h', dst, reqTerm, index);
        }
      case _ =>
    }
  }

  lemma NewMsgWhole(cfg: Config, c: Cluster, h: Hist, step: Step, out: Out, c': Cluster, h': Hist, m: Msg)
    requires StepsTo(cfg, c, h, step, out, c', h') && AllWhole(c, h) && m in out.sent
    ensures MsgWhole(c', h', m)
  {
    hide Inv, Grows, AllWhole, LeadsOn, JustLed, Believed;
    if m.AppendReq? || m.SnapReq? {
      LeaderSends(cfg, c, h, step, out, c', h', m);
    } else if m.AppendReply? || m.SnapReply? {
      OldMsgWhole(cfg, c, h, step, out, c', h', step.m);
    }
  }

  lemma LeaderSends(cfg: Config, c: Cluster, h: Hist, step: Step, out: Out, c': Cluster, h': Hist, m: Msg)
    requires StepsTo(cfg, c, h, step, out, c', h') && AllWhole(c, h)
    requires m in out.sent && (m.AppendReq? || m.SnapReq?)
    ensures MsgWhole(c', h', m)
  {
    var i := Actor(step);
    CountNodes(cfg, c, h);
    NodesWhole(cfg, c, h, step, out, c', h', i);
    ViewOf(cfg, c', h', i);
    hide Inv, Grows, AllWhole, LeadsOn, JustLed, Believed, RepliesCarry;
    LastView(c'.nodes[i], h'.full[i]);
    SentIds(cfg, c', h', i);
  }

  lemma SentIds(cfg: Config, c: Cluster, h: Hist, i: Id)
    requires Inv(cfg, c, h) && i < cfg.size
    ensures |c.nodes| == cfg.size && c.nodes[i].id == i
  {
    assert NodeOk(cfg, h, i, c.nodes[i]);
  }

  /** Every append of a term reaches past its leader's start, and every snapshot sent is committed. */
  lemma WholeStep(cfg: Config, c: Cluster, h: Hist, step: Step, out: Out, c': Cluster, h': Hist)
    requires StepsTo(cfg, c, h, step, out, c', h') && AllWhole(c, h)
    ensures AllWhole(c', h')
  {
    CountNodes(cfg, c, h);
    assert |c'.nodes| == cfg.size && c'.net == c.net + out.sent;
    hide MsgWhole, NodeWhole, StepsTo, Inv;
    forall i | 0 <= i < |c'.nodes| ensures NodeWhole(h', i, c'.nodes[i]) {
      NodesWhole(cfg, c, h, step, out, c', h', i);
    }
    forall m | m in c'.net ensures MsgWhole(c', h', m) {
      if m in c.net {
        OldMsgWhole(cfg, c, h, step, out, c', h', m);
      } else {
        NewMsgWhole(cfg, c, h, step, out, c', h', m);
      }
    }
  }

  lemma InitWhole(cfg: Config, c: Cluster, h: Hist)
    requires Init(cfg, c)
    ensures AllWhole(c, h)
  {
    forall i | 0 <= i < |c.nodes| ensures NodeWhole(h, i, c.nodes[i]) { assert c.nodes[i] == Fresh(i); }
  }

  // ---- fresh replies: the test never decides -------------------------------

  /** What a leader counts a peer for is past its start, or committed. */
  ghost predicate CountsWhole(h: Hist, nd: Node, p: Id)
    requires p in nd.matchIndex
  {
    nd.matchIndex[p] <= nd.commitIndex || PastStart(h, nd.currentTerm, nd.matchIndex[p])
  }

  ghost predicate CountsAll(h: Hist, nd: Node) {
    nd.role == Leader ==> forall p | p in nd.matchIndex :: CountsWhole(h, nd, p)
  }

  /** A fresh reply that is believed claims entries past the start, or committed ones. */
  lemma ReplyWhole(cfg: Config, c: Cluster, h: Hist, m: Msg)
    requires Inv(cfg, c, h) && AllWhole(c, h) && m in c.net && m.dst < cfg.size
    requires (m.AppendReply? && m.success) || m.SnapReply?
    requires c.nodes[m.dst].role == Leader && m.reqTerm == c.nodes[m.dst].currentTerm >= m.term
    ensures Claim(m) <= c.nodes[m.dst].commitIndex || PastStart(h, m.reqTerm, Claim(m))
  {
    assert MsgOk(cfg, h, m) && MsgWhole(c, h, m);
  }

  lemma CountsStep(cfg: Config, c: Cluster, h: Hist, step: Step, out: Out, c': Cluster, h': Hist, i: Id)
    requires StepsTo(cfg, c, h, step, out, c', h') && AllWhole(c, h) && FreshStep(c, step)
    requires i < cfg.size && i < |c.nodes| && CountsAll(h, c.nodes[i])
    ensures i < |c'.nodes| && CountsAll(h', c'.nodes[i])
  {
    StillLeading(cfg, c, h, step, out, c', h', i);
    var nd, nd' := c.nodes[i], c'.nodes[i];
    hide Inv, AllWhole, SendsWhole, JustLed, RepliesCarry, Grows, PastStart;
    if nd.role == Leader && nd'.role == Leader {
      forall p | p in nd'.matchIndex ensures CountsWhole(h', nd', p) {
        if p in nd.matchIndex && nd'.matchIndex[p] == nd.matchIndex[p] {
          assert CountsWhole(h, nd, p);
          CountStays(h, h', nd, nd.matchIndex[p]);
        } else {
          ReplyWhole(cfg, c, h, step.m);
          CountStays(h, h', nd, Claim(step.m));
        }
      }
    }
  }

  lemma CountStays(h: Hist, h': Hist, nd: Node, n: nat)
    requires Grows(h, h') && (n <= nd.commitIndex || PastStart(h, nd.currentTerm, n))
    ensures n <= nd.commitIndex || PastStart(h', nd.currentTerm, n)
  {
    if n > nd.commitIndex { StartStays(h, h', nd.currentTerm, n, n); }
  }

  lemma {:induction false} FreshCounts(cfg: Config, run: seq<Cluster>, hs: seq<Hist>, a: nat)
    requires FreshRun(cfg, run) && Trace(cfg, run, hs) && a < |run|
    ensures AllWhole(run[a], hs[a]) && forall i | 0 <= i < |run[a].nodes| :: CountsAll(hs[a], run[a].nodes[i])
  {
    hide Inv, Grows, Do, Init, AllWhole, CountsAll, FreshStep;
    if a == 0 {
      InitWhole(cfg, run[0], hs[0]);
      InitCounts(cfg, run[0], hs[0]);
    } else {
      FreshCounts(cfg, run, hs, a - 1);
      assert FreshAt(cfg, run, a - 1);
      var step :| Enabled(run[a - 1], step) && FreshStep(run[a - 1], step) && run[a] == Do(cfg, run[a - 1], step);
      assert Grows(hs[a - 1], hs[a]);
      CountsNext(cfg, run[a - 1], hs[a - 1], step, run[a], hs[a]);
    }
  }

  lemma InitCounts(cfg: Config, c: Cluster, h: Hist)
    requires Init(cfg, c)
    ensures forall i | 0 <= i < |c.nodes| :: CountsAll(h, c.nodes[i])
  {
    forall i | 0 <= i < |c.nodes| ensures CountsAll(h, c.nodes[i]) { assert c.nodes[i] == Fresh(i); }
  }

  lemma CountsNext(cfg: Config, c: Cluster, h: Hist, step: Step, c': Cluster, h': Hist)
    requires Inv(cfg, c, h) && Inv(cfg, c', h') && Grows(h, h') && AllWhole(c, h)
    requires Enabled(c, step) && FreshStep(c, step) && c' == Do(cfg, c, step)
    requires forall i | 0 <= i < |c.nodes| :: CountsAll(h, c.nodes[i])
    ensures AllWhole(c', h') && forall i | 0 <= i < |c'.nodes| :: CountsAll(h', c'.nodes[i])
  {
    var out := Act(cfg, c.nodes[Actor(step)], step);
    ActProper(cfg, c, h, step);
    CountNodes(cfg, c, h);
    CountNodes(cfg, c', h');
    assert StepsTo(cfg, c, h, step, out, c', h');
    hide Act, Inv, StepsTo, CountsAll;
    WholeStep(cfg, c, h, step, out, c', h');
    forall i | 0 <= i < |c'.nodes| ensures CountsAll(h', c'.nodes[i]) {
      CountsStep(cfg, c, h, step, out, c', h', i);
    }
  }

  /** Between the commit index and the end of the starting log, a peer is counted for all or nothing. */
  lemma SameHolders(h: Hist, nd: Node, n: nat)
    requires CountsAll(h, nd) && nd.role == Leader && nd.currentTerm in h.reign
    requires nd.commitIndex < n <= |h.reign[nd.currentTerm].start|
    ensures Replicas(nd, n) == Replicas(nd, |h.reign[nd.currentTerm].start| + 1)
  {
    var b := |h.reign[nd.currentTerm].start|;
    forall p | p in Holders(nd, n) ensures p in Holders(nd, b + 1) { assert CountsWhole(h, nd, p); }
    assert Holders(nd, n) == Holders(nd, b + 1);
  }

  lemma {:induction false} ScansAgree(cfg: Config, h: Hist, i: Id, nd: Node, n: nat)
    requires NodeOk(cfg, h, i, nd) && nd.role == Leader && AcksOk(cfg, h) && ReignOk(cfg, h, nd.currentTerm)
    requires CountsAll(h, nd) && n <= |h.full[i]|
    requires var b := |h.reign[nd.currentTerm].start|;
             nd.commitIndex < n <= b ==> Replicas(nd, b + 1) < Quorum(cfg)
    ensures AnyTerm(cfg, nd, n) == Committable(cfg, nd, n)
  {
    hide TermAt, Committed, LogOk, ElectorOk, PromisesOk;
    if n > nd.commitIndex {
      TermAtView(nd, h.full[i], n);
      var r := h.reign[nd.currentTerm];
      assert r.log[n - 1] == h.full[i][n - 1];
      if n <= |r.start| { SameHolders(h, nd, n); }
      if !(TermAt(nd, n) == Some(nd.currentTerm) && Replicas(nd, n) >= Quorum(cfg)) {
        ScansAgree(cfg, h, i, nd, n - 1);
      }
    }
  }

  /** What a leader does with a success, once its books are updated: with the test and without it the same. */
  lemma AdvanceAgrees(cfg: Config, h: Hist, i: Id, nd: Node)
    requires NodeOk(cfg, h, i, nd) && nd.role == Leader && HistOk(cfg, h)
    requires NodeWhole(h, i, nd) && CountsAll(h, nd)
    ensures AdvanceAnyTerm(cfg, nd) == AdvanceCommit(cfg, nd)
  {
    assert ReignOk(cfg, h, nd.currentTerm);
    LastView(nd, h.full[i]);
    ScansAgree(cfg, h, i, nd, |h.full[i]|);
  }

  /**
   In any run in which leaders hear only replies to their own leadership, the test for the current
   term changes no answer to any reply: the very next commit is the same without it.
   */
  lemma TermTestNeverDecides(cfg: Config, run: seq<Cluster>, a: nat, m: Msg)
    requires FreshRun(cfg, run) && a < |run| && m in run[a].net && m.AppendReply? && m.dst < |run[a].nodes|
    requires FreshReply(run[a].nodes[m.dst], m)
    ensures OnReplyAnyTerm(cfg, run[a].nodes[m.dst], m) == OnAppendReply(cfg, run[a].nodes[m.dst], m)
  {
    FreshRuns(cfg, run);
    var hs := RunOk(cfg, run);
    FreshCounts(cfg, run, hs, a);
    CountNodes(cfg, run[a], hs[a]);
    Answers(cfg, run[a], hs[a], m);
  }

  lemma Answers(cfg: Config, c: Cluster, h: Hist, m: Msg)
    requires Inv(cfg, c, h) && AllWhole(c, h) && m in c.net && m.AppendReply? && m.dst < cfg.size && m.dst < |c.nodes|
    requires FreshReply(c.nodes[m.dst], m) && CountsAll(h, c.nodes[m.dst])
    ensures OnReplyAnyTerm(cfg, c.nodes[m.dst], m) == OnAppendReply(cfg, c.nodes[m.dst], m)
  {
    hide AdvanceCommit, AdvanceAnyTerm;
    var i, nd := m.dst, c.nodes[m.dst];
    assert NodeOk(cfg, h, i, nd) && NodeWhole(h, i, nd) && MsgOk(cfg, h, m);
    if Believes(nd, m) {
      ReplyWhole(cfg, c, h, m);
      BelievingOk(cfg, h, i, nd, m);
      forall p | p in Believing(nd, m).matchIndex ensures CountsWhole(h, Believing(nd, m), p) {
        if p in nd.matchIndex { assert CountsWhole(h, nd, p); }
      }
      hide NodeOk, RoleOk, View, LogOk, PromisesOk, Committed;
      AdvanceAgrees(cfg, h, i, Believing(nd, m));
    }
  }

  // ---- any true replies: nothing goes wrong without the test ---------------

  /** Peers a leader counts for an uncommitted entry have told it of its first own entry too. */
  lemma CountedHold(cfg: Config, c: Cluster, h: Hist, i: Id, p: Id, n: nat)
    requires Inv(cfg, c, h) && AllWhole(c, h) && i < cfg.size && i < |c.nodes| && c.nodes[i].role == Leader
    requires Told(c.net, p, i, c.nodes[i].currentTerm, n) && c.nodes[i].commitIndex < n
    requires c.nodes[i].currentTerm in h.reign
    ensures Ack(h, c.nodes[i].currentTerm, p) >= Max(n, |h.reign[c.nodes[i].currentTerm].start| + 1)
  {
    var m :| m in c.net && Tells(m, p, i, c.nodes[i].currentTerm, n);
    assert MsgOk(cfg, h, m) && MsgWhole(c, h, m);
  }

  /** A quorum by such books stores the leader's first own entry, whatever entry was counted. */
  lemma CountedCommits(cfg: Config, c: Cluster, h: Hist, i: Id, nd: Node, n: nat)
    requires Inv(cfg, c, h) && AllWhole(c, h) && i < cfg.size && i < |c.nodes| && c.nodes[i].role == Leader
    requires NodeOk(cfg, h, i, nd) && nd.role == Leader && nd.currentTerm == c.nodes[i].currentTerm
    requires nd.commitIndex == c.nodes[i].commitIndex < n <= |h.full[i]| && Replicas(nd, n) >= Quorum(cfg)
    requires forall p | p in nd.matchIndex && nd.matchIndex[p] > 0 ::
             Told(c.net, p, i, nd.currentTerm, nd.matchIndex[p])
    ensures Committed(cfg, h, h.full[i], n, nd.currentTerm)
  {
    var t := nd.currentTerm;
    assert NodeWhole(h, i, c.nodes[i]) && ReignOk(cfg, h, t);
    var k := Max(n, |h.reign[t].start| + 1);
    BooksHold(cfg, h, i, nd);
    hide NodeOk, Inv, AllWhole, Committed, ReignOk;
    forall p | p in Holders(nd, n) ensures Ack(h, t, p) >= k {
      CountedHold(cfg, c, h, i, p, nd.matchIndex[p]);
    }
    HoldersAck(cfg, h, i, nd, n, k);
    OwnEntryCommits(cfg, h, h.full[i], t, n, k);
  }

  lemma BooksHold(cfg: Config, h: Hist, i: Id, nd: Node)
    requires NodeOk(cfg, h, i, nd) && nd.role == Leader
    ensures nd.matchIndex.Keys == Peers(cfg, i) && Ack(h, nd.currentTerm, i) == |h.full[i]|
    ensures nd.currentTerm in h.reign && h.reign[nd.currentTerm].log == h.full[i]
  {
  }

  lemma HoldersAck(cfg: Config, h: Hist, i: Id, nd: Node, n: nat, k: nat)
    requires nd.matchIndex.Keys == Peers(cfg, i) && i < cfg.size && 0 < k <= Ack(h, nd.currentTerm, i)
    requires forall p | p in Holders(nd, n) :: Ack(h, nd.currentTerm, p) >= k
    ensures |Ackers(cfg, h, nd.currentTerm, k)| >= Replicas(nd, n)
  {
    MembersAre(cfg.size);
    var held := Holders(nd, n);
    forall p | p in held + {i} ensures p in Ackers(cfg, h, nd.currentTerm, k) {}
    assert i !in held && |held + {i}| == |held| + 1;
    Subset(held + {i}, Ackers(cfg, h, nd.currentTerm, k));
  }

  lemma OwnEntryCommits(cfg: Config, h: Hist, f: seq<Entry>, t: nat, n: nat, k: nat)
    requires AcksOk(cfg, h) && t in h.reign && ReignOk(cfg, h, t) && h.reign[t].log == f
    requires n <= k <= |f| && |h.reign[t].start| < k && |Ackers(cfg, h, t, k)| >= Quorum(cfg)
    ensures Committed(cfg, h, f, n, t)
  {
    assert CommitWitness(cfg, h, f, n, t, k);
  }

  ghost predicate ToldAll(c: Cluster, i: Id, nd: Node) {
    forall p | p in nd.matchIndex && nd.matchIndex[p] > 0 :: Told(c.net, p, i, nd.currentTerm, nd.matchIndex[p])
  }

  /** A believed true reply leaves the books true. */
  lemma BelievingTold(c: Cluster, i: Id, m: Msg)
    requires i < |c.nodes| && BooksTrue(c, i) && m.AppendReply? && m.dst == i && Believes(c.nodes[i], m)
             && TrueReply(c, m)
    ensures ToldAll(c, i, Believing(c.nodes[i], m))
  {
  }

  lemma {:induction false} AnyTermIs(cfg: Config, nd: Node, n: nat)
    ensures match AnyTerm(cfg, nd, n)
            case None => true
            case Some(k) => nd.commitIndex < k <= n && Replicas(nd, k) >= Quorum(cfg)
  {
    if n > nd.commitIndex { AnyTermIs(cfg, nd, n - 1); }
  }

  lemma CountsAnyOk(cfg: Config, c: Cluster, h: Hist, m: Msg)
    requires Inv(cfg, c, h) && AllWhole(c, h) && m in c.net && m.AppendReply? && m.dst < cfg.size && m.dst < |c.nodes|
    requires BooksTrue(c, m.dst) && TrueReply(c, m) && Believes(c.nodes[m.dst], m)
    ensures NodeOk(cfg, h, m.dst, Believing(c.nodes[m.dst], m))
    ensures NodeOk(cfg, h, m.dst, CountsAny(cfg, Believing(c.nodes[m.dst], m)))
  {
    var i, nd := m.dst, c.nodes[m.dst];
    var nd1 := Believing(nd, m);
    assert NodeOk(cfg, h, i, nd);
    ClaimAcked(cfg, c, h, m);
    BelievingOk(cfg, h, i, nd, m);
    BelievingTold(c, i, m);
    AnyTermIs(cfg, nd1, LastIndex(nd1));
    LastView(nd1, h.full[i]);
    hide NodeOk, Inv, AllWhole, BooksTrue, TrueReply, AnyTerm, Committed;
    match AnyTerm(cfg, nd1, LastIndex(nd1)) {
      case None =>
      case Some(n) =>
        CountedCommits(cfg, c, h, i, nd1, n);
        KnowsOk(cfg, h, i, nd1, n);
    }
  }

  lemma AppliedOk(cfg: Config, h: Hist, i: Id, nd: Node)
    requires NodeOk(cfg, h, i, nd)
    ensures NodeOk(cfg, h, i, ApplyCommitted(cfg, nd))
  {
    ApplyCommittedView(cfg, nd, h.full[i]);
    SameCore(cfg, h, i, nd, ApplyCommitted(cfg, nd));
  }

  lemma AnyReplyOk(cfg: Config, c: Cluster, h: Hist, m: Msg)
    requires Inv(cfg, c, h) && AllWhole(c, h) && m in c.net && m.AppendReply? && m.dst < cfg.size && m.dst < |c.nodes|
    requires BooksTrue(c, m.dst) && TrueReply(c, m)
    ensures Inv(cfg, SetNode(c, m.dst, OnReplyAnyTerm(cfg, c.nodes[m.dst], m)), h)
  {
    var i, nd := m.dst, c.nodes[m.dst];
    hide NodeOk, ApplyCommitted, CountsAny, Believing, OnAppendReply, AllWhole, BooksTrue, TrueReply;
    if Believes(nd, m) {
      CountsAnyOk(cfg, c, h, m);
      AppliedOk(cfg, h, i, CountsAny(cfg, Believing(nd, m)));
      Local(cfg, c, h, i, OnReplyAnyTerm(cfg, nd, m));
    } else {
      OnAppendReplyOk(cfg, c, h, m);
    }
  }

  lemma AnyReplyProper(cfg: Config, nd: Node, m: Msg)
    requires m.AppendReply?
    ensures Proper(nd, Receive(m), Out(OnReplyAnyTerm(cfg, nd, m), {}))
  {
    hide OnAppendReply, ApplyCommitted;
    if Believes(nd, m) {
      var nd1 := Believing(nd, m);
      AnyTermIs(cfg, nd1, LastIndex(nd1));
      ApplyStands(cfg, CountsAny(cfg, nd1));
    } else {
      ReplyLeads(cfg, nd, m);
      Unbelieved(cfg, nd, m);
    }
  }

  lemma Unbelieved(cfg: Config, nd: Node, m: Msg)
    requires m.AppendReply? && !Believes(nd, m)
    ensures OnAppendReply(cfg, nd, m).role == Leader ==> nd.role == Leader && !m.success
  {
  }

  lemma DeadProper(nd: Node, step: Step, dead: Node)
    ensures Proper(nd, step, Out(Restart(dead), {}))
  {
  }

  // ---- every run without the test ------------------------------------------

  ghost predicate Strong(cfg: Config, c: Cluster, h: Hist) {
    Inv(cfg, c, h) && AllWhole(c, h) && forall i | 0 <= i < |c.nodes| :: BooksTrue(c, i)
  }

  /** What a step leads to without the test: still as it should be. */
  lemma SlipOk(cfg: Config, c: Cluster, h: Hist, step: Step) returns (h': Hist)
    requires Strong(cfg, c, h) && Enabled(c, step) && Lets(NoTermTest, c, step)
    ensures var out := SlipAct(cfg, NoTermTest, c.nodes[Actor(step)], step);
            Inv(cfg, After(c, Actor(step), out), h') && Grows(h, h') && Proper(c.nodes[Actor(step)], step, out)
  {
    var i := Actor(step);
    var nd := c.nodes[i];
    CountNodes(cfg, c, h);
    h' := h;
    SelfGrows(h);
    var out := SlipAct(cfg, NoTermTest, nd, step);
    Later(c, i, out.node, out);
    hide Inv, AllWhole, BooksTrue, Proper, OnReplyAnyTerm, CountsAny, Believing, Restart, DiesAfter;
    if step.Receive? && step.m.AppendReply? {
      AnyReplyOk(cfg, c, h, step.m);
      AnyReplyProper(cfg, nd, step.m);
    } else if step.CrashApplying? && step.m.AppendReply? && Believes(nd, step.m) {
      AnyLoopOk(cfg, c, h, step);
      DeadProper(nd, step, DiesAfter(cfg, CountsAny(cfg, Believing(nd, step.m)), step.n, step.saved));
    } else {
      assert out == Act(cfg, nd, step);
      assert Do(cfg, c, step) == After(c, i, out);
      h' := StepOk(cfg, c, h, step);
      ActProper(cfg, c, h, step);
    }
  }

  lemma AnyLoopOk(cfg: Config, c: Cluster, h: Hist, step: Step)
    requires Strong(cfg, c, h) && Enabled(c, step) && Lets(NoTermTest, c, step)
    requires step.CrashApplying? && step.m.AppendReply? && Believes(c.nodes[step.m.dst], step.m)
    ensures var nd1 := CountsAny(cfg, Believing(c.nodes[step.m.dst], step.m));
            Inv(cfg, SetNode(c, step.m.dst, Restart(DiesAfter(cfg, nd1, step.n, step.saved))), h)
  {
    var i, m := step.m.dst, step.m;
    var nd1 := CountsAny(cfg, Believing(c.nodes[i], m));
    CountNodes(cfg, c, h);
    hide AllWhole, BooksTrue, CountsAny, Believing, Restart, DiesAfter, NodeOk;
    CountsAnyOk(cfg, c, h, m);
    Local(cfg, c, h, i, nd1);
    DiesOk(cfg, c, h, i, nd1, step.n, step.saved);
  }

  lemma StrongStep(cfg: Config, c: Cluster, h: Hist, c': Cluster) returns (h': Hist)
    requires Strong(cfg, c, h) && SlipNext(cfg, NoTermTest, c, c')
    ensures Strong(cfg, c', h') && Grows(h, h')
  {
    hide SlipAct, Proper, AllWhole, BooksTrue, Inv, Lets;
    var step :| Enabled(c, step) && Lets(NoTermTest, c, step)
                && c' == After(c, Actor(step), SlipAct(cfg, NoTermTest, c.nodes[Actor(step)], step));
    var out := SlipAct(cfg, NoTermTest, c.nodes[Actor(step)], step);
    h' := SlipOk(cfg, c, h, step);
    CountNodes(cfg, c, h);
    WholeStep(cfg, c, h, step, out, c', h');
    forall i | 0 <= i < |c'.nodes| ensures BooksTrue(c', i) { BooksSlip(cfg, c, h, step, out, i); }
  }

  lemma BooksSlip(cfg: Config, c: Cluster, h: Hist, step: Step, out: Out, i: Id)
    requires Strong(cfg, c, h) && Enabled(c, step) && Lets(NoTermTest, c, step) && i < |c.nodes|
    requires Proper(c.nodes[Actor(step)], step, out)
    ensures BooksTrue(After(c, Actor(step), out), i)
  {
    hide AllWhole, BooksTrue, Inv, LeadsOn, Believed;
    CountNodes(cfg, c, h);
    BooksStep(cfg, c, h, step, out, i);
  }

  lemma {:induction false} StrongAlways(cfg: Config, run: seq<Cluster>, n: nat) returns (hs: seq<Hist>)
    requires SlipRun(cfg, NoTermTest, run) && n < |run|
    ensures |hs| == n + 1 && forall k | 0 <= k <= n :: Strong(cfg, run[k], hs[k])
    ensures forall j, k | 0 <= j <= k <= n :: Grows(hs[j], hs[k])
  {
    hide Strong, Grows, SlipNext, Init;
    if n == 0 {
      var h := StrongInit(cfg, run[0]);
      SelfGrows(h);
      hs := [h];
    } else {
      hs := StrongAlways(cfg, run, n - 1);
      assert SlipAt(cfg, NoTermTest, run, n - 1);
      var h := StrongStep(cfg, run[n - 1], hs[n - 1], run[n]);
      SelfGrows(h);
      forall j | 0 <= j < n ensures Grows(hs[j], h) { GrowsTrans(hs[j], hs[n - 1], h); }
      hs := hs + [h];
    }
  }

  lemma StrongInit(cfg: Config, c: Cluster) returns (h: Hist)
    requires Init(cfg, c)
    ensures Strong(cfg, c, h)
  {
    h := InitOk(cfg, c);
    InitWhole(cfg, c, h);
    forall i | 0 <= i < |c.nodes| ensures BooksTrue(c, i) { FreshBooks(c, i); }
  }

  /**
   State Machine Safety does not depend on the test for the current term: it holds of every run in which
   leaders count replicas for entries of any term, replies late or not.
   */
  lemma SafeWithoutTermTest(cfg: Config, run: seq<Cluster>, a: nat, i: Id, b: nat, j: Id)
    requires SlipRun(cfg, NoTermTest, run)
    requires a < |run| && b < |run| && i < |run[a].nodes| && j < |run[b].nodes|
    ensures run[a].nodes[i].app <= run[b].nodes[j].app || run[b].nodes[j].app <= run[a].nodes[i].app
  {
    var last := if a <= b then b else a;
    var hs := StrongAlways(cfg, run, last);
    assert Strong(cfg, run[a], hs[a]) && Strong(cfg, run[b], hs[b]) && Strong(cfg, run[last], hs[last]);
    assert Grows(hs[a], hs[last]) && Grows(hs[b], hs[last]);
    AppliedAgree(cfg, run[a], hs[a], i, run[b], hs[b], j, hs[last]);
  }
}
