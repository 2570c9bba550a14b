/** The small changes a handler is made of, each shown to keep the invariant. */
module RaftSteps {
  import opened Wrappers
  import opened RaftNode
  import opened RaftView
  import opened RaftCluster
  import opened RaftInv
  import opened RaftGrow

  // ---- frames --------------------------------------------------------------

  function SetNode(c: Cluster, i: Id, nd: Node): Cluster
    requires i < |c.nodes|
  {
    c.(nodes := c.nodes[i := nd])
  }

  lemma Send(cfg: Config, c: Cluster, h: Hist, msgs: set<Msg>)
    requires Inv(cfg, c, h) && forall m | m in msgs :: MsgOk(cfg, h, m)
    ensures Inv(cfg, c.(net := c.net + msgs), h)
  {
  }

  lemma Local(cfg: Config, c: Cluster, h: Hist, i: Id, nd: Node)
    requires Inv(cfg, c, h) && i < cfg.size && NodeOk(cfg, h, i, nd)
    ensures Inv(cfg, SetNode(c, i, nd), h)
  {
  }

  /** History grew, and only what concerns node i was added. */
  ghost predicate OnlyFor(h: Hist, h': Hist, i: Id) {
    && |h'.full| == |h.full|
    && (forall j | 0 <= j < |h.full| && j != i :: h'.full[j] == h.full[j])
    && (forall t, v | (t, v) in h'.ballots && v != i :: (t, v) in h.ballots)
    && (forall t, v | (t, v) in h'.ack && v != i :: (t, v) in h.ack && h'.ack[(t, v)] == h.ack[(t, v)])
    && (forall t | t in h'.reign && h'.reign[t].leader != i :: t in h.reign && h'.reign[t] == h.reign[t])
  }

  lemma OtherNodeGrows(cfg: Config, h: Hist, h': Hist, i: Id, j: Id, nd: Node)
    requires Grows(h, h') && OnlyFor(h, h', i) && i != j && NodeOk(cfg, h, j, nd)
    ensures NodeOk(cfg, h', j, nd)
  {
    LogGrows(h, h', h.full[j]);
    CommittedGrows(cfg, h, h', h.full[j], h.full[j], nd.commitIndex, nd.currentTerm, nd.currentTerm);
    forall t0 | (t0, j) in h'.ack
      ensures t0 in h'.reign && h'.ack[(t0, j)] <= |h'.reign[t0].log| && KeptAll(h', h'.full[j], t0, j, nd.currentTerm)
    {
      KeptAllGrows(h, h', h.full[j], t0, j, nd.currentTerm);
    }
    if nd.role.Leader? {
      assert ReignGrows(h, h', nd.currentTerm);
      assert h'.reign[nd.currentTerm] == h.reign[nd.currentTerm];
      forall p | p in nd.matchIndex ensures nd.matchIndex[p] <= Ack(h', nd.currentTerm, p) {
        if (nd.currentTerm, p) in h.ack { assert AckGrows(h, h', nd.currentTerm, p); }
      }
    }
  }

  lemma Record(cfg: Config, c: Cluster, h: Hist, h': Hist, i: Id, nd: Node)
    requires Inv(cfg, c, h) && i < cfg.size
    requires Grows(h, h') && OnlyFor(h, h', i) && HistOk(cfg, h') && NodeOk(cfg, h', i, nd)
    ensures Inv(cfg, SetNode(c, i, nd), h')
  {
    forall j | 0 <= j < cfg.size ensures NodeOk(cfg, h', j, SetNode(c, i, nd).nodes[j]) {
      if j != i { OtherNodeGrows(cfg, h, h', i, j, c.nodes[j]); }
    }
    forall m | m in c.net ensures MsgOk(cfg, h', m) { MsgGrows(cfg, h, h', m); }
  }

  // ---- history entries that only grow --------------------------------------

  lemma BallotGrows(cfg: Config, h: Hist, h': Hist, t: nat, v: Id)
    requires Grows(h, h') && AcksOk(cfg, h) && AcksOk(cfg, h')
    requires (t, v) in h.ballots && BallotOk(cfg, h, t, v)
    requires forall t0 | t0 < t && (t0, v) in h'.ack :: (t0, v) in h.ack && h'.ack[(t0, v)] == h.ack[(t0, v)]
    ensures BallotOk(cfg, h', t, v)
  {
    var b := h.ballots[(t, v)];
    LogGrows(h, h', b.log);
    forall t0 | t0 < t && (t0, v) in h'.ack ensures KeptAll(h', b.log, t0, v, t) {
      assert AckOk(cfg, h, t0, v) && AckOk(cfg, h', t0, v);
      KeptAllGrows(h, h', b.log, t0, v, t);
    }
  }

  lemma ElectorGrows(cfg: Config, h: Hist, h': Hist, t: nat, v: Id)
    requires Grows(h, h') && AcksOk(cfg, h) && AcksOk(cfg, h')
    requires t in h.reign && ElectorOk(cfg, h, t, v)
    requires forall t0 | t0 < t && (t0, v) in h'.ack :: (t0, v) in h.ack && h'.ack[(t0, v)] == h.ack[(t0, v)]
    ensures t in h'.reign && ElectorOk(cfg, h', t, v)
  {
    assert ReignGrows(h, h', t);
    forall t0 | t0 < t && (t0, v) in h'.ack ensures KeptAll(h', h'.ballots[(t, v)].log, t0, v, t - 1) {
      assert AckOk(cfg, h, t0, v) && AckOk(cfg, h', t0, v);
      KeptAllGrows(h, h', h.ballots[(t, v)].log, t0, v, t - 1);
    }
  }

  /** Acknowledgements of terms before t by a voter of term t do not change any more. */
  ghost predicate Settled(h: Hist, h': Hist) {
    forall t, v, t0 | (t, v) in h.ballots && t0 < t && (t0, v) in h'.ack ::
      (t0, v) in h.ack && h'.ack[(t0, v)] == h.ack[(t0, v)]
  }

  lemma ReignKept(cfg: Config, h: Hist, h': Hist, t: nat)
    requires Grows(h, h') && HistOk(cfg, h) && AcksOk(cfg, h') && Settled(h, h')
    requires t in h.reign && t in h'.reign && h'.reign[t] == h.reign[t]
    ensures ReignOk(cfg, h', t)
  {
    assert ReignOk(cfg, h, t);
    LogGrows(h, h', h.reign[t].log);
    forall v | v in h.reign[t].electors ensures ElectorOk(cfg, h', t, v) {
      assert ElectorOk(cfg, h, t, v);
      ElectorGrows(cfg, h, h', t, v);
    }
  }

  lemma BallotsKept(cfg: Config, h: Hist, h': Hist)
    requires Grows(h, h') && HistOk(cfg, h) && AcksOk(cfg, h') && Settled(h, h')
    ensures forall t, v | (t, v) in h.ballots :: (t, v) in h'.ballots && BallotOk(cfg, h', t, v)
  {
    forall t, v | (t, v) in h.ballots ensures (t, v) in h'.ballots && BallotOk(cfg, h', t, v) {
      assert BallotOk(cfg, h, t, v);
      BallotGrows(cfg, h, h', t, v);
    }
  }

  // ---- changes of one node that add no history -----------------------------

  lemma KeptLonger(h: Hist, f: seq<Entry>, t: nat, v: Id, bound: nat, bound': nat)
    requires (t, v) in h.ack && t in h.reign && h.ack[(t, v)] <= |h.reign[t].log|
    requires KeptAll(h, f, t, v, bound) && bound <= bound'
    ensures KeptAll(h, f, t, v, bound')
  {
    forall k: nat | k <= h.ack[(t, v)] ensures Kept(h, f, t, k, bound') {
      assert Kept(h, f, t, k, bound);
    }
  }

  lemma SelfGrows(h: Hist)
    ensures Grows(h, h)
  {
  }

  lemma CommittedLess(cfg: Config, h: Hist, f: seq<Entry>, c: nat, c': nat, bound: nat, bound': nat)
    requires Committed(cfg, h, f, c, bound) && c' <= c && bound <= bound'
    ensures Committed(cfg, h, f, c', bound')
  {
    if c' > 0 {
      var t: nat, k: nat :| t <= bound && CommitWitness(cfg, h, f, c, t, k);
      assert f[..c'] == f[..c][..c'] == h.reign[t].log[..c][..c'] == h.reign[t].log[..c'];
      assert CommitWitness(cfg, h, f, c', t, k);
    }
  }

  lemma FollowOk(cfg: Config, h: Hist, i: Id, nd: Node, term: nat)
    requires NodeOk(cfg, h, i, nd)
    ensures NodeOk(cfg, h, i, BecomeFollower(nd, term))
  {
    hide Committed, PromisesOk, RoleOk;
    var nd' := BecomeFollower(nd, term);
    FollowPromises(h, i, nd, nd');
    CommittedLess(cfg, h, h.full[i], nd.commitIndex, nd.commitIndex, nd.currentTerm, nd'.currentTerm);
    FollowView(cfg, h, i, nd, nd');
    hide PromisesOk, Committed, LogOk, RoleOk, View, Below;
  }

  lemma FollowView(cfg: Config, h: Hist, i: Id, nd: Node, nd': Node)
    requires i < |h.full| && View(nd, h.full[i]) && Below(h.full[i], nd.currentTerm + 1)
    requires nd'.role.Follower? && nd.currentTerm <= nd'.currentTerm
    requires nd' == nd.(role := nd'.role, currentTerm := nd'.currentTerm, votedFor := nd'.votedFor,
                        pending := nd'.pending, settled := nd'.settled)
    ensures View(nd', h.full[i]) && Below(h.full[i], nd'.currentTerm + 1) && RoleOk(cfg, h, i, nd')
  {
  }

  lemma FollowPromises(h: Hist, i: Id, nd: Node, nd': Node)
    requires i < |h.full| && PromisesOk(h, i, nd) && !nd'.role.Candidate? && nd.currentTerm <= nd'.currentTerm
    requires nd'.votedFor == if nd'.currentTerm == nd.currentTerm then nd.votedFor else None
    ensures PromisesOk(h, i, nd')
  {
    hide KeptAll;
    forall t0 | (t0, i) in h.ack ensures KeptAll(h, h.full[i], t0, i, nd'.currentTerm) {
      KeptLonger(h, h.full[i], t0, i, nd.currentTerm, nd'.currentTerm);
    }
  }

  lemma RestartOk(cfg: Config, h: Hist, i: Id, nd: Node)
    requires NodeOk(cfg, h, i, nd)
    ensures NodeOk(cfg, h, i, Restart(nd))
  {
    RestartView(nd, h.full[i]);
    CommittedLess(cfg, h, h.full[i], nd.commitIndex, nd.snapshotIndex, nd.currentTerm, nd.currentTerm);
  }

  lemma CommitOk(cfg: Config, h: Hist, i: Id, nd: Node, n: nat)
    requires NodeOk(cfg, h, i, nd)
    requires nd.commitIndex <= n && Committed(cfg, h, h.full[i], n, nd.currentTerm)
    ensures NodeOk(cfg, h, i, ApplyCommitted(cfg, nd.(commitIndex := n)))
  {
    var nd1 := nd.(commitIndex := n);
    KnowsOk(cfg, h, i, nd, n);
    ApplyCommittedView(cfg, nd1, h.full[i]);
    SameCore(cfg, h, i, nd1, ApplyCommitted(cfg, nd1));
  }

  /** Knowing more to be committed. */
  lemma KnowsOk(cfg: Config, h: Hist, i: Id, nd: Node, n: nat)
    requires NodeOk(cfg, h, i, nd)
    requires nd.commitIndex <= n && Committed(cfg, h, h.full[i], n, nd.currentTerm)
    ensures NodeOk(cfg, h, i, nd.(commitIndex := n))
  {
  }

  lemma SameCore(cfg: Config, h: Hist, i: Id, nd: Node, nd': Node)
    requires NodeOk(cfg, h, i, nd) && View(nd', h.full[i]) && Core(nd') == Core(nd)
    ensures NodeOk(cfg, h, i, nd')
  {
    assert Core(nd').currentTerm == Core(nd).currentTerm && Core(nd').id == Core(nd).id
        && Core(nd').role == Core(nd).role && Core(nd').votedFor == Core(nd).votedFor
        && Core(nd').commitIndex == Core(nd).commitIndex && Core(nd').granted == Core(nd).granted
        && Core(nd').matchIndex == Core(nd).matchIndex;
  }

  lemma {:induction false} SomeOk(cfg: Config, h: Hist, i: Id, nd: Node, n: nat)
    requires NodeOk(cfg, h, i, nd)
    ensures NodeOk(cfg, h, i, ApplySome(cfg, nd, n))
    decreases n
  {
    hide ApplyOne, Core, View;
    if n > 0 && nd.lastApplied < nd.commitIndex {
      ApplyOneView(cfg, nd, h.full[i]);
      SameCore(cfg, h, i, nd, ApplyOne(cfg, nd));
      hide NodeOk;
      SomeOk(cfg, h, i, ApplyOne(cfg, nd), n - 1);
    }
  }

  // ---- votes ---------------------------------------------------------------

  function Cast(h: Hist, t: nat, v: Id, cand: Id): Hist
    requires v < |h.full|
  {
    h.(ballots := h.ballots[(t, v) := Ballot(cand, h.full[v])])
  }

  /** Recording a first vote in the node's current term, for itself or for another candidate. */
  lemma CastOk(cfg: Config, h: Hist, i: Id, nd: Node, t: nat, cand: Id)
    requires HistOk(cfg, h) && NodeOk(cfg, h, i, nd)
    requires t >= nd.currentTerm && (t, i) !in h.ballots && i < cfg.size && cand < cfg.size
    requires if cand == i then nd.currentTerm < t
             else VotedFor(h, t, cand, cand) && MoreUpToDate(h.ballots[(t, cand)].log, h.full[i])
    ensures var h' := Cast(h, t, i, cand);
            HistOk(cfg, h') && Grows(h, h') && OnlyFor(h, h', i)
  {
    hide Broke, LogOk, ElectorOk, ReignOk, View, RoleOk;
    var h' := Cast(h, t, i, cand);
    assert Grows(h, h');
    forall t0, v | (t0, v) in h'.ack ensures AckOk(cfg, h', t0, v) { assert AckOk(cfg, h, t0, v); }
    BallotsKept(cfg, h, h');
    forall t0 | t0 in h'.reign ensures ReignOk(cfg, h', t0) { ReignKept(cfg, h, h', t0); }
    assert BallotOk(cfg, h', t, i) by {
      LogGrows(h, h', h.full[i]);
      forall t0 | t0 < t && (t0, i) in h'.ack ensures KeptAll(h', h.full[i], t0, i, t) {
        KeptAllGrows(h, h', h.full[i], t0, i, nd.currentTerm);
        KeptLonger(h', h.full[i], t0, i, nd.currentTerm, t);
      }
      if cand != i { assert BallotOk(cfg, h, t, cand); }
    }
    forall t0, v | (t0, v) in h'.ballots ensures BallotOk(cfg, h', t0, v) {
      if (t0, v) != (t, i) { assert (t0, v) in h.ballots; }
    }
  }

  ghost predicate AckPromises(h: Hist, i: Id, bound: nat)
    requires i < |h.full|
  {
    forall t0 | (t0, i) in h.ack :: t0 <= bound && t0 in h.reign && h.ack[(t0, i)] <= |h.reign[t0].log|
                                    && KeptAll(h, h.full[i], t0, i, bound)
  }

  lemma AckPromisesGrow(h: Hist, h': Hist, i: Id, bound: nat, bound': nat)
    requires Grows(h, h') && i < |h.full| && |h'.full| == |h.full| && h'.full[i] == h.full[i] && h'.ack == h.ack
    requires AckPromises(h, i, bound) && bound <= bound'
    ensures AckPromises(h', i, bound')
  {
    forall t0 | (t0, i) in h'.ack
      ensures t0 in h'.reign && h'.ack[(t0, i)] <= |h'.reign[t0].log| && KeptAll(h', h.full[i], t0, i, bound')
    {
      KeptAllGrows(h, h', h.full[i], t0, i, bound);
      KeptLonger(h', h.full[i], t0, i, bound, bound');
    }
  }

  /** The voter itself, once its vote is recorded. */
  lemma CastNode(cfg: Config, h: Hist, i: Id, nd: Node, t: nat, cand: Id, nd': Node)
    requires NodeOk(cfg, h, i, nd) && t >= nd.currentTerm && (t, i) !in h.ballots
    requires Grows(h, Cast(h, t, i, cand))
    requires (nd' == Stand(nd) && t == nd'.currentTerm && cand == i)
             || (nd' == nd.(votedFor := Some(cand)) && t == nd.currentTerm && nd.role.Follower?)
    ensures NodeOk(cfg, Cast(h, t, i, cand), i, nd')
  {
    hide Committed;
    var h' := Cast(h, t, i, cand);
    LogGrows(h, h', h.full[i]);
    CommittedGrows(cfg, h, h', h.full[i], h.full[i], nd.commitIndex, nd.currentTerm, t);
    AckPromisesGrow(h, h', i, nd.currentTerm, t);
  }

  lemma StandOk(cfg: Config, c: Cluster, h: Hist, i: Id) returns (h': Hist)
    requires Inv(cfg, c, h) && i < cfg.size
    ensures Inv(cfg, SetNode(c, i, Stand(c.nodes[i])), h') && Grows(h, h')
  {
    var nd := c.nodes[i];
    var nd' := Stand(nd);
    CastOk(cfg, h, i, nd, nd'.currentTerm, i);
    h' := Cast(h, nd'.currentTerm, i, i);
    CastNode(cfg, h, i, nd, nd'.currentTerm, i, nd');
    Record(cfg, c, h, h', i, nd');
  }

  /** A node that has not voted in its term neither stands nor leads. */
  lemma UndecidedFollows(cfg: Config, h: Hist, i: Id, nd: Node)
    requires HistOk(cfg, h) && NodeOk(cfg, h, i, nd) && (nd.currentTerm, i) !in h.ballots
    ensures nd.role.Follower? && nd.votedFor == None
  {
    assert nd.currentTerm in h.reign ==> ReignOk(cfg, h, nd.currentTerm);
  }

  lemma GrantOk(cfg: Config, c: Cluster, h: Hist, i: Id, cand: Id) returns (h': Hist)
    requires Inv(cfg, c, h) && i < cfg.size && cand < cfg.size
    requires c.nodes[i].votedFor == None || c.nodes[i].votedFor == Some(cand)
    requires VotedFor(h, c.nodes[i].currentTerm, cand, cand)
    requires cand != i ==> MoreUpToDate(h.ballots[(c.nodes[i].currentTerm, cand)].log, h.full[i])
    ensures Inv(cfg, SetNode(c, i, c.nodes[i].(votedFor := Some(cand))), h') && Grows(h, h')
    ensures VotedFor(h', c.nodes[i].currentTerm, i, cand)
  {
    var nd := c.nodes[i];
    var t := nd.currentTerm;
    var nd' := nd.(votedFor := Some(cand));
    assert NodeOk(cfg, h, i, nd);
    if (t, i) in h.ballots {
      h' := h;
      assert nd' == nd;
      assert SetNode(c, i, nd') == c;
    } else {
      CastOk(cfg, h, i, nd, t, cand);
      UndecidedFollows(cfg, h, i, nd);
      CastNode(cfg, h, i, nd, t, cand, nd');
      h' := Cast(h, t, i, cand);
      Record(cfg, c, h, h', i, nd');
    }
  }

  // ---- leadership ----------------------------------------------------------

  /** Election Safety: a term that already has a leader cannot gather a second quorum. */
  lemma NoSecondLeader(cfg: Config, h: Hist, i: Id, nd: Node)
    requires HistOk(cfg, h) && NodeOk(cfg, h, i, nd) && i < cfg.size
    requires nd.role.Candidate? && |nd.granted| >= Quorum(cfg)
    ensures nd.currentTerm !in h.reign
    ensures nd.granted <= Members(cfg.size)
  {
    var t := nd.currentTerm;
    MembersAre(cfg.size);
    forall v | v in nd.granted ensures v in Members(cfg.size) { assert BallotOk(cfg, h, t, v); }
    if t in h.reign {
      assert ReignOk(cfg, h, t);
      forall v | v in h.reign[t].electors ensures v in Members(cfg.size) && VotedFor(h, t, v, h.reign[t].leader) {
        assert ElectorOk(cfg, h, t, v);
      }
      var v := QuorumsMeet(cfg, nd.granted, h.reign[t].electors);
      assert false;
    }
  }

  function Enthrone(h: Hist, t: nat, i: Id, electors: set<Id>): Hist
    requires i < |h.full|
  {
    h.(reign := h.reign[t := Reign(i, electors, h.full[i], h.full[i])], ack := h.ack[(t, i) := |h.full[i]|])
  }

  /** A node acknowledges only in its own current term, and it has voted in no later one. */
  lemma AckSettled(h: Hist, h': Hist, i: Id, nd: Node, k: nat)
    requires i < |h.full| && PromisesOk(h, i, nd) && h'.ack == h.ack[(nd.currentTerm, i) := k]
    ensures Settled(h, h')
  {
  }

  lemma EnthroneGrows(cfg: Config, h: Hist, i: Id, nd: Node)
    requires AcksOk(cfg, h) && NodeOk(cfg, h, i, nd) && i < cfg.size && nd.currentTerm !in h.reign
    ensures var h' := Enthrone(h, nd.currentTerm, i, nd.granted);
            Grows(h, h') && OnlyFor(h, h', i) && AcksOk(cfg, h')
  {
    var t := nd.currentTerm;
    var h' := Enthrone(h, t, i, nd.granted);
    assert (t, i) !in h.ack;
    forall t0, v | (t0, v) in h'.ack ensures AckOk(cfg, h', t0, v) {
      if (t0, v) != (t, i) { assert AckOk(cfg, h, t0, v); }
    }
  }

  lemma EnthroneHist(cfg: Config, h: Hist, i: Id, nd: Node)
    requires HistOk(cfg, h) && NodeOk(cfg, h, i, nd) && i < cfg.size
    requires nd.role.Candidate? && |nd.granted| >= Quorum(cfg)
    ensures var h' := Enthrone(h, nd.currentTerm, i, nd.granted);
            HistOk(cfg, h') && Grows(h, h') && OnlyFor(h, h', i)
  {
    var t := nd.currentTerm;
    NoSecondLeader(cfg, h, i, nd);
    var h' := Enthrone(h, t, i, nd.granted);
    EnthroneGrows(cfg, h, i, nd);
    AckSettled(h, h', i, nd, |h.full[i]|);
    BallotsKept(cfg, h, h');
    forall t0 | t0 in h'.reign ensures ReignOk(cfg, h', t0) {
      if t0 != t { ReignKept(cfg, h, h', t0); } else { EnthroneReign(cfg, h, h', i, nd); }
    }
  }

  lemma EnthroneReign(cfg: Config, h: Hist, h': Hist, i: Id, nd: Node)
    requires HistOk(cfg, h) && NodeOk(cfg, h, i, nd) && i < cfg.size
    requires nd.role.Candidate? && |nd.granted| >= Quorum(cfg) && nd.currentTerm !in h.reign
    requires h' == Enthrone(h, nd.currentTerm, i, nd.granted) && Grows(h, h') && AcksOk(cfg, h')
    ensures ReignOk(cfg, h', nd.currentTerm)
  {
    var t := nd.currentTerm;
    assert BallotOk(cfg, h, t, i);
    LogGrows(h, h', h.full[i]);
    forall v | v in nd.granted ensures ElectorOk(cfg, h', t, v) {
      EnthroneElector(cfg, h, h', t, v);
    }
  }

  lemma KeptShorter(h: Hist, f: seq<Entry>, t0: nat, v: Id, t: nat, b: nat)
    requires (t0, v) in h.ack && t0 in h.reign && h.ack[(t0, v)] <= |h.reign[t0].log|
    requires t !in h.reign && t == b + 1 && KeptAll(h, f, t0, v, t)
    ensures KeptAll(h, f, t0, v, b)
  {
    forall k: nat | k <= h.ack[(t0, v)] ensures Kept(h, f, t0, k, b) {
      assert Kept(h, f, t0, k, t);
    }
  }

  lemma EnthroneElector(cfg: Config, h: Hist, h': Hist, t: nat, v: Id)
    requires HistOk(cfg, h) && AcksOk(cfg, h') && Grows(h, h')
    requires t !in h.reign && t in h'.reign
    requires (t, v) in h.ballots && VotedFor(h', t, v, h'.reign[t].leader)
    requires forall t0 | t0 < t && (t0, v) in h'.ack :: (t0, v) in h.ack && h'.ack[(t0, v)] == h.ack[(t0, v)]
    ensures ElectorOk(cfg, h', t, v)
  {
    assert BallotOk(cfg, h, t, v);
    MembersAre(cfg.size);
    var b := h.ballots[(t, v)].log;
    forall t0 | t0 < t && (t0, v) in h'.ack ensures KeptAll(h', b, t0, v, t - 1) {
      assert AckOk(cfg, h, t0, v) && AckOk(cfg, h', t0, v);
      KeptShorter(h, b, t0, v, t, t - 1);
      KeptAllGrows(h, h', b, t0, v, t - 1);
    }
  }
}
