/** Changes of a node's log: becoming leader, appending as leader, adopting a leader's log. */
module RaftReplication {
  import opened Commands
  import opened RaftNode
  import opened RaftView
  import opened RaftCluster
  import opened RaftInv
  import opened RaftGrow
  import opened RaftSteps

  // ---- becoming leader -----------------------------------------------------

  lemma LeadNode(cfg: Config, h: Hist, i: Id, nd: Node)
    requires NodeOk(cfg, h, i, nd) && nd.role.Candidate? && nd.currentTerm !in h.reign
    requires Grows(h, Enthrone(h, nd.currentTerm, i, nd.granted))
    ensures NodeOk(cfg, Enthrone(h, nd.currentTerm, i, nd.granted), i, Lead(cfg, nd))
  {
    hide Peers, Committed, Grows;
    var t := nd.currentTerm;
    var h' := Enthrone(h, t, i, nd.granted);
    LogGrows(h, h', h.full[i]);
    CommittedGrows(cfg, h, h', h.full[i], h.full[i], nd.commitIndex, t, t);
    forall t0 | (t0, i) in h'.ack
      ensures t0 in h'.reign && h'.ack[(t0, i)] <= |h'.reign[t0].log| && KeptAll(h', h.full[i], t0, i, t)
    {
      if t0 == t {
        forall k: nat | k <= |h.full[i]| ensures Kept(h', h.full[i], t, k, t) {}
      } else {
        KeptAllGrows(h, h', h.full[i], t0, i, t);
      }
    }
  }

  lemma LeadOk(cfg: Config, c: Cluster, h: Hist, i: Id) returns (h': Hist)
    requires Inv(cfg, c, h) && i < cfg.size
    requires c.nodes[i].role.Candidate? && |c.nodes[i].granted| >= Quorum(cfg)
    ensures Inv(cfg, SetNode(c, i, Lead(cfg, c.nodes[i])), h') && Grows(h, h')
  {
    var nd := c.nodes[i];
    NoSecondLeader(cfg, h, i, nd);
    EnthroneHist(cfg, h, i, nd);
    LeadNode(cfg, h, i, nd);
    h' := Enthrone(h, nd.currentTerm, i, nd.granted);
    Record(cfg, c, h, h', i, Lead(cfg, nd));
  }

  // ---- appending as leader -------------------------------------------------

  function Extended(h: Hist, t: nat, i: Id, e: Entry): Hist
    requires i < |h.full| && t in h.reign
  {
    var f := h.full[i] + [e];
    h.(full := h.full[i := f], reign := h.reign[t := h.reign[t].(log := f)], ack := h.ack[(t, i) := |f|])
  }

  lemma ExtendLog(h: Hist, h': Hist, f: seq<Entry>, e: Entry)
    requires Grows(h, h') && LogOk(h, f) && e.index == |f| + 1
    requires e.term in h'.reign && e.term > 0 && f + [e] <= h'.reign[e.term].log
    requires Below(f, e.term + 1)
    ensures LogOk(h', f + [e])
  {
    LogGrows(h, h', f);
    var g := f + [e];
    forall k: nat ensures Anchored(h', g, k) {
      assert Anchored(h', f, k);
      if 0 < k <= |f| { assert g[..k] == f[..k]; }
    }
    forall j: nat, k: nat ensures Ordered(g, j, k) { assert Ordered(f, j, k); }
  }

  lemma ExtendGrows(cfg: Config, h: Hist, i: Id, t: nat, e: Entry)
    requires AcksOk(cfg, h) && i < |h.full| && i < cfg.size
    requires t in h.reign && h.reign[t].leader == i && h.reign[t].log == h.full[i]
    ensures var h' := Extended(h, t, i, e);
            Grows(h, h') && OnlyFor(h, h', i) && AcksOk(cfg, h')
  {
    var h' := Extended(h, t, i, e);
    forall t0, v | (t0, v) in h.ack ensures AckGrows(h, h', t0, v) {
      assert AckOk(cfg, h, t0, v);
    }
    forall t0, v | (t0, v) in h'.ack ensures AckOk(cfg, h', t0, v) {
      if (t0, v) != (t, i) { assert AckOk(cfg, h, t0, v); }
    }
  }

  lemma ExtendReign(cfg: Config, h: Hist, i: Id, t: nat, e: Entry)
    requires HistOk(cfg, h) && i < |h.full| && LogOk(h, h.full[i]) && Below(h.full[i], t + 1)
    requires t in h.reign && h.reign[t].leader == i && h.reign[t].log == h.full[i]
    requires e.term == t && e.index == |h.full[i]| + 1
    requires var h' := Extended(h, t, i, e); Grows(h, h') && AcksOk(cfg, h') && Settled(h, h')
    ensures ReignOk(cfg, Extended(h, t, i, e), t)
  {
    var h' := Extended(h, t, i, e);
    assert ReignOk(cfg, h, t);
    ExtendLog(h, h', h.full[i], e);
    forall v | v in h.reign[t].electors ensures ElectorOk(cfg, h', t, v) {
      assert ElectorOk(cfg, h, t, v);
      ElectorGrows(cfg, h, h', t, v);
    }
  }

  lemma ExtendHist(cfg: Config, h: Hist, i: Id, t: nat, e: Entry)
    requires HistOk(cfg, h) && i < |h.full| && LogOk(h, h.full[i]) && Below(h.full[i], t + 1)
    requires t in h.reign && h.reign[t].leader == i && h.reign[t].log == h.full[i]
    requires e.term == t && e.index == |h.full[i]| + 1
    requires Settled(h, Extended(h, t, i, e)) && i < cfg.size
    ensures var h' := Extended(h, t, i, e);
            HistOk(cfg, h') && Grows(h, h') && OnlyFor(h, h', i)
  {
    var h' := Extended(h, t, i, e);
    ExtendGrows(cfg, h, i, t, e);
    BallotsKept(cfg, h, h');
    ExtendReign(cfg, h, i, t, e);
    forall t0 | t0 in h'.reign ensures ReignOk(cfg, h', t0) {
      if t0 != t { ReignKept(cfg, h, h', t0); }
    }
  }

  lemma ExtendPromises(cfg: Config, h: Hist, h': Hist, i: Id, nd: Node, e: Entry)
    requires AcksOk(cfg, h) && NodeOk(cfg, h, i, nd) && nd.role.Leader?
    requires h' == Extended(h, nd.currentTerm, i, e) && Grows(h, h')
    ensures AckPromises(h', i, nd.currentTerm)
  {
    var t, f := nd.currentTerm, h.full[i];
    forall t0 | (t0, i) in h'.ack
      ensures t0 <= t && t0 in h'.reign && h'.ack[(t0, i)] <= |h'.reign[t0].log| && KeptAll(h', h'.full[i], t0, i, t)
    {
      if t0 != t {
        KeptAllGrows(h, h', f, t0, i, t);
        forall k: nat | k <= h'.ack[(t0, i)] ensures Kept(h', f + [e], t0, k, t) {
          assert Kept(h', f, t0, k, t);
        }
      } else {
        forall k: nat | k <= |f| + 1 ensures Kept(h', f + [e], t, k, t) {}
      }
    }
  }

  lemma AppendNode(cfg: Config, h: Hist, h': Hist, i: Id, nd: Node, cmd: Command, e: Entry)
    requires AcksOk(cfg, h) && NodeOk(cfg, h, i, nd) && nd.role.Leader? && nd.currentTerm > 0
    requires e == Entry(nd.currentTerm, |h.full[i]| + 1, cmd)
    requires h' == Extended(h, nd.currentTerm, i, e) && Grows(h, h')
    ensures NodeOk(cfg, h', i, Append(nd, cmd))
  {
    hide RoleOk, PromisesOk, View, LogOk, Below, Committed;
    AppendRole(cfg, h, h', i, nd, cmd, e);
    AppendPromises(cfg, h, h', i, nd, cmd, e);
    AppendedLog(cfg, h, h', h.full[i], e, nd.commitIndex);
    AppendView(nd, h.full[i], cmd);
  }

  lemma AppendedLog(cfg: Config, h: Hist, h': Hist, f: seq<Entry>, e: Entry, c: nat)
    requires Grows(h, h') && LogOk(h, f) && Below(f, e.term + 1) && Committed(cfg, h, f, c, e.term)
    requires e.index == |f| + 1 && e.term > 0
    requires e.term in h'.reign && f + [e] <= h'.reign[e.term].log
    ensures LogOk(h', f + [e]) && Below(f + [e], e.term + 1) && Committed(cfg, h', f + [e], c, e.term)
  {
    ExtendLog(h, h', f, e);
    CommittedGrows(cfg, h, h', f, f + [e], c, e.term, e.term);
  }

  lemma AppendRole(cfg: Config, h: Hist, h': Hist, i: Id, nd: Node, cmd: Command, e: Entry)
    requires i < |h.full| && RoleOk(cfg, h, i, nd) && nd.role.Leader?
    requires h' == Extended(h, nd.currentTerm, i, e) && Grows(h, h')
    ensures RoleOk(cfg, h', i, Append(nd, cmd))
  {
    AcksStillCover(cfg, h, h', nd);
  }

  lemma AppendPromises(cfg: Config, h: Hist, h': Hist, i: Id, nd: Node, cmd: Command, e: Entry)
    requires AcksOk(cfg, h) && NodeOk(cfg, h, i, nd) && nd.role.Leader?
    requires h' == Extended(h, nd.currentTerm, i, e) && Grows(h, h')
    ensures PromisesOk(h', i, Append(nd, cmd))
  {
    ExtendPromises(cfg, h, h', i, nd, e);
  }

  lemma AppendView(nd: Node, f: seq<Entry>, cmd: Command)
    requires View(nd, f) && nd.currentTerm > 0
    ensures View(Append(nd, cmd), f + [Entry(nd.currentTerm, |f| + 1, cmd)])
  {
    LastView(nd, f);
    var e := Entry(nd.currentTerm, |f| + 1, cmd);
    var g := f + [e];
    var nd' := Append(nd, cmd);
    var s := nd.snapshotIndex;
    assert nd'.log == nd.log + [e];
    assert g[s..] == f[s..] + [e];
    assert g[..s] == f[..s];
    assert g[..nd.lastApplied] == f[..nd.lastApplied];
    assert TermOf(g, s) == TermOf(f, s);
    assert Numbered(g);
  }

  lemma AcksStillCover(cfg: Config, h: Hist, h': Hist, nd: Node)
    requires Grows(h, h')
    requires forall p | p in nd.matchIndex :: nd.matchIndex[p] <= Ack(h, nd.currentTerm, p)
    ensures forall p | p in nd.matchIndex :: nd.matchIndex[p] <= Ack(h', nd.currentTerm, p)
  {
    forall p | p in nd.matchIndex ensures nd.matchIndex[p] <= Ack(h', nd.currentTerm, p) {
      if (nd.currentTerm, p) in h.ack { assert AckGrows(h, h', nd.currentTerm, p); }
    }
  }

  lemma AppendOkStep(cfg: Config, c: Cluster, h: Hist, i: Id, cmd: Command) returns (h': Hist)
    requires Inv(cfg, c, h) && i < cfg.size && c.nodes[i].role.Leader?
    ensures Inv(cfg, SetNode(c, i, Append(c.nodes[i], cmd)), h') && Grows(h, h')
  {
    var nd := c.nodes[i];
    var t := nd.currentTerm;
    assert NodeOk(cfg, h, i, nd);
    assert ReignOk(cfg, h, t);
    var e := Entry(t, |h.full[i]| + 1, cmd);
    h' := Extended(h, t, i, e);
    AckSettled(h, h', i, nd, |h.full[i]| + 1);
    ExtendHist(cfg, h, i, t, e);
    AppendNode(cfg, h, h', i, nd, cmd, e);
    Record(cfg, c, h, h', i, Append(nd, cmd));
  }

  // ---- adopting a leader's log ---------------------------------------------

  function Adopt(h: Hist, t: nat, i: Id, f: seq<Entry>, k: nat): Hist
    requires i < |h.full|
  {
    h.(full := h.full[i := f], ack := h.ack[(t, i) := Max(Ack(h, t, i), k)])
  }

  /** Nothing a node has promised to keep, or has committed, is lost by adopting its leader's log. */
  lemma AdoptKeeps<T>(f: seq<T>, g: seq<T>, log: seq<T>, p: seq<T>)
    requires g <= log && p <= log && p <= f
    ensures g <= f || p <= g
  {
    if |p| <= |g| {
      PrefixesCompare(p, g, log);
    } else {
      PrefixesCompare(g, p, log);
    }
  }

  lemma AdoptGrows(cfg: Config, h: Hist, i: Id, t: nat, f': seq<Entry>, k: nat)
    requires AcksOk(cfg, h) && i < |h.full| && i < cfg.size
    requires t in h.reign && k <= |h.reign[t].log|
    ensures var h' := Adopt(h, t, i, f', k);
            Grows(h, h') && OnlyFor(h, h', i) && AcksOk(cfg, h')
  {
    var h' := Adopt(h, t, i, f', k);
    forall t0, v | (t0, v) in h'.ack ensures AckOk(cfg, h', t0, v) {
      if (t0, v) in h.ack { assert AckOk(cfg, h, t0, v); }
    }
  }

  lemma AdoptHist(cfg: Config, h: Hist, i: Id, nd: Node, f': seq<Entry>, k: nat)
    requires HistOk(cfg, h) && i < cfg.size && PromisesOk(h, i, nd)
    requires nd.currentTerm in h.reign && k <= |h.reign[nd.currentTerm].log|
    ensures var h' := Adopt(h, nd.currentTerm, i, f', k);
            HistOk(cfg, h') && Grows(h, h') && OnlyFor(h, h', i)
  {
    var t := nd.currentTerm;
    var h' := Adopt(h, t, i, f', k);
    AdoptGrows(cfg, h, i, t, f', k);
    AckSettled(h, h', i, nd, h'.ack[(t, i)]);
    BallotsKept(cfg, h, h');
    forall t0 | t0 in h'.reign ensures ReignOk(cfg, h', t0) { ReignKept(cfg, h, h', t0); }
  }

  lemma AdoptPromise(cfg: Config, h: Hist, f: seq<Entry>, g: seq<Entry>, T: nat, t0: nat, k: nat)
    requires HistOk(cfg, h) && T in h.reign && g <= h.reign[T].log && t0 <= T
    requires t0 in h.reign && k <= |h.reign[t0].log|
    requires Kept(h, f, t0, k, T)
    ensures Kept(h, Adopted(f, g), t0, k, T)
  {
    var p := h.reign[t0].log[..k];
    if p <= f {
      if t0 == T || p <= h.reign[T].start {
        assert ReignOk(cfg, h, T);
        if t0 < T { PrefixTrans(p, h.reign[T].start, h.reign[T].log); }
        AdoptKeeps(f, g, h.reign[T].log, p);
      } else {
        assert Broke(h, T, t0, k);
      }
    }
  }

  lemma AdoptPromises(cfg: Config, h: Hist, i: Id, nd: Node, g: seq<Entry>)
    requires HistOk(cfg, h) && NodeOk(cfg, h, i, nd)
    requires nd.currentTerm in h.reign && g <= h.reign[nd.currentTerm].log
    requires Grows(h, Adopt(h, nd.currentTerm, i, Adopted(h.full[i], g), |g|))
    ensures AckPromises(Adopt(h, nd.currentTerm, i, Adopted(h.full[i], g), |g|), i, nd.currentTerm)
  {
    var T, f := nd.currentTerm, h.full[i];
    var f' := Adopted(f, g);
    var h' := Adopt(h, T, i, f', |g|);
    forall t0 | (t0, i) in h'.ack
      ensures t0 <= T && t0 in h'.reign && h'.ack[(t0, i)] <= |h'.reign[t0].log| && KeptAll(h', f', t0, i, T)
    {
      forall k: nat | k <= h'.ack[(t0, i)] ensures Kept(h', f', t0, k, T) {
        if t0 == T && k <= |g| {
          PrefixesCompare(h.reign[T].log[..k], g, h.reign[T].log);
          PrefixTrans(h.reign[T].log[..k], g, f');
        } else {
          assert Kept(h, f, t0, k, T);
          AdoptPromise(cfg, h, f, g, T, t0, k);
          KeptGrows(h, h', f', t0, k, T);
        }
      }
    }
  }

  /** The node after it adopted `g`, given that its code-level log shows it. */
  lemma AdoptNode(cfg: Config, h: Hist, i: Id, nd: Node, g: seq<Entry>, nd': Node)
    requires HistOk(cfg, h) && NodeOk(cfg, h, i, nd) && nd.role.Follower?
    requires nd.currentTerm in h.reign && g <= h.reign[nd.currentTerm].log
    requires Grows(h, Adopt(h, nd.currentTerm, i, Adopted(h.full[i], g), |g|))
    requires View(nd', Adopted(h.full[i], g)) && nd'.id == nd.id && nd'.role == nd.role
    requires nd'.currentTerm == nd.currentTerm && nd'.votedFor == nd.votedFor
    requires Committed(cfg, h, Adopted(h.full[i], g), nd'.commitIndex, nd.currentTerm)
    ensures NodeOk(cfg, Adopt(h, nd.currentTerm, i, Adopted(h.full[i], g), |g|), i, nd')
  {
    var T, f := nd.currentTerm, h.full[i];
    var f' := Adopted(f, g);
    var h' := Adopt(h, T, i, f', |g|);
    AdoptPromises(cfg, h, i, nd, g);
    assert ReignOk(cfg, h, T);
    assert LogOk(h, f') && Below(f', T + 1) by {
      if !(g <= f) {
        PrefixOk(h, g, h.reign[T].log);
        ReignBelow(cfg, h, T);
      }
    }
    LogGrows(h, h', f');
    CommittedGrows(cfg, h, h', f', f', nd'.commitIndex, T, T);
  }

  lemma ReignBelow(cfg: Config, h: Hist, t: nat)
    requires AcksOk(cfg, h) && t in h.reign && ReignOk(cfg, h, t)
    ensures Below(h.reign[t].log, t + 1)
  {
    var r := h.reign[t];
    forall k | 0 <= k < |r.log| ensures r.log[k].term < t + 1 {
      if k < |r.start| { assert r.log[k] == r.start[k]; }
    }
  }

  lemma AdoptStep(cfg: Config, c: Cluster, h: Hist, i: Id, g: seq<Entry>, nd': Node) returns (h': Hist)
    requires Inv(cfg, c, h) && i < cfg.size && c.nodes[i].role.Follower?
    requires c.nodes[i].currentTerm in h.reign && g <= h.reign[c.nodes[i].currentTerm].log
    requires View(nd', Adopted(h.full[i], g)) && nd'.id == c.nodes[i].id && nd'.role == c.nodes[i].role
    requires nd'.currentTerm == c.nodes[i].currentTerm && nd'.votedFor == c.nodes[i].votedFor
    requires Committed(cfg, h, Adopted(h.full[i], g), nd'.commitIndex, c.nodes[i].currentTerm)
    ensures Inv(cfg, SetNode(c, i, nd'), h') && Grows(h, h')
    ensures h'.full[i] == Adopted(h.full[i], g) && h'.reign == h.reign
    ensures |g| <= Ack(h', c.nodes[i].currentTerm, i)
  {
    var nd := c.nodes[i];
    assert NodeOk(cfg, h, i, nd);
    var f' := Adopted(h.full[i], g);
    AdoptHist(cfg, h, i, nd, f', |g|);
    AdoptNode(cfg, h, i, nd, g, nd');
    h' := Adopt(h, nd.currentTerm, i, f', |g|);
    Record(cfg, c, h, h', i, nd');
  }
}
