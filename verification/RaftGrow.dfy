/** What growing history preserves, and the two facts every safety proof rests on. */
module RaftGrow {
  import opened RaftNode
  import opened RaftView
  import opened RaftInv

  // ---- quorums -------------------------------------------------------------

  lemma {:induction false} MembersAre(n: nat)
    ensures |Members(n)| == n
    ensures forall x: nat :: x in Members(n) <==> x < n
  {
    if n > 0 { MembersAre(n - 1); }
  }

  /** Two majorities share a member. */
  lemma QuorumsMeet(cfg: Config, a: set<Id>, b: set<Id>) returns (v: Id)
    requires a <= Members(cfg.size) && b <= Members(cfg.size)
    requires |a| >= Quorum(cfg) && |b| >= Quorum(cfg)
    ensures v in a && v in b
  {
    MembersAre(cfg.size);
    if a * b == {} {
      assert |a + b| == |a| + |b|;
      Subset(a + b, Members(cfg.size));
      assert false;
    }
    v :| v in a * b;
  }

  lemma {:induction false} Subset<T>(a: set<T>, b: set<T>)
    requires a <= b
    ensures |a| <= |b|
  {
    if a != {} {
      var x :| x in a;
      Subset(a - {x}, b - {x});
    }
  }

  // ---- growth --------------------------------------------------------------

  lemma PrefixTrans<T>(a: seq<T>, b: seq<T>, c: seq<T>)
    requires a <= b && b <= c
    ensures a <= c
  {
  }

  /** Two prefixes of one sequence are comparable. */
  lemma PrefixesCompare<T>(a: seq<T>, b: seq<T>, c: seq<T>)
    requires a <= c && b <= c
    ensures |a| <= |b| ==> a <= b
  {
  }

  lemma LogGrows(h: Hist, h': Hist, f: seq<Entry>)
    requires Grows(h, h') && LogOk(h, f)
    ensures LogOk(h', f)
  {
    forall k: nat ensures Anchored(h', f, k) {
      assert Anchored(h, f, k);
      if 0 < k <= |f| {
        assert ReignGrows(h, h', f[k - 1].term);
      }
    }
  }

  lemma PrefixOk(h: Hist, f: seq<Entry>, g: seq<Entry>)
    requires LogOk(h, g) && f <= g
    ensures LogOk(h, f)
  {
    forall k: nat ensures Anchored(h, f, k) {
      assert Anchored(h, g, k);
      if 0 < k <= |f| { assert f[..k] == g[..k]; }
    }
    forall j: nat, k: nat ensures Ordered(f, j, k) { assert Ordered(g, j, k); }
  }

  lemma SamePrefix(h: Hist, h': Hist, t: nat, k: nat)
    requires Grows(h, h') && t in h.reign && k <= |h.reign[t].log|
    ensures t in h'.reign && k <= |h'.reign[t].log| && h'.reign[t].log[..k] == h.reign[t].log[..k]
  {
    assert ReignGrows(h, h', t);
  }

  lemma KeptGrows(h: Hist, h': Hist, f: seq<Entry>, t: nat, k: nat, bound: nat)
    requires Grows(h, h') && t in h.reign && k <= |h.reign[t].log|
    requires Kept(h, f, t, k, bound)
    ensures t in h'.reign && k <= |h'.reign[t].log| && Kept(h', f, t, k, bound)
  {
    SamePrefix(h, h', t, k);
    if !(h.reign[t].log[..k] <= f) {
      var u :| t < u <= bound && Broke(h, u, t, k);
      assert ReignGrows(h, h', u);
      assert Broke(h', u, t, k);
    }
  }

  lemma KeptAllGrows(h: Hist, h': Hist, f: seq<Entry>, t: nat, v: Id, bound: nat)
    requires Grows(h, h')
    requires (t, v) in h.ack && t in h.reign && h.ack[(t, v)] <= |h.reign[t].log|
    requires KeptAll(h, f, t, v, bound)
    requires (t, v) in h'.ack && h'.ack[(t, v)] == h.ack[(t, v)]
    ensures t in h'.reign && h'.ack[(t, v)] <= |h'.reign[t].log| && KeptAll(h', f, t, v, bound)
  {
    assert ReignGrows(h, h', t);
    forall k: nat | k <= h.ack[(t, v)] ensures Kept(h', f, t, k, bound) {
      assert Kept(h, f, t, k, bound);
      KeptGrows(h, h', f, t, k, bound);
    }
  }

  lemma AckersGrow(cfg: Config, h: Hist, h': Hist, t: nat, k: nat)
    requires Grows(h, h')
    ensures Ackers(cfg, h, t, k) <= Ackers(cfg, h', t, k)
  {
    forall v | v in Ackers(cfg, h, t, k) ensures v in Ackers(cfg, h', t, k) {
      assert AckGrows(h, h', t, v);
    }
  }

  lemma QuorumGrows(cfg: Config, h: Hist, h': Hist, t: nat, k: nat)
    requires Grows(h, h') && QuorumHolds(cfg, h, t, k)
    ensures QuorumHolds(cfg, h', t, k)
  {
    AckersGrow(cfg, h, h', t, k);
    Subset(Ackers(cfg, h, t, k), Ackers(cfg, h', t, k));
    assert ReignGrows(h, h', t);
  }

  /** A commitment outlives growth, a longer or replaced log that keeps the prefix, and a later bound. */
  lemma CommittedGrows(cfg: Config, h: Hist, h': Hist, f: seq<Entry>, f': seq<Entry>, c: nat, bound: nat, bound': nat)
    requires Grows(h, h') && Committed(cfg, h, f, c, bound) && bound <= bound'
    requires c <= |f'| && f[..c] == f'[..c]
    ensures Committed(cfg, h', f', c, bound')
  {
    if c > 0 {
      var t: nat, k: nat :| t <= bound && CommitWitness(cfg, h, f, c, t, k);
      QuorumGrows(cfg, h, h', t, k);
      SamePrefix(h, h', t, c);
      assert CommitWitness(cfg, h', f', c, t, k);
    }
  }

  lemma GrowsTrans(h: Hist, h': Hist, h'': Hist)
    requires Grows(h, h') && Grows(h', h'')
    ensures Grows(h, h'')
  {
    forall t | t in h.reign ensures ReignGrows(h, h'', t) {
      assert ReignGrows(h, h', t) && ReignGrows(h', h'', t);
    }
    forall t, v | (t, v) in h.ack ensures AckGrows(h, h'', t, v) {
      assert AckGrows(h, h', t, v) && AckGrows(h', h'', t, v);
    }
  }

  lemma MsgGrows(cfg: Config, h: Hist, h': Hist, m: Msg)
    requires Grows(h, h') && MsgOk(cfg, h, m)
    ensures MsgOk(cfg, h', m)
  {
    match m {
      case VoteReq(_, _, _, _, _) =>
      case VoteReply(_, _, _, _, _) =>
      case AppendReply(src, _, reqTerm, _, _, _, _, _) =>
        if (reqTerm, src) in h.ack { assert AckGrows(h, h', reqTerm, src); }
      case SnapReply(src, _, reqTerm, _, _, _) =>
        if (reqTerm, src) in h.ack { assert AckGrows(h, h', reqTerm, src); }
      case AppendReq(_, _, _, prev, _, entries, commit) =>
        assert ReignGrows(h, h', m.term);
        var log, log' := h.reign[m.term].log, h'.reign[m.term].log;
        assert log'[prev..prev + |entries|] == log[prev..prev + |entries|];
        CommittedGrows(cfg, h, h', log, log', commit, m.term, m.term);
      case SnapReq(_, _, _, snap) =>
        assert ReignGrows(h, h', m.term);
        var log, log' := h.reign[m.term].log, h'.reign[m.term].log;
        CommittedGrows(cfg, h, h', log, log', snap.index, m.term, m.term);
    }
  }

  // ---- what matching logs share --------------------------------------------

  /** Log Matching: an index and a term determine everything up to them. */
  lemma LogsMatch(h: Hist, f: seq<Entry>, g: seq<Entry>)
    requires LogOk(h, f) && LogOk(h, g)
    ensures Matching(f, g)
  {
    forall k: nat ensures MatchAt(f, g, k) {
      assert Anchored(h, f, k + 1) && Anchored(h, g, k + 1);
      if k < |f| && k < |g| && f[k].term == g[k].term {
        var log := h.reign[f[k].term].log;
        assert f[..k + 1] == log[..k + 1] == g[..k + 1];
      }
    }
  }

  /** A log at least as up to date as one that holds a prefix of term t's log holds that prefix too. */
  lemma UpToDateHolds(h: Hist, e: seq<Entry>, b: seq<Entry>, t: nat, p: seq<Entry>)
    requires LogOk(h, e) && LogOk(h, b) && MoreUpToDate(e, b)
    requires p != [] && p <= b && p[|p| - 1].term == t
    requires forall s | s in h.reign && t < s && Below(e, s + 1) && e != [] && e[|e| - 1].term == s ::
               p <= h.reign[s].log && Sorted(h.reign[s].log)
    ensures p <= e
  {
    var k := |p|;
    assert b[k - 1] == p[k - 1];
    assert Ordered(b, k - 1, |b| - 1);
    assert e != [];
    var s := e[|e| - 1].term;
    assert Anchored(h, e, |e|) && Anchored(h, b, |b|);
    assert e == e[..|e|] && b == b[..|b|];
    if s == b[|b| - 1].term {
      PrefixesCompare(b, e, h.reign[s].log);
    } else {
      forall j | 0 <= j < |e| ensures e[j].term < s + 1 { assert Ordered(e, j, |e| - 1); }
      var log := h.reign[s].log;
      assert p <= log && log[k - 1] == p[k - 1];
      assert log[|e| - 1] == e[|e| - 1];
      assert Ordered(log, |e| - 1, k - 1);
      PrefixesCompare(p, e, log);
    }
  }

  /** Leader Completeness: what a quorum holds from term t, every later leader started with. */
  lemma {:induction false} LeadersComplete(cfg: Config, h: Hist, t: nat, k: nat, T: nat)
    requires HistOk(cfg, h) && QuorumHolds(cfg, h, t, k)
    requires T in h.reign && t < T
    ensures h.reign[t].log[..k] <= h.reign[T].start
    decreases T
  {
    var p := h.reign[t].log[..k];
    var r := h.reign[T];
    assert ReignOk(cfg, h, T) && ReignOk(cfg, h, t);
    forall v | v in r.electors ensures v in Members(cfg.size) { assert ElectorOk(cfg, h, T, v); }
    var v := QuorumsMeet(cfg, r.electors, Ackers(cfg, h, t, k));
    assert ElectorOk(cfg, h, T, v);
    assert BallotOk(cfg, h, T, v) && BallotOk(cfg, h, T, r.leader);
    var b := h.ballots[(T, v)].log;
    assert KeptAll(h, b, t, v, T - 1);
    assert Kept(h, b, t, k, T - 1);
    if !(p <= b) {
      var u :| t < u <= T - 1 && Broke(h, u, t, k);
      LeadersComplete(cfg, h, t, k, u);
      assert false;
    }
    forall s | s in h.reign && t < s && Below(r.start, s + 1) && r.start != [] && r.start[|r.start| - 1].term == s
      ensures p <= h.reign[s].log && Sorted(h.reign[s].log)
    {
      LeadersComplete(cfg, h, t, k, s);
      assert ReignOk(cfg, h, s);
    }
    UpToDateHolds(h, r.start, b, t, p);
  }

  /** Whatever is committed by term T is in the log of the leader of term T. */
  lemma CommittedInReign(cfg: Config, h: Hist, f: seq<Entry>, c: nat, T: nat)
    requires HistOk(cfg, h) && Committed(cfg, h, f, c, T) && T in h.reign
    ensures f[..c] <= h.reign[T].log
  {
    if c > 0 {
      var t: nat, k: nat :| t <= T && CommitWitness(cfg, h, f, c, t, k);
      var p := h.reign[t].log[..k];
      if t < T {
        LeadersComplete(cfg, h, t, k, T);
        assert ReignOk(cfg, h, T);
        PrefixTrans(p, h.reign[T].start, h.reign[T].log);
      }
      assert f[..c] == p[..c];
    }
  }

  /** Two committed prefixes agree wherever both reach. */
  lemma CommittedAgree(cfg: Config, h: Hist, f: seq<Entry>, c: nat, b: nat, g: seq<Entry>, d: nat, b': nat)
    requires HistOk(cfg, h) && Committed(cfg, h, f, c, b) && Committed(cfg, h, g, d, b')
    requires c <= d
    ensures f[..c] == g[..c]
  {
    if c > 0 {
      var t: nat, k: nat :| t <= b && CommitWitness(cfg, h, f, c, t, k);
      var t': nat, k': nat :| t' <= b' && CommitWitness(cfg, h, g, d, t', k');
      if t <= t' {
        assert CommitWitness(cfg, h, f, c, t, k);
        CommittedInReign(cfg, h, f, c, t');
        assert g[..d][..c] == g[..c];
        assert f[..c] == h.reign[t'].log[..c];
        assert h.reign[t'].log[..d][..c] == h.reign[t'].log[..c];
      } else {
        CommittedInReign(cfg, h, g, d, t);
        assert g[..d][..c] == g[..c];
        assert h.reign[t].log[..d][..c] == h.reign[t].log[..c];
      }
    }
  }
}
