/**
 The history a run leaves behind, and the invariant that ties every node and every message to it.
 History is part of the proof only; nothing in the cluster reads it.
 */
module RaftInv {
  import opened Wrappers
  import opened RaftNode
  import opened RaftView
  import opened RaftCluster

  /** One leadership: who led, who elected it, its log when elected, and its log as it grew. */
  datatype Reign = Reign(leader: Id, electors: set<Id>, start: seq<Entry>, log: seq<Entry>)

  /** A vote: for whom, and the voter's log when it voted. */
  datatype Ballot = Ballot(cand: Id, log: seq<Entry>)

  /**
   `full[i]` is node i's whole log; `reign` and `ballots` are keyed by term, `ack[(t, v)]` is how far
   node v has acknowledged the log of term t.
   */
  datatype Hist = Hist(full: seq<seq<Entry>>, reign: map<nat, Reign>, ballots: map<(nat, Id), Ballot>,
      ack: map<(nat, Id), nat>)

  // ---- logs ----------------------------------------------------------------

  ghost predicate Ordered(f: seq<Entry>, j: nat, k: nat) {
    j <= k < |f| ==> f[j].term <= f[k].term
  }

  ghost predicate Sorted(f: seq<Entry>) {
    forall j: nat, k: nat :: Ordered(f, j, k)
  }

  ghost predicate Below(f: seq<Entry>, term: nat) {
    forall k | 0 <= k < |f| :: f[k].term < term
  }

  /** The prefix of `f` of length k is a prefix of the log of the leader that wrote its last entry. */
  ghost predicate Anchored(h: Hist, f: seq<Entry>, k: nat) {
    0 < k <= |f| ==> f[k - 1].term in h.reign && f[..k] <= h.reign[f[k - 1].term].log
  }

  ghost predicate LogOk(h: Hist, f: seq<Entry>) {
    && Numbered(f)
    && Sorted(f)
    && forall k: nat :: Anchored(h, f, k)
  }

  // ---- retention and commitment --------------------------------------------

  /** The leader of term u started without the first k entries of term t's log. */
  ghost predicate Broke(h: Hist, u: nat, t: nat, k: nat)
    requires t in h.reign && k <= |h.reign[t].log|
  {
    u in h.reign && !(h.reign[t].log[..k] <= h.reign[u].start)
  }

  /** `f` holds the first k entries of term t's log, unless a leader after t and up to `bound` lacked them. */
  ghost predicate Kept(h: Hist, f: seq<Entry>, t: nat, k: nat, bound: nat)
    requires t in h.reign && k <= |h.reign[t].log|
  {
    h.reign[t].log[..k] <= f || exists u :: t < u <= bound && Broke(h, u, t, k)
  }

  ghost predicate KeptAll(h: Hist, f: seq<Entry>, t: nat, v: Id, bound: nat)
    requires (t, v) in h.ack && t in h.reign && h.ack[(t, v)] <= |h.reign[t].log|
  {
    forall k: nat | k <= h.ack[(t, v)] :: Kept(h, f, t, k, bound)
  }

  ghost predicate AckOk(cfg: Config, h: Hist, t: nat, v: Id)
    requires (t, v) in h.ack
  {
    v < cfg.size && t in h.reign && h.ack[(t, v)] <= |h.reign[t].log|
  }

  ghost predicate AcksOk(cfg: Config, h: Hist) {
    forall t, v | (t, v) in h.ack :: AckOk(cfg, h, t, v)
  }

  function Ack(h: Hist, t: nat, v: Id): nat {
    if (t, v) in h.ack then h.ack[(t, v)] else 0
  }

  function Ackers(cfg: Config, h: Hist, t: nat, k: nat): set<Id> {
    set v | v in Members(cfg.size) && (t, v) in h.ack && h.ack[(t, v)] >= k
  }

  /** A quorum holds entry k of term t's log, and that entry was written in term t. */
  ghost predicate QuorumHolds(cfg: Config, h: Hist, t: nat, k: nat) {
    && t in h.reign && 0 < k <= |h.reign[t].log|
    && h.reign[t].log[k - 1].term == t
    && |Ackers(cfg, h, t, k)| >= Quorum(cfg)
  }

  ghost predicate CommitWitness(cfg: Config, h: Hist, f: seq<Entry>, c: nat, t: nat, k: nat) {
    QuorumHolds(cfg, h, t, k) && c <= k && c <= |f| && f[..c] == h.reign[t].log[..c]
  }

  /** The first c entries of `f` were committed in some term up to `bound`. */
  ghost predicate Committed(cfg: Config, h: Hist, f: seq<Entry>, c: nat, bound: nat) {
    c <= |f| && (c == 0 || exists t: nat, k: nat :: t <= bound && CommitWitness(cfg, h, f, c, t, k))
  }

  // ---- history -------------------------------------------------------------

  ghost predicate MoreUpToDate(f: seq<Entry>, g: seq<Entry>) {
    TermOf(f, |f|) > TermOf(g, |g|) || (TermOf(f, |f|) == TermOf(g, |g|) && |f| >= |g|)
  }

  ghost predicate VotedFor(h: Hist, t: nat, v: Id, cand: Id) {
    (t, v) in h.ballots && h.ballots[(t, v)].cand == cand
  }

  ghost predicate BallotOk(cfg: Config, h: Hist, t: nat, v: Id)
    requires (t, v) in h.ballots
    requires AcksOk(cfg, h)
  {
    var b := h.ballots[(t, v)];
    && t > 0 && v < cfg.size && b.cand < cfg.size
    && LogOk(h, b.log)
    && VotedFor(h, t, b.cand, b.cand)
    && Below(h.ballots[(t, b.cand)].log, t)
    && MoreUpToDate(h.ballots[(t, b.cand)].log, b.log)
    && forall t0 | t0 < t && (t0, v) in h.ack :: KeptAll(h, b.log, t0, v, t)
  }

  ghost predicate ElectorOk(cfg: Config, h: Hist, t: nat, v: Id)
    requires t in h.reign
    requires AcksOk(cfg, h)
  {
    && VotedFor(h, t, v, h.reign[t].leader)
    && v in Members(cfg.size)
    && forall t0 | t0 < t && (t0, v) in h.ack :: KeptAll(h, h.ballots[(t, v)].log, t0, v, t - 1)
  }

  ghost predicate ReignOk(cfg: Config, h: Hist, t: nat)
    requires t in h.reign
    requires AcksOk(cfg, h)
  {
    var r := h.reign[t];
    && t > 0 && r.leader < cfg.size
    && r.start <= r.log && LogOk(h, r.log)
    && Below(r.start, t)
    && (forall k | |r.start| <= k < |r.log| :: r.log[k].term == t)
    && |r.electors| >= Quorum(cfg)
    && (forall v | v in r.electors :: ElectorOk(cfg, h, t, v))
    && VotedFor(h, t, r.leader, r.leader) && h.ballots[(t, r.leader)].log == r.start
  }

  ghost predicate HistOk(cfg: Config, h: Hist) {
    && AcksOk(cfg, h)
    && |h.full| == cfg.size
    && (forall t, v {:trigger BallotOk(cfg, h, t, v)} | (t, v) in h.ballots :: BallotOk(cfg, h, t, v))
    && (forall t {:trigger ReignOk(cfg, h, t)} | t in h.reign :: ReignOk(cfg, h, t))
  }

  // ---- nodes ---------------------------------------------------------------

  ghost predicate RoleOk(cfg: Config, h: Hist, i: Id, nd: Node)
    requires i < |h.full|
  {
    var t := nd.currentTerm;
    && (nd.role.Candidate? ==>
          && VotedFor(h, t, i, i) && h.ballots[(t, i)].log == h.full[i]
          && forall v | v in nd.granted :: VotedFor(h, t, v, i))
    && (nd.role.Leader? ==>
          && t in h.reign && h.reign[t].leader == i && h.reign[t].log == h.full[i]
          && Ack(h, t, i) == |h.full[i]|
          && nd.matchIndex.Keys == Peers(cfg, i)
          && forall p | p in nd.matchIndex :: nd.matchIndex[p] <= Ack(h, t, p))
  }

  /** The node's promises in the history: its votes, its leaderships and its acknowledgements. */
  ghost predicate PromisesOk(h: Hist, i: Id, nd: Node)
    requires i < |h.full|
  {
    var t := nd.currentTerm;
    && (forall t0 | (t0, i) in h.ballots :: t0 <= t && (t0 == t ==> nd.votedFor == Some(h.ballots[(t0, i)].cand)))
    && (nd.votedFor.Some? ==> VotedFor(h, t, i, nd.votedFor.value))
    && (forall t0 | t0 in h.reign && h.reign[t0].leader == i :: t0 <= t && (t0 == t ==> !nd.role.Candidate?))
    && (forall t0 | (t0, i) in h.ack :: t0 <= t && t0 in h.reign && h.ack[(t0, i)] <= |h.reign[t0].log|
                                        && KeptAll(h, h.full[i], t0, i, t))
  }

  ghost predicate NodeOk(cfg: Config, h: Hist, i: Id, nd: Node) {
    && i < |h.full| && nd.id == i
    && View(nd, h.full[i])
    && LogOk(h, h.full[i])
    && Below(h.full[i], nd.currentTerm + 1)
    && RoleOk(cfg, h, i, nd)
    && PromisesOk(h, i, nd)
    && Committed(cfg, h, h.full[i], nd.commitIndex, nd.currentTerm)
  }

  // ---- messages ------------------------------------------------------------

  ghost predicate FromLeader(h: Hist, m: Msg)
    requires m.AppendReq? || m.SnapReq?
  {
    m.term in h.reign && h.reign[m.term].leader == m.src != m.dst
  }

  ghost predicate AppendOk(cfg: Config, h: Hist, m: Msg)
    requires m.AppendReq?
  {
    && FromLeader(h, m)
    && var log := h.reign[m.term].log;
       && m.prevLogIndex + |m.entries| <= |log|
       && m.entries == log[m.prevLogIndex..m.prevLogIndex + |m.entries|]
       && m.prevLogTerm == TermOf(log, m.prevLogIndex)
       && m.leaderCommit <= m.prevLogIndex + |m.entries|
       && Committed(cfg, h, log, m.leaderCommit, m.term)
  }

  ghost predicate SnapOk(cfg: Config, h: Hist, m: Msg)
    requires m.SnapReq?
  {
    && FromLeader(h, m)
    && var log := h.reign[m.term].log;
       && 0 < m.snap.index <= |log|
       && m.snap.state == log[..m.snap.index]
       && m.snap.term == TermOf(log, m.snap.index)
       && Committed(cfg, h, log, m.snap.index, m.term)
  }

  ghost predicate MsgOk(cfg: Config, h: Hist, m: Msg) {
    match m
    case VoteReq(src, _, term, last, lastTerm) =>
      VotedFor(h, term, src, src) && var f := h.ballots[(term, src)].log; last == |f| && lastTerm == TermOf(f, |f|)
    case VoteReply(src, dst, reqTerm, _, granted) =>
      granted ==> VotedFor(h, reqTerm, src, dst)
    case AppendReq(_, _, _, _, _, _, _) => AppendOk(cfg, h, m)
    case AppendReply(src, dst, reqTerm, prev, count, _, success, _) =>
      success ==> src != dst && src < cfg.size && prev + count <= Ack(h, reqTerm, src)
    case SnapReq(_, _, _, _) => SnapOk(cfg, h, m)
    case SnapReply(src, dst, reqTerm, index, term, success) =>
      src != dst && src < cfg.size && if success then index <= Ack(h, reqTerm, src) else term > reqTerm
  }

  ghost predicate Inv(cfg: Config, c: Cluster, h: Hist) {
    && |c.nodes| == cfg.size
    && HistOk(cfg, h)
    && (forall i {:trigger NodeOk(cfg, h, i, c.nodes[i])} | 0 <= i < cfg.size :: NodeOk(cfg, h, i, c.nodes[i]))
    && (forall m {:trigger MsgOk(cfg, h, m)} | m in c.net :: MsgOk(cfg, h, m))
  }

  // ---- growth --------------------------------------------------------------

  ghost predicate ReignGrows(h: Hist, h': Hist, t: nat)
    requires t in h.reign
  {
    && t in h'.reign
    && h'.reign[t] == h.reign[t].(log := h'.reign[t].log)
    && h.reign[t].log <= h'.reign[t].log
  }

  ghost predicate AckGrows(h: Hist, h': Hist, t: nat, v: Id)
    requires (t, v) in h.ack
  {
    (t, v) in h'.ack && h.ack[(t, v)] <= h'.ack[(t, v)]
  }

  /** History is only ever added to. */
  ghost predicate Grows(h: Hist, h': Hist) {
    && (forall t | t in h.reign :: ReignGrows(h, h', t))
    && (forall t, v | (t, v) in h.ballots :: (t, v) in h'.ballots && h'.ballots[(t, v)] == h.ballots[(t, v)])
    && (forall t, v | (t, v) in h.ack :: AckGrows(h, h', t, v))
  }
}
