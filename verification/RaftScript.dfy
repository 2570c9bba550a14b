/**
 Steps of runs that are written out: clusters in which every applied entry is compacted at once, and
 what each step does to a node described by its term, its whole log, and how much of it is committed.
 */
module RaftScript {
  import opened Wrappers
  import opened Commands
  import opened RaftNode
  import opened RaftView
  import opened RaftCluster
  import opened RaftGrow
  import opened RaftSlips

  /** A snapshot after every entry, and more than one node. */
  predicate Packs(cfg: Config) {
    cfg.snapshotEvery == Some(1) && cfg.size >= 2
  }

  // ---- nodes ---------------------------------------------------------------

  /** The node's term, its whole log, and that it has committed, applied and compacted `k` entries of it. */
  ghost predicate Is(nd: Node, i: Id, term: nat, f: seq<Entry>, k: nat) {
    nd.id == i && nd.currentTerm == term && View(nd, f) && nd.snapshotIndex == nd.commitIndex == k
  }

  lemma PeersAre(cfg: Config, i: Id)
    ensures forall p: Id :: p in Peers(cfg, i) <==> p < cfg.size && p != i
  {
    MembersAre(cfg.size);
  }

  /** Applying what is committed compacts it as well. */
  lemma {:induction false} Applies(cfg: Config, nd: Node, f: seq<Entry>)
    requires Packs(cfg) && View(nd, f) && nd.snapshotIndex == nd.lastApplied
    ensures var nd' := ApplyCommitted(cfg, nd);
            View(nd', f) && nd'.snapshotIndex == nd.commitIndex && Core(nd') == Core(nd)
    decreases nd.commitIndex - nd.lastApplied
  {
    if nd.lastApplied < nd.commitIndex {
      ApplyOneDelivers(cfg, nd, f);
      DeliverView(nd, f);
      var nd1 := Deliver(nd.(lastApplied := nd.lastApplied + 1), f[nd.lastApplied]);
      TakeSnapshotView(nd1, f);
      assert Core(TakeSnapshot(nd1)).commitIndex == Core(nd1).commitIndex;
      Applies(cfg, TakeSnapshot(nd1), f);
    }
  }

  /** Everything the apply loop leaves alone, read off its core. */
  lemma CoreKeeps(nd: Node, nd': Node)
    requires Core(nd') == Core(nd)
    ensures nd'.id == nd.id && nd'.currentTerm == nd.currentTerm && nd'.role == nd.role
            && nd'.commitIndex == nd.commitIndex
    ensures nd'.nextIndex == nd.nextIndex && nd'.matchIndex == nd.matchIndex && nd'.votedFor == nd.votedFor
  {
    var a, b := Core(nd'), Core(nd);
    assert a.id == b.id && a.currentTerm == b.currentTerm && a.role == b.role && a.commitIndex == b.commitIndex
        && a.nextIndex == b.nextIndex && a.matchIndex == b.matchIndex && a.votedFor == b.votedFor;
  }

  // ---- leaders -------------------------------------------------------------

  /** A leader whose next index for every peer lies within its log or just after it. */
  ghost predicate Leads(cfg: Config, nd: Node, i: Id, term: nat, f: seq<Entry>, k: nat) {
    && Packs(cfg) && Is(nd, i, term, f, k) && nd.role == Leader && i < cfg.size
    && nd.nextIndex.Keys == Peers(cfg, i) && nd.matchIndex.Keys == Peers(cfg, i)
    && forall p | p in nd.nextIndex :: 1 <= nd.nextIndex[p] <= |f| + 1
  }

  /** What such a leader sends to a peer. */
  function Offer(i: Id, p: Id, term: nat, f: seq<Entry>, k: nat, next: nat): Msg
    requires 1 <= next <= |f| + 1 && k <= |f|
  {
    if next - 1 < k then SnapReq(i, p, term, Snapshot(k, TermOf(f, k), f[..k]))
    else AppendReq(i, p, term, next - 1, TermOf(f, next - 1), f[next - 1..], k)
  }

  lemma OffersOne(cfg: Config, nd: Node, i: Id, term: nat, f: seq<Entry>, k: nat, p: Id)
    requires Leads(cfg, nd, i, term, f, k) && p in nd.nextIndex
    ensures NeedsSnapshot(nd, p) <==> nd.nextIndex[p] - 1 < k
    ensures nd.nextIndex[p] - 1 >= k ==> AppendFor(nd, p) == Offer(i, p, term, f, k, nd.nextIndex[p])
  {
    var prev := nd.nextIndex[p] - 1;
    TermAtView(nd, f, prev);
    FilterFrom(f, nd.snapshotIndex, prev + 1);
  }

  lemma Offers(cfg: Config, nd: Node, i: Id, term: nat, f: seq<Entry>, k: nat, p: Id)
    requires Leads(cfg, nd, i, term, f, k) && p in nd.nextIndex
    ensures Replicate(cfg, nd).node == nd && Offer(i, p, term, f, k, nd.nextIndex[p]) in Replicate(cfg, nd).sent
  {
    forall q | q in nd.nextIndex ensures NeedsSnapshot(nd, q) <==> nd.nextIndex[q] - 1 < k {
      OffersOne(cfg, nd, i, term, f, k, q);
    }
    OffersOne(cfg, nd, i, term, f, k, p);
    LeadsRole(cfg, nd, i, term, f, k);
    ReplicatesTo(cfg, nd, p);
    if k == 0 { NobodyBehind(cfg, nd); }
  }

  lemma ReplicatesTo(cfg: Config, nd: Node, p: Id)
    requires nd.role == Leader && p in Peers(cfg, nd.id)
    ensures nd.snapshot.Some? ==> Replicate(cfg, nd).node == nd
    ensures !NeedsSnapshot(nd, p) ==> AppendFor(nd, p) in Replicate(cfg, nd).sent
    ensures NeedsSnapshot(nd, p) && nd.snapshot.Some? ==>
              SnapReq(nd.id, p, nd.currentTerm, nd.snapshot.value) in Replicate(cfg, nd).sent
  {
    hide NeedsSnapshot, AppendFor;
  }

  lemma NobodyBehind(cfg: Config, nd: Node)
    requires nd.role == Leader && nd.snapshot == None && forall q | q in Peers(cfg, nd.id) :: !NeedsSnapshot(nd, q)
    ensures Replicate(cfg, nd).node == nd
  {
    hide NeedsSnapshot, AppendFor;
    var behind := set q | q in Peers(cfg, nd.id) && NeedsSnapshot(nd, q);
    assert behind == {};
    assert nd.nextIndex + (map q | q in behind :: 1) == nd.nextIndex;
  }

  lemma Appends(cfg: Config, nd: Node, i: Id, term: nat, f: seq<Entry>, k: nat, cmd: Command)
    requires Leads(cfg, nd, i, term, f, k) && term >= 1
    ensures var nd' := Append(nd, cmd);
            Leads(cfg, nd', i, term, f + [Entry(term, |f| + 1, cmd)], k)
            && nd'.nextIndex == nd.nextIndex && nd'.matchIndex == nd.matchIndex
  {
    LastView(nd, f);
    var f' := f + [Entry(term, |f| + 1, cmd)];
    assert f'[k..] == f[k..] + [Entry(term, |f| + 1, cmd)] && f'[..k] == f[..k] && TermOf(f', k) == TermOf(f, k);
  }

  lemma ProposesIs(cfg: Config, nd: Node, i: Id, term: nat, f: seq<Entry>, k: nat, cmd: Command, p: Id)
    requires Leads(cfg, nd, i, term, f, k) && term >= 1 && p in nd.nextIndex
    ensures var f', out := f + [Entry(term, |f| + 1, cmd)], RaftNode.Propose(cfg, nd, cmd);
            && Leads(cfg, out.node, i, term, f', k) && out.node.nextIndex == nd.nextIndex
                && out.node.matchIndex == nd.matchIndex
            && Offer(i, p, term, f', k, nd.nextIndex[p]) in out.sent
  {
    Appends(cfg, nd, i, term, f, k, cmd);
    Offers(cfg, Append(nd, cmd), i, term, f + [Entry(term, |f| + 1, cmd)], k, p);
    hide Leads, Replicate, Append, Offer;
    assert RaftNode.Propose(cfg, nd, cmd) == Replicate(cfg, Append(nd, cmd)) by { LeadsRole(cfg, nd, i, term, f, k); }
  }

  lemma LeadsRole(cfg: Config, nd: Node, i: Id, term: nat, f: seq<Entry>, k: nat)
    requires Leads(cfg, nd, i, term, f, k)
    ensures nd.role == Leader && Is(nd, i, term, f, k) && nd.nextIndex.Keys == Peers(cfg, i)
            && nd.currentTerm == term && nd.id == i
  {
  }

  // ---- elections -----------------------------------------------------------

  lemma StandsIs(cfg: Config, nd: Node, i: Id, term: nat, f: seq<Entry>, k: nat, p: Id)
    requires Packs(cfg) && Is(nd, i, term, f, k) && i < cfg.size && p in Peers(cfg, i)
    ensures var out := StartElection(cfg, nd);
            && Is(out.node, i, term + 1, f, k) && out.node.role == Candidate && out.node.granted == {i}
            && VoteReq(i, p, term + 1, |f|, TermOf(f, |f|)) in out.sent
  {
    LastView(nd, f);
    LastView(Stand(nd), f);
  }

  /** A vote in a newer term for a log at least as good. */
  lemma GrantsIs(nd: Node, i: Id, term: nat, f: seq<Entry>, k: nat, m: Msg)
    requires Is(nd, i, term, f, k) && m.VoteReq? && term < m.term
    ensures var out := VoteAnyway(nd, m);
            && Is(out.node, i, m.term, f, k) && out.node.role == Follower
            && out.sent == {VoteReply(i, m.src, m.term, m.term, true)}
            && (UpToDate(nd, m.lastLogIndex, m.lastLogTerm) ==> HandleVote(nd, m) == out)
  {
    hide UpToDate;
    var nd1 := BecomeFollower(nd, m.term).(votedFor := Some(m.src));
    assert Is(nd1, i, m.term, f, k);
    hide Is;
    SameVote(nd, m);
  }

  lemma SameVote(nd: Node, m: Msg)
    requires m.VoteReq? && nd.currentTerm < m.term
    ensures VoteAnyway(nd, m)
            == Out(BecomeFollower(nd, m.term).(votedFor := Some(m.src)),
                {VoteReply(nd.id, m.src, m.term, m.term, true)})
    ensures UpToDate(nd, m.lastLogIndex, m.lastLogTerm) ==> HandleVote(nd, m) == VoteAnyway(nd, m)
  {
  }

  lemma OwnEntry(cfg: Config, nd: Node, i: Id, term: nat, f: seq<Entry>, k: nat)
    requires Packs(cfg) && Is(nd, i, term, f, k) && i < cfg.size && term >= 1
    ensures var nd1 := Append(Lead(cfg, nd), Noop);
            Leads(cfg, nd1, i, term, f + [Entry(term, |f| + 1, Noop)], k)
            && forall p | p in Peers(cfg, i) :: nd1.nextIndex[p] == |f| + 1 && nd1.matchIndex[p] == 0
  {
    LastView(nd, f);
    Appends(cfg, Lead(cfg, nd), i, term, f, k, Noop);
  }

  /** The vote that makes a quorum makes a leader, whose log grows by the announcing entry. */
  lemma WinsIs(cfg: Config, nd: Node, i: Id, term: nat, f: seq<Entry>, k: nat, v: Id, p: Id)
    requires Packs(cfg) && Is(nd, i, term, f, k) && nd.role == Candidate && i < cfg.size && term >= 1
    requires |nd.granted + {v}| >= Quorum(cfg) && p in Peers(cfg, i)
    ensures var f', out := f + [Entry(term, |f| + 1, Noop)], OnVoteReply(cfg, nd, VoteReply(v, i, term, term, true));
            && Leads(cfg, out.node, i, term, f', k) && Offer(i, p, term, f', k, |f| + 1) in out.sent
            && forall q | q in Peers(cfg, i) :: out.node.nextIndex[q] == |f| + 1 && out.node.matchIndex[q] == 0
  {
    hide OnVoteReply, Replicate, Is, Leads, Append, Lead, Offer, BecomeLeader, Peers, View;
    var nd1 := nd.(granted := nd.granted + {v});
    IsWhoever(nd, nd.granted + {v}, i, term, f, k);
    OwnEntry(cfg, nd1, i, term, f, k);
    LastVote(cfg, nd, i, term, v);
    var led := Append(Lead(cfg, nd1), Noop);
    LeadsRole(cfg, led, i, term, f + [Entry(term, |f| + 1, Noop)], k);
    Offers(cfg, led, i, term, f + [Entry(term, |f| + 1, Noop)], k, p);
    LeadsTwice(cfg, nd1);
  }

  lemma IsWhoever(nd: Node, granted: set<Id>, i: Id, term: nat, f: seq<Entry>, k: nat)
    requires Is(nd, i, term, f, k)
    ensures Is(nd.(granted := granted), i, term, f, k) && nd.currentTerm == term
  {
  }

  lemma LastVote(cfg: Config, nd: Node, i: Id, term: nat, v: Id)
    requires nd.role == Candidate && nd.currentTerm == term && |nd.granted + {v}| >= Quorum(cfg)
    ensures OnVoteReply(cfg, nd, VoteReply(v, i, term, term, true))
            == BecomeLeader(cfg, nd.(granted := nd.granted + {v}))
  {
    hide BecomeLeader;
  }

  // ---- replication ---------------------------------------------------------

  /**
   A follower that agrees with log `g` up to `prev`, and has compacted no more, adopts it and learns what is
   committed.
   */
  lemma StoresIs(cfg: Config, nd: Node, i: Id, t0: nat, f: seq<Entry>, k: nat, src: Id, term: nat, prev: nat,
      g: seq<Entry>, commit: nat)
    requires Packs(cfg) && Is(nd, i, t0, f, k) && t0 <= term && Numbered(g) && Matching(f, g)
    requires k <= prev <= |f| && prev <= |g| && f[..prev] == g[..prev] && commit <= |g|
    ensures var m := AppendReq(src, i, term, prev, TermOf(g, prev), g[prev..], commit);
            var out := HandleAppend(cfg, nd, m);
            && Is(out.node, i, term, Adopted(f, g), Max(k, commit)) && out.node.role == Follower
            && out.sent == {AppendReply(i, src, term, prev, |g| - prev, term, true, None)}
  {
    var m := AppendReq(src, i, term, prev, TermOf(g, prev), g[prev..], commit);
    hide Merge, PrevMatches, Matching, Heed, HandleAppend, LearnCommit, TermOf, View, Adopted;
    var nd1 := Heed(nd, m);
    IsIn(nd, i, t0, f, k);
    HeedsIs(nd, f, m);
    PrevHolds(nd1, f, g, m);
    AcceptIs(cfg, nd, m);
    MergesIs(nd1, f, k, prev, g);
    LearnsIs(cfg, Merge(nd1, g[prev..]), nd1, Adopted(f, g), k, commit);
    IsId(nd1, LearnCommit(cfg, Merge(nd1, g[prev..]), commit), i, term, Adopted(f, g), Max(k, commit));
  }

  lemma MergesIs(nd: Node, f: seq<Entry>, k: nat, prev: nat, g: seq<Entry>)
    requires View(nd, f) && nd.snapshotIndex == nd.commitIndex == k && Numbered(g) && Matching(f, g)
    requires k <= prev <= |f| && prev <= |g| && f[..prev] == g[..prev]
    ensures View(Merge(nd, g[prev..]), Adopted(f, g)) && Merge(nd, g[prev..]).(log := []) == nd.(log := [])
    ensures |g| <= |Adopted(f, g)|
  {
    assert f[..k] == f[..prev][..k] == g[..prev][..k] == g[..k];
    MergeView(nd, f, g, prev);
  }

  lemma AcceptIs(cfg: Config, nd: Node, m: Msg)
    requires m.AppendReq? && nd.currentTerm <= m.term && PrevMatches(Heed(nd, m), m)
    ensures var nd' := LearnCommit(cfg, Merge(Heed(nd, m), m.entries), m.leaderCommit);
            HandleAppend(cfg, nd, m)
            == Out(nd', {AppendReply(nd'.id, m.src, m.term, m.prevLogIndex, |m.entries|, nd'.currentTerm, true, None)})
  {
    hide LearnCommit, Merge, PrevMatches, Heed, ConflictIndex;
  }

  lemma IsId(was: Node, nd: Node, i: Id, term: nat, f: seq<Entry>, k: nat)
    requires Is(nd, was.id, was.currentTerm, f, k) && was.id == i && was.currentTerm == term
    ensures Is(nd, i, term, f, k) && nd.id == i && nd.currentTerm == term
  {
  }

  lemma HeedsIs(nd: Node, f: seq<Entry>, m: Msg)
    requires View(nd, f) && m.AppendReq? && nd.currentTerm <= m.term
    ensures var nd1 := Heed(nd, m);
            View(nd1, f) && nd1.currentTerm == m.term && nd1.role == Follower && nd1.id == nd.id
            && nd1.snapshotIndex == nd.snapshotIndex && nd1.commitIndex == nd.commitIndex
  {
  }

  lemma PrevHolds(nd: Node, f: seq<Entry>, g: seq<Entry>, m: Msg)
    requires View(nd, f) && m.AppendReq? && nd.snapshotIndex <= m.prevLogIndex <= |f| && m.prevLogIndex <= |g|
    requires f[..m.prevLogIndex] == g[..m.prevLogIndex] && m.prevLogTerm == TermOf(g, m.prevLogIndex)
    ensures PrevMatches(nd, m)
  {
    var prev := m.prevLogIndex;
    TermAtView(nd, f, prev);
    assert prev > 0 ==> f[..prev][prev - 1] == g[..prev][prev - 1];
  }

  lemma LearnsIs(cfg: Config, nd: Node, was: Node, f: seq<Entry>, k: nat, commit: nat)
    requires Packs(cfg) && View(nd, f) && nd.(log := []) == was.(log := [])
             && was.snapshotIndex == was.commitIndex == k && commit <= |f|
    ensures var nd' := LearnCommit(cfg, nd, commit);
            Is(nd', was.id, was.currentTerm, f, Max(k, commit)) && nd'.role == was.role
  {
    assert nd.(log := []).snapshotIndex == was.(log := []).snapshotIndex
        && nd.(log := []).commitIndex == was.(log := []).commitIndex
        && nd.(log := []).id == was.(log := []).id && nd.(log := []).currentTerm == was.(log := []).currentTerm
        && nd.(log := []).role == was.(log := []).role;
    LastView(nd, f);
    if commit > k {
      var nd1 := nd.(commitIndex := commit);
      assert Min(commit, LastIndex(nd)) == commit;
      Applies(cfg, nd1, f);
      CoreKeeps(nd1, ApplyCommitted(cfg, nd1));
      hide ApplyCommitted;
    }
  }

  /** What a leader believes after a success that reaches `n`. */
  function Heard(nd: Node, p: Id, n: nat): Node {
    nd.(matchIndex := nd.matchIndex[p := Max(if p in nd.matchIndex then nd.matchIndex[p] else 0, n)],
        nextIndex := nd.nextIndex[p := n + 1])
  }

  lemma HeardLeads(cfg: Config, nd: Node, i: Id, term: nat, f: seq<Entry>, k: nat, p: Id, n: nat)
    requires Leads(cfg, nd, i, term, f, k) && p in nd.nextIndex && n <= |f|
    ensures Leads(cfg, Heard(nd, p, n), i, term, f, k)
  {
  }

  /** Enough peers that hold the whole log: it is committed, applied and compacted. */
  lemma CommitsIs(cfg: Config, nd: Node, i: Id, term: nat, f: seq<Entry>, k: nat, p: Id, t: nat, prev: nat, count: nat)
    requires Leads(cfg, nd, i, term, f, k) && p in nd.nextIndex && prev + count == |f| > k
             && TermOf(f, |f|) == term && t <= term
    requires Replicas(Heard(nd, p, |f|), |f|) >= Quorum(cfg)
    ensures var nd' := OnAppendReply(cfg, nd, AppendReply(p, i, t, prev, count, t, true, None));
            Leads(cfg, nd', i, term, f, |f|) && nd'.nextIndex == nd.nextIndex[p := |f| + 1]
            && nd'.matchIndex == Heard(nd, p, |f|).matchIndex
  {
    hide OnAppendReply, ApplyCommitted, Committable, AdvanceCommit, Leads, LastIndex, TermOf, Is, Replicas;
    var nd1 := Heard(nd, p, |f|);
    HeardLeads(cfg, nd, i, term, f, k, p, |f|);
    LeadsRole(cfg, nd, i, term, f, k);
    AllCommittable(cfg, nd1, i, term, f, k);
    LeadsCommit(cfg, nd1, i, term, f, k);
    HeardIs(cfg, nd, p, prev, count, i, t, t);
    AdvanceIs(cfg, nd1, |f|);
  }

  lemma AdvanceIs(cfg: Config, nd: Node, n: nat)
    requires Committable(cfg, nd, LastIndex(nd)) == Some(n)
    ensures AdvanceCommit(cfg, nd) == ApplyCommitted(cfg, nd.(commitIndex := n))
  {
  }

  lemma HeardIs(cfg: Config, nd: Node, p: Id, prev: nat, count: nat, i: Id, reqTerm: nat, term: nat)
    requires nd.role == Leader && term <= nd.currentTerm
    ensures OnAppendReply(cfg, nd, AppendReply(p, i, reqTerm, prev, count, term, true, None))
            == AdvanceCommit(cfg, Heard(nd, p, prev + count))
  {
    hide AdvanceCommit;
  }

  lemma AllCommittable(cfg: Config, nd: Node, i: Id, term: nat, f: seq<Entry>, k: nat)
    requires Leads(cfg, nd, i, term, f, k) && k < |f| && TermOf(f, |f|) == term && Replicas(nd, |f|) >= Quorum(cfg)
    ensures Committable(cfg, nd, LastIndex(nd)) == Some(|f|)
  {
    LastView(nd, f);
    TermAtView(nd, f, |f|);
  }

  lemma LeadsCommit(cfg: Config, nd: Node, i: Id, term: nat, f: seq<Entry>, k: nat)
    requires Leads(cfg, nd, i, term, f, k)
    ensures var nd' := ApplyCommitted(cfg, nd.(commitIndex := |f|));
            Leads(cfg, nd', i, term, f, |f|) && nd'.nextIndex == nd.nextIndex && nd'.matchIndex == nd.matchIndex
  {
    var nd1 := nd.(commitIndex := |f|);
    Applies(cfg, nd1, f);
    CoreKeeps(nd1, ApplyCommitted(cfg, nd1));
    hide ApplyCommitted;
  }

  lemma {:induction false} TooFewHold(cfg: Config, nd: Node, n: nat)
    requires Replicas(nd, nd.commitIndex + 1) < Quorum(cfg)
    ensures Committable(cfg, nd, n) == None
  {
    if n > nd.commitIndex {
      Subset(Holders(nd, n), Holders(nd, nd.commitIndex + 1));
      TooFewHold(cfg, nd, n - 1);
    }
  }

  /** A success that makes no quorum for anything new moves the books and the next index, and nothing else. */
  lemma NotesIs(cfg: Config, nd: Node, i: Id, term: nat, f: seq<Entry>, k: nat, p: Id, prev: nat, count: nat)
    requires Leads(cfg, nd, i, term, f, k) && p in nd.nextIndex && prev + count <= |f|
    requires Replicas(Heard(nd, p, prev + count), k + 1) < Quorum(cfg)
    ensures var nd' := OnAppendReply(cfg, nd, AppendReply(p, i, term, prev, count, term, true, None));
            Leads(cfg, nd', i, term, f, k) && nd' == Heard(nd, p, prev + count)
  {
    var nd1 := Heard(nd, p, prev + count);
    LeadsIn(cfg, nd, i, term, f, k);
    HeardLeads(cfg, nd, i, term, f, k, p, prev + count);
    TooFewHold(cfg, nd1, LastIndex(nd1));
    HeardIs(cfg, nd, p, prev, count, i, term, term);
    hide OnAppendReply, Committable, Leads, LastIndex, Replicas;
  }

  lemma LeadsIn(cfg: Config, nd: Node, i: Id, term: nat, f: seq<Entry>, k: nat)
    requires Leads(cfg, nd, i, term, f, k)
    ensures nd.role == Leader && nd.currentTerm == term && nd.commitIndex == k <= |f|
  {
  }

  // ---- steps of the cluster ------------------------------------------------

  ghost predicate At(cfg: Config, slip: Slip, c: Cluster) {
    Packs(cfg) && Reachable(cfg, slip, c) && |c.nodes| == cfg.size
  }

  lemma Goes(cfg: Config, slip: Slip, c: Cluster, step: RaftCluster.Step, out: Out) returns (c': Cluster)
    requires At(cfg, slip, c) && Enabled(c, step) && Lets(slip, c, step)
    requires SlipAct(cfg, slip, c.nodes[Actor(step)], step) == out
    ensures At(cfg, slip, c') && c' == After(c, Actor(step), out)
  {
    hide SlipAct, Lets, Reachable, Enabled;
    assert |c.nodes| == cfg.size && Actor(step) < cfg.size by { ActorIs(c, step); }
    Reach(cfg, slip, c, step);
    c' := After(c, Actor(step), out);
  }

  lemma ActorIs(c: Cluster, step: RaftCluster.Step)
    requires Enabled(c, step)
    ensures Actor(step) < |c.nodes|
  {
  }

  /** All but the nodes listed are as they were, and no message is lost. */
  ghost predicate Else(c: Cluster, c': Cluster, changed: set<Id>) {
    && |c.nodes| == |c'.nodes| && c.net <= c'.net
    && forall p | 0 <= p < |c.nodes| && p !in changed :: c'.nodes[p] == c.nodes[p]
  }

  /** The leader has offered its log to everyone. */
  ghost predicate Offered(c: Cluster, i: Id, term: nat, f: seq<Entry>, k: nat, p: Id, next: nat) {
    1 <= next <= |f| + 1 && k <= |f| && Offer(i, p, term, f, k, next) in c.net
  }

  lemma Begins(cfg: Config, slip: Slip) returns (c: Cluster)
    requires Packs(cfg)
    ensures At(cfg, slip, c) && forall i | 0 <= i < cfg.size :: c.nodes[i] == Fresh(i)
    ensures forall i: Id :: Is(Fresh(i), i, 0, [], 0)
  {
    c := Cluster(seq(cfg.size, i requires 0 <= i => Fresh(i)), {});
    Starts(cfg, slip, c);
  }

  /** A node that would vote for a candidate of term `term` with log `f`. */
  ghost predicate Backs(slip: Slip, nd: Node, term: nat, f: seq<Entry>) {
    nd.currentTerm < term && (slip == AnyVote || UpToDate(nd, |f|, TermOf(f, |f|)))
  }

  lemma Stands(cfg: Config, slip: Slip, c: Cluster, i: Id, term: nat, f: seq<Entry>, k: nat) returns (c': Cluster)
    requires At(cfg, slip, c) && i < cfg.size && Is(c.nodes[i], i, term, f, k) && c.nodes[i].role != Leader
    ensures At(cfg, slip, c') && Else(c, c', {i})
    ensures Is(c'.nodes[i], i, term + 1, f, k) && c'.nodes[i].role == Candidate && c'.nodes[i].granted == {i}
    ensures forall p | p in Peers(cfg, i) :: VoteReq(i, p, term + 1, |f|, TermOf(f, |f|)) in c'.net
  {
    forall p | p in Peers(cfg, i)
      ensures VoteReq(i, p, term + 1, |f|, TermOf(f, |f|)) in StartElection(cfg, c.nodes[i]).sent
    {
      StandsIs(cfg, c.nodes[i], i, term, f, k, p);
    }
    var other := if i == 0 then 1 else 0;
    assert other in Peers(cfg, i) by { PeersAre(cfg, i); }
    StandsIs(cfg, c.nodes[i], i, term, f, k, other);
    hide Is, StartElection, TermOf, Reachable;
    c' := Goes(cfg, slip, c, Timeout(i), StartElection(cfg, c.nodes[i]));
  }

  lemma Grants(cfg: Config, slip: Slip, c: Cluster, i: Id, v: Id, term: nat, f: seq<Entry>, tv: nat,
      fv: seq<Entry>, kv: nat) returns (c': Cluster)
    requires At(cfg, slip, c) && v < cfg.size && VoteReq(i, v, term, |f|, TermOf(f, |f|)) in c.net
    requires Is(c.nodes[v], v, tv, fv, kv) && tv < term && Backs(slip, c.nodes[v], term, f)
    ensures At(cfg, slip, c') && Else(c, c', {v})
    ensures Is(c'.nodes[v], v, term, fv, kv) && c'.nodes[v].role == Follower
    ensures VoteReply(v, i, term, term, true) in c'.net
  {
    var m := VoteReq(i, v, term, |f|, TermOf(f, |f|));
    GrantsIs(c.nodes[v], v, tv, fv, kv, m);
    hide Is, HandleVote, VoteAnyway, TermOf, Reachable, UpToDate;
    c' := Goes(cfg, slip, c, Receive(m), VoteAnyway(c.nodes[v], m));
  }

  /** What winning an election on log `f` makes of a node, and what it sends. */
  ghost predicate WonAs(cfg: Config, out: Out, i: Id, t: nat, f: seq<Entry>, k: nat) {
    var f' := f + [Entry(t, |f| + 1, Noop)];
    && k <= |f| && Leads(cfg, out.node, i, t, f', k)
    && (forall p | p in Peers(cfg, i) ::
          && p in out.node.nextIndex && out.node.nextIndex[p] == |f| + 1
          && p in out.node.matchIndex && out.node.matchIndex[p] == 0)
    && forall p | p in Peers(cfg, i) :: Offer(i, p, t, f', k, |f| + 1) in out.sent
  }

  lemma WinsAll(cfg: Config, nd: Node, i: Id, term: nat, f: seq<Entry>, k: nat, v: Id)
    requires Packs(cfg) && Is(nd, i, term, f, k) && nd.role == Candidate && i < cfg.size && term >= 1
    requires |nd.granted + {v}| >= Quorum(cfg) && v in Peers(cfg, i)
    ensures WonAs(cfg, OnVoteReply(cfg, nd, VoteReply(v, i, term, term, true)), i, term, f, k)
  {
    var f', out := f + [Entry(term, |f| + 1, Noop)], OnVoteReply(cfg, nd, VoteReply(v, i, term, term, true));
    WinsIs(cfg, nd, i, term, f, k, v, v);
    LeadsMatch(cfg, out.node, i, term, f', k);
    LeadsRole(cfg, out.node, i, term, f', k);
    IsIn(nd, i, term, f, k);
    hide OnVoteReply, Offer, Leads;
    forall p | p in Peers(cfg, i) ensures Offer(i, p, term, f', k, |f| + 1) in out.sent {
      WinsIs(cfg, nd, i, term, f, k, v, p);
    }
  }

  lemma IsIn(nd: Node, i: Id, term: nat, f: seq<Entry>, k: nat)
    requires Is(nd, i, term, f, k)
    ensures k <= |f| && nd.id == i && nd.currentTerm == term && nd.snapshotIndex == nd.commitIndex == k && View(nd, f)
  {
  }

  /** The leader's own step: it leads on with log `f`, and everyone has been offered what they lack of it. */
  ghost predicate OffersAll(cfg: Config, was: Node, out: Out, i: Id, term: nat, f: seq<Entry>, k: nat) {
    && Leads(cfg, out.node, i, term, f, k) && out.node.nextIndex == was.nextIndex
        && out.node.matchIndex == was.matchIndex
    && forall p | p in was.nextIndex :: Sent(out.sent, i, term, f, k, p, was.nextIndex[p])
  }

  ghost predicate Sent(sent: set<Msg>, i: Id, term: nat, f: seq<Entry>, k: nat, p: Id, next: nat) {
    1 <= next <= |f| + 1 && k <= |f| && Offer(i, p, term, f, k, next) in sent
  }

  lemma NextIn(cfg: Config, nd: Node, i: Id, term: nat, f: seq<Entry>, k: nat, p: Id)
    requires Leads(cfg, nd, i, term, f, k) && p in nd.nextIndex
    ensures 1 <= nd.nextIndex[p] <= |f| + 1 && k <= |f|
  {
  }

  lemma ProposesAll(cfg: Config, nd: Node, i: Id, term: nat, f: seq<Entry>, k: nat, cmd: Command, q: Id)
    requires Leads(cfg, nd, i, term, f, k) && term >= 1 && q in nd.nextIndex
    ensures OffersAll(cfg, nd, RaftNode.Propose(cfg, nd, cmd), i, term, f + [Entry(term, |f| + 1, cmd)], k)
  {
    hide RaftNode.Propose, Offer, Leads;
    ProposesIs(cfg, nd, i, term, f, k, cmd, q);
    var out := RaftNode.Propose(cfg, nd, cmd);
    forall p | p in nd.nextIndex
      ensures Sent(out.sent, i, term, f + [Entry(term, |f| + 1, cmd)], k, p, nd.nextIndex[p])
    {
      ProposesIs(cfg, nd, i, term, f, k, cmd, p);
      NextIn(cfg, nd, i, term, f, k, p);
    }
  }

  lemma BeatsAll(cfg: Config, nd: Node, i: Id, term: nat, f: seq<Entry>, k: nat, q: Id)
    requires Leads(cfg, nd, i, term, f, k) && q in nd.nextIndex
    ensures OffersAll(cfg, nd, Replicate(cfg, nd), i, term, f, k)
  {
    hide Replicate, Offer, Leads;
    Offers(cfg, nd, i, term, f, k, q);
    forall p | p in nd.nextIndex ensures Sent(Replicate(cfg, nd).sent, i, term, f, k, p, nd.nextIndex[p]) {
      Offers(cfg, nd, i, term, f, k, p);
      NextIn(cfg, nd, i, term, f, k, p);
    }
  }

  lemma Says(cfg: Config, slip: Slip, c: Cluster, i: Id, term: nat, f: seq<Entry>, k: nat, cmd: Command, q: Id)
      returns (c': Cluster)
    requires At(cfg, slip, c) && i < cfg.size && term >= 1 && Leads(cfg, c.nodes[i], i, term, f, k)
             && q in c.nodes[i].nextIndex
    ensures var f' := f + [Entry(term, |f| + 1, cmd)];
            && At(cfg, slip, c') && Else(c, c', {i}) && Leads(cfg, c'.nodes[i], i, term, f', k)
            && c'.nodes[i].nextIndex == c.nodes[i].nextIndex && c'.nodes[i].matchIndex == c.nodes[i].matchIndex
            && forall p | p in c.nodes[i].nextIndex :: Offered(c', i, term, f', k, p, c.nodes[i].nextIndex[p])
  {
    hide Init, Offer, Leads, Replicate;
    ProposesAll(cfg, c.nodes[i], i, term, f, k, cmd, q);
    hide RaftNode.Propose, Reachable;
    c' := Goes(cfg, slip, c, RaftCluster.Step.Propose(i, cmd), RaftNode.Propose(cfg, c.nodes[i], cmd));
    OfferedIs(cfg, c.nodes[i], c, c', RaftNode.Propose(cfg, c.nodes[i], cmd), i, term,
        f + [Entry(term, |f| + 1, cmd)], k);
  }

  lemma OfferedIs(cfg: Config, was: Node, c: Cluster, c': Cluster, out: Out, i: Id, term: nat, f: seq<Entry>, k: nat)
    requires OffersAll(cfg, was, out, i, term, f, k) && out.sent <= c'.net
    ensures forall p | p in was.nextIndex :: Offered(c', i, term, f, k, p, was.nextIndex[p])
  {
    hide Leads, Offer;
    forall p | p in was.nextIndex ensures Offered(c', i, term, f, k, p, was.nextIndex[p]) {
      assert Sent(out.sent, i, term, f, k, p, was.nextIndex[p]);
    }
  }

  lemma Beats(cfg: Config, slip: Slip, c: Cluster, i: Id, term: nat, f: seq<Entry>, k: nat, q: Id) returns (c': Cluster)
    requires At(cfg, slip, c) && i < cfg.size && Leads(cfg, c.nodes[i], i, term, f, k) && q in c.nodes[i].nextIndex
    ensures At(cfg, slip, c') && Else(c, c', {i}) && Leads(cfg, c'.nodes[i], i, term, f, k)
    ensures c'.nodes[i].nextIndex == c.nodes[i].nextIndex && c'.nodes[i].matchIndex == c.nodes[i].matchIndex
    ensures forall p | p in c.nodes[i].nextIndex :: Offered(c', i, term, f, k, p, c.nodes[i].nextIndex[p])
  {
    BeatsAll(cfg, c.nodes[i], i, term, f, k, q);
    hide Leads, Replicate, Offer, Reachable;
    c' := Goes(cfg, slip, c, Heartbeat(i), Replicate(cfg, c.nodes[i]));
    OfferedIs(cfg, c.nodes[i], c, c', Replicate(cfg, c.nodes[i]), i, term, f, k);
  }

  /** An offer of entries reaches node `p`. */
  lemma Stores(cfg: Config, slip: Slip, c: Cluster, i: Id, p: Id, term: nat, g: seq<Entry>, commit: nat, next: nat,
      tp: nat, f: seq<Entry>, k: nat)
    returns (c': Cluster)
    requires At(cfg, slip, c) && p < cfg.size && Offered(c, i, term, g, commit, p, next) && commit <= next - 1
    requires Is(c.nodes[p], p, tp, f, k) && tp <= term && Numbered(g) && Matching(f, g)
    requires k <= next - 1 <= |f| && f[..next - 1] == g[..next - 1]
    ensures At(cfg, slip, c') && Else(c, c', {p})
    ensures Is(c'.nodes[p], p, term, Adopted(f, g), Max(k, commit)) && c'.nodes[p].role == Follower
    ensures AppendReply(p, i, term, next - 1, |g| - (next - 1), term, true, None) in c'.net
  {
    hide Offered, Matching, Adopted, TermOf, HandleAppend, Reachable, Is, View;
    OfferedEntries(c, i, term, g, commit, p, next);
    var m := AppendReq(i, p, term, next - 1, TermOf(g, next - 1), g[next - 1..], commit);
    var out := HandleAppend(cfg, c.nodes[p], m);
    hide Offer;
    StoresIs(cfg, c.nodes[p], p, tp, f, k, i, term, next - 1, g, commit);
    IsIn(c.nodes[p], p, tp, f, k);
    c' := Delivers(cfg, slip, c, m, out);
  }

  lemma OfferedEntries(c: Cluster, i: Id, term: nat, g: seq<Entry>, commit: nat, p: Id, next: nat)
    requires Offered(c, i, term, g, commit, p, next) && commit <= next - 1
    ensures 1 <= next <= |g| + 1 && commit <= |g|
    ensures AppendReq(i, p, term, next - 1, TermOf(g, next - 1), g[next - 1..], commit) in c.net
  {
  }

  lemma Delivers(cfg: Config, slip: Slip, c: Cluster, m: Msg, out: Out) returns (c': Cluster)
    requires At(cfg, slip, c) && m.AppendReq? && m in c.net && m.dst < cfg.size
             && out == HandleAppend(cfg, c.nodes[m.dst], m)
    requires slip == FromStart || m.prevLogIndex != 0 || c.nodes[m.dst].snapshotIndex == 0
    ensures At(cfg, slip, c') && c' == After(c, m.dst, out)
  {
    hide HandleAppend, Reachable;
    c' := Goes(cfg, slip, c, Receive(m), out);
  }

  /** A reply that may be delivered: one to this leadership, or any where late ones are let through. */
  lemma MayHear(slip: Slip, c: Cluster, m: Msg)
    requires m in c.net && m.AppendReply? && m.success && m.dst < |c.nodes|
    requires slip == LateReply || m.reqTerm == c.nodes[m.dst].currentTerm
    ensures slip == LateReply || TrueReply(c, m)
  {
    if slip != LateReply { assert Tells(m, m.src, m.dst, m.reqTerm, Claim(m)); }
  }

  lemma Hears(cfg: Config, slip: Slip, c: Cluster, m: Msg) returns (c': Cluster)
    requires At(cfg, slip, c) && slip != NoTermTest && m.AppendReply? && m in c.net && m.dst < cfg.size
    requires slip == LateReply || TrueReply(c, m)
    ensures At(cfg, slip, c') && Else(c, c', {m.dst}) && c'.nodes[m.dst] == OnAppendReply(cfg, c.nodes[m.dst], m)
  {
    hide OnAppendReply, Reachable, TrueReply;
    c' := Goes(cfg, slip, c, Receive(m), Out(OnAppendReply(cfg, c.nodes[m.dst], m), {}));
  }

  /** The reply that makes a quorum, to whatever request. */
  lemma Commits(cfg: Config, slip: Slip, c: Cluster, i: Id, p: Id, t: nat, term: nat, f: seq<Entry>, k: nat,
      prev: nat, count: nat)
    returns (c': Cluster)
    requires At(cfg, slip, c) && slip != NoTermTest && i < cfg.size
    requires Leads(cfg, c.nodes[i], i, term, f, k) && p in c.nodes[i].nextIndex
    requires AppendReply(p, i, t, prev, count, t, true, None) in c.net && t <= term && (slip == LateReply || t == term)
    requires prev + count == |f| > k && TermOf(f, |f|) == term
    requires Replicas(Heard(c.nodes[i], p, |f|), |f|) >= Quorum(cfg)
    ensures At(cfg, slip, c') && Else(c, c', {i}) && Leads(cfg, c'.nodes[i], i, term, f, |f|)
    ensures c'.nodes[i].nextIndex == c.nodes[i].nextIndex[p := |f| + 1]
    ensures c'.nodes[i].matchIndex == Heard(c.nodes[i], p, |f|).matchIndex
  {
    var m := AppendReply(p, i, t, prev, count, t, true, None);
    CommitsIs(cfg, c.nodes[i], i, term, f, k, p, t, prev, count);
    LeadsIn(cfg, c.nodes[i], i, term, f, k);
    MayHear(slip, c, m);
    hide Leads, OnAppendReply, TermOf, TrueReply, Replicas;
    c' := Hears(cfg, slip, c, m);
  }

  /** The reply that makes none. */
  lemma Notes(cfg: Config, slip: Slip, c: Cluster, i: Id, p: Id, term: nat, f: seq<Entry>, k: nat, prev: nat,
      count: nat)
    returns (c': Cluster)
    requires At(cfg, slip, c) && slip != NoTermTest && i < cfg.size
    requires Leads(cfg, c.nodes[i], i, term, f, k) && p in c.nodes[i].nextIndex
    requires AppendReply(p, i, term, prev, count, term, true, None) in c.net && prev + count <= |f|
    requires Replicas(Heard(c.nodes[i], p, prev + count), k + 1) < Quorum(cfg)
    ensures At(cfg, slip, c') && Else(c, c', {i}) && Leads(cfg, c'.nodes[i], i, term, f, k)
    ensures c'.nodes[i] == Heard(c.nodes[i], p, prev + count)
  {
    var m := AppendReply(p, i, term, prev, count, term, true, None);
    NotesIs(cfg, c.nodes[i], i, term, f, k, p, prev, count);
    LeadsIn(cfg, c.nodes[i], i, term, f, k);
    MayHear(slip, c, m);
    hide Leads, OnAppendReply, TrueReply, Replicas;
    c' := Hears(cfg, slip, c, m);
  }

  // ---- an election, and entries stored where the last ones ended ------------

  /** Node i leads a new term on log `f` and has told everyone. */
  ghost predicate Led(cfg: Config, c: Cluster, i: Id, t: nat, f: seq<Entry>, k: nat) {
    var f' := f + [Entry(t, |f| + 1, Noop)];
    && i < |c.nodes| && Leads(cfg, c.nodes[i], i, t, f', k)
    && forall p | p in Peers(cfg, i) ::
         && p in c.nodes[i].nextIndex && c.nodes[i].nextIndex[p] == |f| + 1
         && p in c.nodes[i].matchIndex && c.nodes[i].matchIndex[p] == 0 && Offered(c, i, t, f', k, p, |f| + 1)
  }

  /** The last vote that node i needs. */
  lemma Wins(cfg: Config, slip: Slip, c: Cluster, i: Id, v: Id, term: nat, f: seq<Entry>, k: nat) returns (c': Cluster)
    requires At(cfg, slip, c) && i < cfg.size && v in Peers(cfg, i) && term >= 1
             && VoteReply(v, i, term, term, true) in c.net
    requires Is(c.nodes[i], i, term, f, k) && c.nodes[i].role == Candidate && |c.nodes[i].granted + {v}| >= Quorum(cfg)
    ensures At(cfg, slip, c') && Else(c, c', {i}) && Led(cfg, c', i, term, f, k)
  {
    hide OnVoteReply, Reachable, Peers, Is, Led, WonAs;
    var m := VoteReply(v, i, term, term, true);
    var out := OnVoteReply(cfg, c.nodes[i], m);
    WinsAll(cfg, c.nodes[i], i, term, f, k, v);
    c' := Goes(cfg, slip, c, Receive(m), out);
    LedAfter(cfg, c, out, i, term, f, k);
  }

  lemma LedAfter(cfg: Config, c: Cluster, out: Out, i: Id, t: nat, f: seq<Entry>, k: nat)
    requires i < |c.nodes| && WonAs(cfg, out, i, t, f, k)
    ensures Led(cfg, After(c, i, out), i, t, f, k)
  {
    hide Offer, Peers;
    LeadsRole(cfg, out.node, i, t, f + [Entry(t, |f| + 1, Noop)], k);
    LeadsMatch(cfg, out.node, i, t, f + [Entry(t, |f| + 1, Noop)], k);
  }

  lemma LeadsMatch(cfg: Config, nd: Node, i: Id, term: nat, f: seq<Entry>, k: nat)
    requires Leads(cfg, nd, i, term, f, k)
    ensures nd.matchIndex.Keys == Peers(cfg, i) && k <= |f|
  {
  }

  /** A vote that is not yet the last one needed. */
  lemma Counts(cfg: Config, slip: Slip, c: Cluster, i: Id, v: Id, term: nat, f: seq<Entry>, k: nat)
      returns (c': Cluster)
    requires At(cfg, slip, c) && i < cfg.size && VoteReply(v, i, term, term, true) in c.net
    requires Is(c.nodes[i], i, term, f, k) && c.nodes[i].role == Candidate && |c.nodes[i].granted + {v}| < Quorum(cfg)
    ensures At(cfg, slip, c') && Else(c, c', {i}) && Is(c'.nodes[i], i, term, f, k)
    ensures c'.nodes[i].role == Candidate && c'.nodes[i].granted == c.nodes[i].granted + {v}
  {
    var m := VoteReply(v, i, term, term, true);
    hide Reachable;
    c' := Goes(cfg, slip, c, Receive(m), Out(c.nodes[i].(granted := c.nodes[i].granted + {v}), {}));
  }

  /** Node i stands and node v grants it a vote. */
  lemma Asks(
    cfg: Config, slip: Slip, c: Cluster, i: Id, v: Id, t: nat, f: seq<Entry>, k: nat, tv: nat, fv: seq<Entry>, kv: nat)
    returns (c': Cluster)
    requires At(cfg, slip, c) && i < cfg.size && v < cfg.size && i != v && c.nodes[i].role != Leader
    requires Is(c.nodes[i], i, t, f, k) && Is(c.nodes[v], v, tv, fv, kv) && tv <= t && Backs(slip, c.nodes[v], t + 1, f)
    ensures At(cfg, slip, c') && Else(c, c', {i, v})
    ensures Is(c'.nodes[i], i, t + 1, f, k) && c'.nodes[i].role == Candidate && c'.nodes[i].granted == {i}
    ensures Is(c'.nodes[v], v, t + 1, fv, kv) && c'.nodes[v].role == Follower
    ensures VoteReply(v, i, t + 1, t + 1, true) in c'.net
    ensures forall p | p in Peers(cfg, i) :: VoteReq(i, p, t + 1, |f|, TermOf(f, |f|)) in c'.net
  {
    hide Is, Backs, Reachable, TermOf, Peers;
    assert v in Peers(cfg, i) by { PeersAre(cfg, i); }
    var c1 := Stands(cfg, slip, c, i, t, f, k);
    assert VoteReq(i, v, t + 1, |f|, TermOf(f, |f|)) in c1.net;
    c' := Grants(cfg, slip, c1, i, v, t + 1, f, tv, fv, kv);
  }

  /** Where two votes are enough: node i stands, node v votes for it, and it leads. */
  lemma Elects(
    cfg: Config, slip: Slip, c: Cluster, i: Id, v: Id, t: nat, f: seq<Entry>, k: nat, tv: nat, fv: seq<Entry>, kv: nat)
    returns (c': Cluster)
    requires At(cfg, slip, c) && Quorum(cfg) == 2 && i < cfg.size && v < cfg.size && i != v && c.nodes[i].role != Leader
    requires Is(c.nodes[i], i, t, f, k) && Is(c.nodes[v], v, tv, fv, kv) && tv <= t && Backs(slip, c.nodes[v], t + 1, f)
    ensures At(cfg, slip, c') && Else(c, c', {i, v}) && Led(cfg, c', i, t + 1, f, k)
    ensures Is(c'.nodes[v], v, t + 1, fv, kv) && c'.nodes[v].role == Follower
  {
    hide Is, Led, Backs, Reachable, Peers;
    assert v in Peers(cfg, i) by { PeersAre(cfg, i); }
    var c1 := Asks(cfg, slip, c, i, v, t, f, k, tv, fv, kv);
    assert |{i} + {v}| == 2;
    c' := Wins(cfg, slip, c1, i, v, t + 1, f, k);
  }

  /** Where three are: nodes v and u vote for node i, all three on the same log. */
  lemma ElectsByTwo(cfg: Config, slip: Slip, c: Cluster, i: Id, v: Id, u: Id, t: nat, tv: nat, tu: nat, f: seq<Entry>)
    returns (c': Cluster)
    requires At(cfg, slip, c) && Quorum(cfg) == 3 && i < cfg.size && v < cfg.size && u < cfg.size
    requires i != v && i != u && v != u && c.nodes[i].role != Leader && tv <= t && tu <= t
    requires Is(c.nodes[i], i, t, f, 0) && Is(c.nodes[v], v, tv, f, 0) && Is(c.nodes[u], u, tu, f, 0)
    ensures At(cfg, slip, c') && Else(c, c', {i, v, u}) && Led(cfg, c', i, t + 1, f, 0)
    ensures Is(c'.nodes[v], v, t + 1, f, 0) && c'.nodes[v].role == Follower
    ensures Is(c'.nodes[u], u, t + 1, f, 0) && c'.nodes[u].role == Follower
    ensures forall p | p in Peers(cfg, i) :: VoteReq(i, p, t + 1, |f|, TermOf(f, |f|)) in c'.net
  {
    hide Is, Led, Backs, Reachable, Peers, TermOf;
    BacksOwn(slip, c.nodes[v], v, tv, f, 0, t + 1);
    BacksOwn(slip, c.nodes[u], u, tu, f, 0, t + 1);
    assert v in Peers(cfg, i) && u in Peers(cfg, i) by { PeersAre(cfg, i); }
    var c1 := Asks(cfg, slip, c, i, v, t, f, 0, tv, f, 0);
    assert VoteReq(i, u, t + 1, |f|, TermOf(f, |f|)) in c1.net;
    var c2 := Grants(cfg, slip, c1, i, u, t + 1, f, tu, f, 0);
    c' := WinsByTwo(cfg, slip, c2, i, v, u, t + 1, f);
  }

  lemma WinsByTwo(cfg: Config, slip: Slip, c: Cluster, i: Id, v: Id, u: Id, t: nat, f: seq<Entry>) returns (c': Cluster)
    requires At(cfg, slip, c) && Quorum(cfg) == 3 && i < cfg.size && u in Peers(cfg, i) && i != v && i != u
             && v != u && t >= 1
    requires Is(c.nodes[i], i, t, f, 0) && c.nodes[i].role == Candidate && c.nodes[i].granted == {i}
    requires VoteReply(v, i, t, t, true) in c.net && VoteReply(u, i, t, t, true) in c.net
    ensures At(cfg, slip, c') && Else(c, c', {i}) && Led(cfg, c', i, t, f, 0)
  {
    hide Is, Led, Reachable, Peers;
    assert |{i} + {v}| == 2 && {i} + {v} + {u} == {i, v, u} && |{i, v, u}| == 3;
    var c1 := Counts(cfg, slip, c, i, v, t, f, 0);
    c' := Wins(cfg, slip, c1, i, u, t, f, 0);
  }

  /** A node backs a candidate whose log is its own. */
  lemma BacksOwn(slip: Slip, nd: Node, i: Id, tv: nat, f: seq<Entry>, k: nat, term: nat)
    requires Is(nd, i, tv, f, k) && tv < term
    ensures Backs(slip, nd, term, f)
  {
    LastView(nd, f);
  }

  /** A follower at the end of whose log the offer begins takes all of it. */
  lemma Extends(cfg: Config, slip: Slip, c: Cluster, i: Id, p: Id, term: nat, g: seq<Entry>, commit: nat, tp: nat,
      f: seq<Entry>, k: nat) returns (c': Cluster)
    requires At(cfg, slip, c) && p < cfg.size && Offered(c, i, term, g, commit, p, |f| + 1) && commit <= |f|
    requires Is(c.nodes[p], p, tp, f, k) && tp <= term && Numbered(g) && f <= g
    ensures At(cfg, slip, c') && Else(c, c', {p})
    ensures Is(c'.nodes[p], p, term, g, Max(k, commit)) && c'.nodes[p].role == Follower
    ensures AppendReply(p, i, term, |f|, |g| - |f|, term, true, None) in c'.net
  {
    hide Reachable, Offered;
    forall j: nat ensures MatchAt(f, g, j) {}
    IsIn(c.nodes[p], p, tp, f, k);
    assert f[..|f|] == g[..|f|];
    c' := Stores(cfg, slip, c, i, p, term, g, commit, |f| + 1, tp, f, k);
    if g <= f { assert f == g; }
  }

  /** What a node has applied. */
  lemma HasApplied(nd: Node, i: Id, term: nat, f: seq<Entry>, k: nat)
    requires Is(nd, i, term, f, k)
    ensures nd.app == f[..k] && (k == |f| ==> nd.app == f)
  {
  }
}
