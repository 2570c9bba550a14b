/**
 Replies to replication requests are checked for the role of the receiver, not for the leadership
 they answer. A run of five nodes, every other delivery sound, in which one late reply makes two nodes
 apply different commands at the same index.
 */
module RaftStale {
  import opened Wrappers
  import opened Commands
  import opened RaftNode
  import opened RaftView
  import opened RaftCluster
  import opened RaftGrow
  import opened RaftSlips
  import opened RaftScript

  const FIVE: Config := Config(5, Some(1))

  const N1: Entry := Entry(1, 1, Noop)
  const X: Entry := Entry(1, 2, Noop)
  const Y: Entry := Entry(1, 3, Noop)
  const N2: Entry := Entry(2, 1, Noop)
  const N3: Entry := Entry(3, 2, Noop)
  const P: Entry := Entry(3, 3, Seed(1))
  const N4: Entry := Entry(4, 2, Noop)
  const Q: Entry := Entry(4, 3, Seed(2))

  /** Node 1's success of term 1, on its way to node 0 until term 3. */
  const LATE: Msg := AppendReply(1, 0, 1, 0, 3, 1, true, None)

  ghost predicate Fives(c: Cluster) {
    At(FIVE, LateReply, c)
  }

  // ---- steps of five -------------------------------------------------------

  /** A leader of which everyone needs the log from `next` on, as far as it knows. */
  ghost predicate LeadsFrom(nd: Node, i: Id, t: nat, f: seq<Entry>, next: nat) {
    && i < 5 && Leads(FIVE, nd, i, t, f, 0)
    && forall p: Id {:trigger Peer(p, i)} | Peer(p, i) ::
         p in nd.nextIndex && nd.nextIndex[p] == next && p in nd.matchIndex && nd.matchIndex[p] == 0
  }

  ghost predicate OfferedAll(c: Cluster, i: Id, t: nat, f: seq<Entry>, next: nat) {
    forall p: Id {:trigger Peer(p, i)} | Peer(p, i) :: Offered(c, i, t, f, 0, p, next)
  }

  lemma LedFrom(c: Cluster, i: Id, t: nat, f: seq<Entry>, g: seq<Entry>)
    requires Led(FIVE, c, i, t, f, 0) && i < 5 && g == f + [Entry(t, |f| + 1, Noop)]
    ensures LeadsFrom(c.nodes[i], i, t, g, |f| + 1) && OfferedAll(c, i, t, g, |f| + 1)
  {
    PeersAre(FIVE, i);
    hide Leads, Offered, Peers;
    forall p: Id | Peer(p, i)
      ensures p in c.nodes[i].nextIndex && c.nodes[i].nextIndex[p] == |f| + 1
      ensures p in c.nodes[i].matchIndex && c.nodes[i].matchIndex[p] == 0 && Offered(c, i, t, g, 0, p, |f| + 1)
    {
      assert p in Peers(FIVE, i);
    }
  }

  /** Node i is elected by v and u, all three on log `f`, and leads on `g`. */
  lemma Rises(c: Cluster, i: Id, v: Id, u: Id, t: nat, tv: nat, tu: nat, f: seq<Entry>, g: seq<Entry>)
    returns (c': Cluster)
    requires Fives(c) && i < 5 && v < 5 && u < 5 && i != v && i != u && v != u && c.nodes[i].role != Leader
    requires Is(c.nodes[i], i, t, f, 0) && Is(c.nodes[v], v, tv, f, 0) && Is(c.nodes[u], u, tu, f, 0)
    requires tv <= t && tu <= t && g == f + [Entry(t + 1, |f| + 1, Noop)]
    ensures Fives(c') && Else(c, c', {i, v, u}) && LeadsFrom(c'.nodes[i], i, t + 1, g, |f| + 1)
    ensures OfferedAll(c', i, t + 1, g, |f| + 1)
    ensures Is(c'.nodes[v], v, t + 1, f, 0) && Is(c'.nodes[u], u, t + 1, f, 0)
    ensures Asked(c', i, t + 1, f)
  {
    hide Is, Led, Reachable, Peers, TermOf;
    c' := ElectsByTwo(FIVE, LateReply, c, i, v, u, t, tv, tu, f);
    LedFrom(c', i, t + 1, f, g);
    AskedAll(c', i, t + 1, f);
  }

  ghost predicate Asked(c: Cluster, i: Id, t: nat, f: seq<Entry>) {
    forall p: Id {:trigger Peer(p, i)} | Peer(p, i) :: VoteReq(i, p, t, |f|, TermOf(f, |f|)) in c.net
  }

  predicate Peer(p: Id, i: Id) {
    p < 5 && p != i
  }

  lemma AskedOne(c: Cluster, i: Id, t: nat, f: seq<Entry>, p: Id)
    requires Asked(c, i, t, f) && Peer(p, i)
    ensures VoteReq(i, p, t, |f|, TermOf(f, |f|)) in c.net
  {
  }

  lemma AskedAll(c: Cluster, i: Id, t: nat, f: seq<Entry>)
    requires forall p | p in Peers(FIVE, i) :: VoteReq(i, p, t, |f|, TermOf(f, |f|)) in c.net
    ensures Asked(c, i, t, f)
  {
    PeersAre(FIVE, i);
    hide Peers;
    forall p: Id | Peer(p, i) ensures VoteReq(i, p, t, |f|, TermOf(f, |f|)) in c.net { assert p in Peers(FIVE, i); }
  }

  lemma Speaks(c: Cluster, i: Id, t: nat, f: seq<Entry>, next: nat, e: Entry) returns (c': Cluster)
    requires Fives(c) && i < 5 && LeadsFrom(c.nodes[i], i, t, f, next) && e.term == t >= 1 && e.index == |f| + 1
    ensures Fives(c') && Else(c, c', {i}) && LeadsFrom(c'.nodes[i], i, t, f + [e], next)
    ensures OfferedAll(c', i, t, f + [e], next)
  {
    var other := if i == 0 then 1 else 0;
    hide Leads, Reachable, Offered;
    assert Peer(other, i);
    c' := Says(FIVE, LateReply, c, i, t, f, 0, e.cmd, other);
    assert f + [Entry(t, |f| + 1, e.cmd)] == f + [e];
    forall p: Id | Peer(p, i)
      ensures p in c'.nodes[i].nextIndex && c'.nodes[i].nextIndex[p] == next && Offered(c', i, t, f + [e], 0, p, next)
      ensures p in c'.nodes[i].matchIndex && c'.nodes[i].matchIndex[p] == 0
    {
      assert p in c.nodes[i].nextIndex;
    }
  }

  lemma OfferedTo(c: Cluster, i: Id, t: nat, f: seq<Entry>, next: nat, p: Id)
    requires OfferedAll(c, i, t, f, next) && Peer(p, i)
    ensures Offered(c, i, t, f, 0, p, next)
  {
  }

  /** Node p, at the end of whose log the offer begins, takes all of it. */
  lemma Takes(c: Cluster, i: Id, t: nat, g: seq<Entry>, p: Id, tp: nat, f: seq<Entry>) returns (c': Cluster)
    requires Fives(c) && OfferedAll(c, i, t, g, |f| + 1) && Peer(p, i) && Is(c.nodes[p], p, tp, f, 0) && tp <= t
    requires Numbered(g) && f <= g
    ensures Fives(c') && Else(c, c', {p}) && Is(c'.nodes[p], p, t, g, 0)
    ensures AppendReply(p, i, t, |f|, |g| - |f|, t, true, None) in c'.net
  {
    hide Is, Reachable, Offered, OfferedAll, Numbered;
    OfferedTo(c, i, t, g, |f| + 1, p);
    c' := Extends(FIVE, LateReply, c, i, p, t, g, 0, tp, f, 0);
  }

  /** Two successes that reach the end of the log, the second to whatever request, make the leader commit it. */
  lemma SecondAck(c: Cluster, i: Id, term: nat, f: seq<Entry>, next: nat, p: Id, q: Id, t: nat, prev: nat)
    returns (c': Cluster)
    requires Fives(c) && i < 5 && LeadsFrom(c.nodes[i], i, term, f, next) && f != [] && TermOf(f, |f|) == term
    requires p < 5 && q < 5 && p != q && p != i && q != i && t <= term && prev <= |f| && 1 <= next <= |f| + 1
    requires AppendReply(p, i, term, next - 1, |f| - (next - 1), term, true, None) in c.net
    requires AppendReply(q, i, t, prev, |f| - prev, t, true, None) in c.net
    ensures Fives(c') && Else(c, c', {i}) && c'.nodes[i].app == f
  {
    hide LeadsFrom, Leads, Reachable, TermOf, Replicas, Heard;
    var nd := c.nodes[i];
    KnownTwo(nd, i, term, f, next, p, q);
    HeardKeeps(nd, p, q, |f|);
    var c1 := Notes(FIVE, LateReply, c, i, p, term, f, 0, next - 1, |f| - (next - 1));
    c' := Commits(FIVE, LateReply, c1, i, q, t, term, f, 0, prev, |f| - prev);
    LeadsRole(FIVE, c'.nodes[i], i, term, f, |f|);
    HasApplied(c'.nodes[i], i, term, f, |f|);
  }

  lemma KnownTwo(nd: Node, i: Id, term: nat, f: seq<Entry>, next: nat, p: Id, q: Id)
    requires LeadsFrom(nd, i, term, f, next) && Peer(p, i) && Peer(q, i) && p != q && f != []
    ensures Leads(FIVE, nd, i, term, f, 0) && p in nd.nextIndex && q in nd.nextIndex
    ensures Replicas(Heard(nd, p, |f|), 1) < Quorum(FIVE)
    ensures Replicas(Heard(Heard(nd, p, |f|), q, |f|), |f|) >= Quorum(FIVE)
  {
    LeadsMatch(FIVE, nd, i, term, f, 0);
    PeersAre(FIVE, i);
    forall r | r in nd.matchIndex ensures nd.matchIndex[r] == 0 { assert Peer(r, i); }
    OneHolds(nd, p, |f|);
    TwoHold(nd, p, q, |f|);
  }

  lemma HeardKeeps(nd: Node, p: Id, q: Id, n: nat)
    ensures q in nd.nextIndex ==> q in Heard(nd, p, n).nextIndex
  {
  }

  lemma OneHolds(nd: Node, p: Id, n: nat)
    requires p in nd.matchIndex && n > 0 && forall q | q in nd.matchIndex :: nd.matchIndex[q] == 0
    ensures Replicas(Heard(nd, p, n), 1) < Quorum(FIVE)
  {
    assert Holders(Heard(nd, p, n), 1) == {p};
  }

  lemma TwoHold(nd: Node, p: Id, q: Id, n: nat)
    requires p in nd.matchIndex && q in nd.matchIndex && p != q
    ensures Replicas(Heard(Heard(nd, p, n), q, n), n) >= Quorum(FIVE)
  {
    Subset({p, q}, Holders(Heard(Heard(nd, p, n), q, n), n));
  }

  // ---- the run -------------------------------------------------------------

  ghost predicate AfterFirst(c: Cluster) {
    && Fives(c) && LATE in c.net
    && Is(c.nodes[0], 0, 1, [N1, X, Y], 0) && Is(c.nodes[1], 1, 1, [N1, X, Y], 0)
    && Is(c.nodes[2], 2, 0, [], 0) && c.nodes[2].role == Follower
    && Is(c.nodes[3], 3, 1, [], 0) && Is(c.nodes[4], 4, 1, [], 0)
  }

  /** Node 0 leads term 1 with the votes of 3 and 4; node 1 stores its three entries, and the answer is delayed. */
  lemma FirstTerm() returns (c: Cluster)
    ensures AfterFirst(c)
  {
    hide AfterFirst, View;
    assert [] + [N1] == [N1];
    hide Is, Reachable, LeadsFrom, OfferedAll;
    var c0 := Begins(FIVE, LateReply);
    var c1 := Rises(c0, 0, 3, 4, 0, 0, 0, [], [N1]);
    c := FirstEntries(c1);
  }

  lemma FirstEntries(c: Cluster) returns (c': Cluster)
    requires Fives(c) && LeadsFrom(c.nodes[0], 0, 1, [N1], 1) && Is(c.nodes[1], 1, 0, [], 0)
    requires Is(c.nodes[2], 2, 0, [], 0) && c.nodes[2].role == Follower
    requires Is(c.nodes[3], 3, 1, [], 0) && Is(c.nodes[4], 4, 1, [], 0)
    ensures AfterFirst(c')
  {
    hide Is, Reachable, LeadsFrom, OfferedAll;
    var c1 := ThreeSaid(c);
    c' := Takes(c1, 0, 1, [N1, X, Y], 1, 0, []);
    LeaderIs(c'.nodes[0], 0, 1, [N1, X, Y], 1);
  }

  lemma ThreeSaid(c: Cluster) returns (c': Cluster)
    requires Fives(c) && LeadsFrom(c.nodes[0], 0, 1, [N1], 1)
    ensures Fives(c') && Else(c, c', {0}) && LeadsFrom(c'.nodes[0], 0, 1, [N1, X, Y], 1)
    ensures OfferedAll(c', 0, 1, [N1, X, Y], 1)
  {
    assert [N1] + [X] == [N1, X] && [N1, X] + [Y] == [N1, X, Y];
    hide Reachable, LeadsFrom, OfferedAll;
    var c1 := Speaks(c, 0, 1, [N1], 1, X);
    c' := Speaks(c1, 0, 1, [N1, X], 1, Y);
  }

  lemma LeaderIs(nd: Node, i: Id, t: nat, f: seq<Entry>, next: nat)
    requires LeadsFrom(nd, i, t, f, next)
    ensures Is(nd, i, t, f, 0)
  {
  }

  ghost predicate AfterSecond(c: Cluster) {
    && Fives(c) && LATE in c.net
    && Is(c.nodes[0], 0, 2, [N2], 0) && Is(c.nodes[1], 1, 2, [N2], 0) && Is(c.nodes[2], 2, 2, [N2], 0)
    && Is(c.nodes[3], 3, 2, [N2], 0) && Is(c.nodes[4], 4, 2, [N2], 0) && c.nodes[0].role == Follower
  }

  /** Node 2 leads term 2 with the votes of 3 and 4, and everyone replaces its log by node 2's. */
  lemma SecondTerm(c: Cluster) returns (c': Cluster)
    requires AfterFirst(c)
    ensures AfterSecond(c')
  {
    hide Is, Reachable, LeadsFrom, OfferedAll;
    var c1 := SecondRises(c);
    var c2 := ReplacesTwo(c1, 0, 1, 1, [N1, X, Y]);
    c' := ReplacesTwo(c2, 3, 4, 2, []);
  }

  lemma SecondRises(c: Cluster) returns (c': Cluster)
    requires Fives(c) && Is(c.nodes[2], 2, 0, [], 0) && c.nodes[2].role == Follower
    requires Is(c.nodes[3], 3, 1, [], 0) && Is(c.nodes[4], 4, 1, [], 0)
    ensures Fives(c') && Else(c, c', {2, 3, 4}) && Is(c'.nodes[2], 2, 2, [N2], 0) && OfferedAll(c', 2, 2, [N2], 1)
    ensures Is(c'.nodes[3], 3, 2, [], 0) && Is(c'.nodes[4], 4, 2, [], 0)
  {
    assert [] + [N2] == [N2];
    hide Is, Reachable, LeadsFrom, OfferedAll;
    var c1 := Stands(FIVE, LateReply, c, 2, 0, [], 0);
    c' := Rises(c1, 2, 3, 4, 1, 1, 1, [], [N2]);
    LeaderIs(c'.nodes[2], 2, 2, [N2], 1);
  }

  /** Two nodes take the log of node 2's term. */
  lemma ReplacesTwo(c: Cluster, p: Id, q: Id, term: nat, f: seq<Entry>) returns (c': Cluster)
    requires Fives(c) && OfferedAll(c, 2, 2, [N2], 1) && term <= 2 && (f == [] || f == [N1, X, Y])
    requires p < 5 && q < 5 && p != q && p != 2 && q != 2
    requires Is(c.nodes[p], p, term, f, 0) && Is(c.nodes[q], q, term, f, 0)
    ensures Fives(c') && Else(c, c', {p, q}) && OfferedAll(c', 2, 2, [N2], 1)
    ensures Is(c'.nodes[p], p, 2, [N2], 0) && c'.nodes[p].role == Follower
    ensures Is(c'.nodes[q], q, 2, [N2], 0) && c'.nodes[q].role == Follower
  {
    hide Is, Reachable, OfferedAll;
    var c1 := Replaces(c, p, term, f);
    c' := Replaces(c1, q, term, f);
  }

  lemma Replaces(c: Cluster, p: Id, term: nat, f: seq<Entry>) returns (c': Cluster)
    requires Fives(c) && OfferedAll(c, 2, 2, [N2], 1) && p < 5 && p != 2 && term <= 2 && (f == [] || f == [N1, X, Y])
    requires Is(c.nodes[p], p, term, f, 0)
    ensures Fives(c') && Else(c, c', {p}) && OfferedAll(c', 2, 2, [N2], 1)
    ensures Is(c'.nodes[p], p, 2, [N2], 0) && c'.nodes[p].role == Follower
  {
    forall k: nat ensures MatchAt(f, [N2], k) {}
    OfferedTo(c, 2, 2, [N2], 1, p);
    hide Is, Reachable, Matching;
    c' := Stores(FIVE, LateReply, c, 2, p, 2, [N2], 0, 1, term, f, 0);
  }

  ghost predicate AfterThird(c: Cluster) {
    && Fives(c) && c.nodes[0].app == [N2, N3, P]
    && Is(c.nodes[1], 1, 3, [N2], 0) && Is(c.nodes[4], 4, 2, [N2], 0)
    && Is(c.nodes[2], 2, 3, [N2], 0) && c.nodes[2].role == Follower
  }

  /** Node 0 leads term 3; node 3 stores its entries, and with the late answer of term 1 that makes a quorum. */
  lemma ThirdTerm(c: Cluster) returns (c': Cluster)
    requires AfterSecond(c)
    ensures AfterThird(c')
  {
    hide Leads, View, Is, Reachable, LeadsFrom, OfferedAll, Backs, Asked, AfterThird, TermOf;
    assert [N2] + [N3] == [N2, N3];
    BacksOwn(LateReply, c.nodes[2], 2, 2, [N2], 0, 3);
    var c1 := Rises(c, 0, 1, 3, 2, 2, 2, [N2], [N2, N3]);
    assert c1.nodes[2] == c.nodes[2];
    AskedOne(c1, 0, 3, [N2], 2);
    var c2 := Grants(FIVE, LateReply, c1, 0, 2, 3, [N2], 2, [N2], 0);
    c' := Miscounts(c2);
  }

  lemma Miscounts(c: Cluster) returns (c': Cluster)
    requires Fives(c) && LATE in c.net && LeadsFrom(c.nodes[0], 0, 3, [N2, N3], 2)
    requires Is(c.nodes[1], 1, 3, [N2], 0) && Is(c.nodes[3], 3, 3, [N2], 0) && Is(c.nodes[4], 4, 2, [N2], 0)
    requires Is(c.nodes[2], 2, 3, [N2], 0) && c.nodes[2].role == Follower
    ensures AfterThird(c')
  {
    hide Is, Reachable, LeadsFrom, TermOf;
    var c1 := ThirdStored(c);
    c' := SecondAck(c1, 0, 3, [N2, N3, P], 2, 3, 1, 1, 0);
  }

  lemma ThirdStored(c: Cluster) returns (c': Cluster)
    requires Fives(c) && LeadsFrom(c.nodes[0], 0, 3, [N2, N3], 2) && Is(c.nodes[3], 3, 3, [N2], 0)
    ensures Fives(c') && Else(c, c', {0, 3}) && LeadsFrom(c'.nodes[0], 0, 3, [N2, N3, P], 2)
    ensures AppendReply(3, 0, 3, 1, 2, 3, true, None) in c'.net
    ensures TermOf([N2, N3, P], 3) == 3
  {
    hide Is, Reachable, LeadsFrom, OfferedAll;
    var c1 := ThirdSaid(c);
    c' := Takes(c1, 0, 3, [N2, N3, P], 3, 3, [N2]);
  }

  lemma ThirdSaid(c: Cluster) returns (c': Cluster)
    requires Fives(c) && LeadsFrom(c.nodes[0], 0, 3, [N2, N3], 2)
    ensures Fives(c') && Else(c, c', {0}) && LeadsFrom(c'.nodes[0], 0, 3, [N2, N3, P], 2)
    ensures OfferedAll(c', 0, 3, [N2, N3, P], 2)
  {
    assert [N2, N3] + [P] == [N2, N3, P];
    hide Is, Reachable, LeadsFrom, OfferedAll;
    c' := Speaks(c, 0, 3, [N2, N3], 2, P);
  }

  /** Node 2 leads term 4 with the votes of 1 and 4, who store its entries: a true quorum for another command. */
  lemma FourthTerm(c: Cluster) returns (c': Cluster)
    requires AfterThird(c)
    ensures Fives(c') && c'.nodes[0].app == [N2, N3, P] && c'.nodes[2].app == [N2, N4, Q]
  {
    assert [N2] + [N4] == [N2, N4];
    hide Is, Reachable, LeadsFrom, OfferedAll;
    var c1 := Rises(c, 2, 1, 4, 3, 3, 2, [N2], [N2, N4]);
    c' := CountsRight(c1);
  }

  lemma CountsRight(c: Cluster) returns (c': Cluster)
    requires Fives(c) && LeadsFrom(c.nodes[2], 2, 4, [N2, N4], 2)
    requires Is(c.nodes[1], 1, 4, [N2], 0) && Is(c.nodes[4], 4, 4, [N2], 0)
    ensures Fives(c') && c'.nodes[0] == c.nodes[0] && c'.nodes[2].app == [N2, N4, Q]
  {
    hide Is, Reachable, LeadsFrom, OfferedAll, TermOf;
    var c1 := FourthSaid(c);
    var c2 := BothStore(c1);
    c' := SecondAck(c2, 2, 4, [N2, N4, Q], 2, 1, 4, 4, 1);
  }

  lemma FourthSaid(c: Cluster) returns (c': Cluster)
    requires Fives(c) && LeadsFrom(c.nodes[2], 2, 4, [N2, N4], 2)
    ensures Fives(c') && Else(c, c', {2}) && LeadsFrom(c'.nodes[2], 2, 4, [N2, N4, Q], 2)
    ensures OfferedAll(c', 2, 4, [N2, N4, Q], 2) && TermOf([N2, N4, Q], 3) == 4
  {
    assert [N2, N4] + [Q] == [N2, N4, Q];
    hide Is, Reachable, LeadsFrom, OfferedAll;
    c' := Speaks(c, 2, 4, [N2, N4], 2, Q);
  }

  lemma OfferedStill(c: Cluster, c': Cluster, i: Id, t: nat, f: seq<Entry>, next: nat)
    requires OfferedAll(c, i, t, f, next) && c.net <= c'.net
    ensures OfferedAll(c', i, t, f, next)
  {
  }

  lemma BothStore(c: Cluster) returns (c': Cluster)
    requires Fives(c) && OfferedAll(c, 2, 4, [N2, N4, Q], 2)
    requires Is(c.nodes[1], 1, 4, [N2], 0) && Is(c.nodes[4], 4, 4, [N2], 0)
    ensures Fives(c') && Else(c, c', {1, 4})
    ensures AppendReply(1, 2, 4, 1, 2, 4, true, None) in c'.net && AppendReply(4, 2, 4, 1, 2, 4, true, None) in c'.net
  {
    hide Is, Reachable, OfferedAll;
    var c1 := Takes(c, 2, 4, [N2, N4, Q], 1, 4, [N2]);
    OfferedStill(c, c1, 2, 4, [N2, N4, Q], 2);
    c' := Takes(c1, 2, 4, [N2, N4, Q], 4, 4, [N2]);
  }

  /**
   With every delivery sound but one late reply, nodes 0 and 2 apply different commands at index 3:
   if replies need not be true, State Machine Safety fails.
   */
  lemma StaleReplyBreaksSafety() returns (run: seq<Cluster>)
    ensures SlipRun(FIVE, LateReply, run)
    ensures var c := run[|run| - 1];
            |c.nodes| == 5 && c.nodes[0].app == [N2, N3, P] && c.nodes[2].app == [N2, N4, Q] && P.cmd != Q.cmd
  {
    var c1 := FirstTerm();
    var c2 := SecondTerm(c1);
    var c3 := ThirdTerm(c2);
    var c4 := FourthTerm(c3);
    run :| SlipRun(FIVE, LateReply, run) && run[|run| - 1] == c4;
  }
}
