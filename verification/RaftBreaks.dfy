/**
 Three runs of three nodes, each sound but for one delivery, or without one test, and each ending with
 two nodes that have applied different commands at the same index.
 */
module RaftBreaks {
  import opened Wrappers
  import opened Commands
  import opened RaftNode
  import opened RaftView
  import opened RaftCluster
  import opened RaftSlips
  import opened RaftScript

  /** What two nodes have applied are not prefixes of one another: State Machine Safety is lost. */
  ghost predicate Diverged(c: Cluster, i: Id, j: Id) {
    && i < |c.nodes| && j < |c.nodes|
    && !(c.nodes[i].app <= c.nodes[j].app) && !(c.nodes[j].app <= c.nodes[i].app)
  }

  lemma Ends(slip: Slip, c: Cluster) returns (run: seq<Cluster>)
    requires At(TRIO, slip, c)
    ensures SlipRun(TRIO, slip, run) && run[|run| - 1] == c
  {
    run :| SlipRun(TRIO, slip, run) && run[|run| - 1] == c;
  }

  const TRIO: Config := Config(3, Some(1))

  const N1: Entry := Entry(1, 1, Noop)
  const X: Entry := Entry(1, 2, Noop)
  const Y: Entry := Entry(1, 3, Seed(1))
  const Z: Entry := Entry(1, 4, Seed(2))

  /** One peer that holds the whole log is enough. */
  lemma CommitsOne(slip: Slip, c: Cluster, i: Id, p: Id, term: nat, f: seq<Entry>, k: nat, prev: nat, count: nat)
    returns (c': Cluster)
    requires At(TRIO, slip, c) && slip != NoTermTest && i < 3
    requires Leads(TRIO, c.nodes[i], i, term, f, k) && p in c.nodes[i].nextIndex
    requires AppendReply(p, i, term, prev, count, term, true, None) in c.net
    requires prev + count == |f| > k && TermOf(f, |f|) == term
    ensures At(TRIO, slip, c') && Else(c, c', {i}) && Leads(TRIO, c'.nodes[i], i, term, f, |f|)
    ensures c'.nodes[i].nextIndex == c.nodes[i].nextIndex[p := |f| + 1]
    ensures (forall q | q in c.nodes[i].matchIndex :: c.nodes[i].matchIndex[q] <= |f|) ==>
              forall q | q in c'.nodes[i].matchIndex :: c'.nodes[i].matchIndex[q] <= |f|
  {
    hide Leads, Reachable, TermOf;
    assert p in Holders(Heard(c.nodes[i], p, |f|), |f|);
    assert |Holders(Heard(c.nodes[i], p, |f|), |f|)| > 0;
    c' := Commits(TRIO, slip, c, i, p, term, term, f, k, prev, count);
  }

  /** A success heard again after its entries were committed moves the next index back. */
  lemma Rehears(slip: Slip, c: Cluster, i: Id, p: Id, term: nat, f: seq<Entry>, k: nat, prev: nat, count: nat)
    returns (c': Cluster)
    requires At(TRIO, slip, c) && slip != NoTermTest && i < 3
    requires Leads(TRIO, c.nodes[i], i, term, f, k) && p in c.nodes[i].nextIndex
    requires AppendReply(p, i, term, prev, count, term, true, None) in c.net && prev + count <= k
    requires forall q | q in c.nodes[i].matchIndex :: c.nodes[i].matchIndex[q] <= k
    ensures At(TRIO, slip, c') && Else(c, c', {i}) && Leads(TRIO, c'.nodes[i], i, term, f, k)
    ensures c'.nodes[i].nextIndex == c.nodes[i].nextIndex[p := prev + count + 1]
    ensures forall q | q in c'.nodes[i].matchIndex :: c'.nodes[i].matchIndex[q] <= k
  {
    LeadsMatch(TRIO, c.nodes[i], i, term, f, k);
    hide Leads, Reachable;
    assert Holders(Heard(c.nodes[i], p, prev + count), k + 1) == {};
    c' := Notes(TRIO, slip, c, i, p, term, f, k, prev, count);
  }

  /** Every run begins with node 0 leading term 1 on node 1's vote. */
  lemma FirstLeads(slip: Slip) returns (c: Cluster)
    ensures At(TRIO, slip, c) && Leads(TRIO, c.nodes[0], 0, 1, [N1], 0)
    ensures c.nodes[0].nextIndex.Keys == {1, 2} && c.nodes[0].nextIndex[1] == 1 && c.nodes[0].nextIndex[2] == 1
    ensures forall q | q in c.nodes[0].matchIndex :: c.nodes[0].matchIndex[q] == 0
    ensures Is(c.nodes[1], 1, 1, [], 0) && Is(c.nodes[2], 2, 0, [], 0) && c.nodes[2].role == Follower
    ensures Offered(c, 0, 1, [N1], 0, 1, 1)
  {
    hide Is, Led, Reachable;
    var c0 := Begins(TRIO, slip);
    assert Backs(slip, c0.nodes[1], 1, []);
    c := Elects(TRIO, slip, c0, 0, 1, 0, [], 0, 0, [], 0);
    LedFirst(c);
  }

  lemma LedFirst(c: Cluster)
    requires Led(TRIO, c, 0, 1, [], 0)
    ensures Leads(TRIO, c.nodes[0], 0, 1, [N1], 0) && Offered(c, 0, 1, [N1], 0, 1, 1)
    ensures c.nodes[0].nextIndex.Keys == {1, 2} && c.nodes[0].nextIndex[1] == 1 && c.nodes[0].nextIndex[2] == 1
    ensures forall q | q in c.nodes[0].matchIndex :: c.nodes[0].matchIndex[q] == 0
  {
    hide Is, Offered;
    assert [] + [N1] == [N1];
    PeersAre(TRIO, 0);
    assert 1 in Peers(TRIO, 0) && 2 in Peers(TRIO, 0);
    assert Peers(TRIO, 0) == {1, 2};
  }

  lemma FirstSays(slip: Slip, c: Cluster, cmd: Command, g: seq<Entry>) returns (c': Cluster)
    requires At(TRIO, slip, c) && Leads(TRIO, c.nodes[0], 0, 1, [N1], 0) && g == [N1, Entry(1, 2, cmd)]
    requires c.nodes[0].nextIndex.Keys == {1, 2} && c.nodes[0].nextIndex[1] == 1 && c.nodes[0].nextIndex[2] == 1
    ensures At(TRIO, slip, c') && Else(c, c', {0}) && Leads(TRIO, c'.nodes[0], 0, 1, g, 0)
            && c'.nodes[0].nextIndex.Keys == {1, 2}
    ensures Offered(c', 0, 1, g, 0, 1, 1) && Offered(c', 0, 1, g, 0, 2, 1) && Numbered(g) && TermOf(g, |g|) == 1
  {
    hide Is, Leads, Reachable, Offered;
    assert 1 in c.nodes[0].nextIndex && 2 in c.nodes[0].nextIndex;
    assert [N1] + [Entry(1, 2, cmd)] == g;
    c' := Says(TRIO, slip, c, 0, 1, [N1], 0, cmd, 1);
  }

  lemma OfferedStill(c: Cluster, c': Cluster, i: Id, term: nat, f: seq<Entry>, k: nat, p: Id, next: nat)
    requires Offered(c, i, term, f, k, p, next) && c.net <= c'.net
    ensures Offered(c', i, term, f, k, p, next)
  {
  }

  /** Node 1 stores the first entries of term 1, and node 0 commits them. */
  lemma StoresFirst(slip: Slip, c: Cluster, g: seq<Entry>) returns (c': Cluster)
    requires At(TRIO, slip, c) && slip != NoTermTest && Leads(TRIO, c.nodes[0], 0, 1, g, 0)
             && 1 in c.nodes[0].nextIndex && Is(c.nodes[1], 1, 1, [], 0)
    requires Numbered(g) && g != [] && TermOf(g, |g|) == 1 && Offered(c, 0, 1, g, 0, 1, 1)
    ensures At(TRIO, slip, c') && Else(c, c', {0, 1}) && Leads(TRIO, c'.nodes[0], 0, 1, g, |g|)
            && Is(c'.nodes[1], 1, 1, g, 0)
    ensures c'.nodes[0].nextIndex == c.nodes[0].nextIndex[1 := |g| + 1]
    ensures (forall q | q in c.nodes[0].matchIndex :: c.nodes[0].matchIndex[q] == 0) ==>
              forall q | q in c'.nodes[0].matchIndex :: c'.nodes[0].matchIndex[q] <= |g|
    ensures AppendReply(1, 0, 1, 0, |g|, 1, true, None) in c'.net
  {
    hide Is, Leads, Reachable, Offered, TermOf, Numbered;
    var c1 := Extends(TRIO, slip, c, 0, 1, 1, g, 0, 1, [], 0);
    c' := CommitsOne(slip, c1, 0, 1, 1, g, 0, 0, |g|);
  }

  // ---- votes without the comparison of logs --------------------------------

  const A: Entry := Entry(1, 2, Seed(1))
  const M1: Entry := Entry(2, 1, Noop)
  const B: Entry := Entry(2, 2, Seed(2))

  /** Nodes 0 and 1 commit and apply node 0's two entries of term 1. */
  lemma FirstTwo() returns (c: Cluster)
    ensures At(TRIO, AnyVote, c) && Leads(TRIO, c.nodes[0], 0, 1, [N1, A], 2) && Is(c.nodes[1], 1, 1, [N1, A], 0)
    ensures Is(c.nodes[2], 2, 0, [], 0) && c.nodes[2].role == Follower
  {
    hide Is, Leads, Reachable, Offered, Numbered, TermOf;
    var g := [N1, A];
    var c1 := FirstLeads(AnyVote);
    var c2 := FirstSays(AnyVote, c1, Seed(1), g);
    assert 1 in c2.nodes[0].nextIndex;
    c := StoresFirst(AnyVote, c2, g);
  }

  /** Node 2, which holds nothing, is elected by node 1 and commits two entries of term 2 with it. */
  lemma OtherTwo(c: Cluster) returns (c': Cluster)
    requires At(TRIO, AnyVote, c) && Leads(TRIO, c.nodes[0], 0, 1, [N1, A], 2) && Is(c.nodes[1], 1, 1, [N1, A], 0)
    requires Is(c.nodes[2], 2, 0, [], 0) && c.nodes[2].role == Follower
    ensures At(TRIO, AnyVote, c') && c'.nodes[0] == c.nodes[0] && Leads(TRIO, c'.nodes[2], 2, 2, [M1, B], 2)
  {
    hide Is, Leads, Reachable, Peers, Offered;
    var c1 := Rises(c);
    assert [M1] + [B] == [M1, B];
    var c2 := Says(TRIO, AnyVote, c1, 2, 2, [M1], 0, Seed(2), 1);
    c' := ReplacesTwo(c2);
  }

  lemma Rises(c: Cluster) returns (c': Cluster)
    requires At(TRIO, AnyVote, c) && Is(c.nodes[1], 1, 1, [N1, A], 0)
    requires Is(c.nodes[2], 2, 0, [], 0) && c.nodes[2].role == Follower
    ensures At(TRIO, AnyVote, c') && c'.nodes[0] == c.nodes[0] && Leads(TRIO, c'.nodes[2], 2, 2, [M1], 0)
    ensures 1 in c'.nodes[2].nextIndex && c'.nodes[2].nextIndex[1] == 1 && Is(c'.nodes[1], 1, 2, [N1, A], 0)
  {
    IsIn(c.nodes[1], 1, 1, [N1, A], 0);
    hide Led, Reachable, Is;
    var c1 := Stands(TRIO, AnyVote, c, 2, 0, [], 0);
    assert Backs(AnyVote, c1.nodes[1], 2, []);
    c' := Elects(TRIO, AnyVote, c1, 2, 1, 1, [], 0, 1, [N1, A], 0);
    LedSecond(c');
  }

  lemma LedSecond(c: Cluster)
    requires Led(TRIO, c, 2, 2, [], 0)
    ensures Leads(TRIO, c.nodes[2], 2, 2, [M1], 0) && 1 in c.nodes[2].nextIndex && c.nodes[2].nextIndex[1] == 1
  {
    hide Is, Offered;
    assert [] + [M1] == [M1];
    PeersAre(TRIO, 2);
    assert 1 in Peers(TRIO, 2);
  }

  lemma ReplacesTwo(c: Cluster) returns (c': Cluster)
    requires At(TRIO, AnyVote, c) && Leads(TRIO, c.nodes[2], 2, 2, [M1, B], 0) && 1 in c.nodes[2].nextIndex
    requires Is(c.nodes[1], 1, 2, [N1, A], 0) && Offered(c, 2, 2, [M1, B], 0, 1, 1)
    ensures At(TRIO, AnyVote, c') && c'.nodes[0] == c.nodes[0] && Leads(TRIO, c'.nodes[2], 2, 2, [M1, B], 2)
  {
    hide Is, Leads, Reachable, Offered;
    forall k: nat ensures MatchAt([N1, A], [M1, B], k) {}
    var c1 := Stores(TRIO, AnyVote, c, 2, 1, 2, [M1, B], 0, 1, 2, [N1, A], 0);
    c' := CommitsOne(AnyVote, c1, 2, 1, 2, [M1, B], 0, 0, 2);
  }

  /** Were votes given without comparing logs, State Machine Safety would fail. */
  lemma BlindVoteBreaksSafety() returns (run: seq<Cluster>)
    ensures SlipRun(TRIO, AnyVote, run)
    ensures var c := run[|run| - 1];
            Diverged(c, 0, 2) && c.nodes[0].app == [N1, A] && c.nodes[2].app == [M1, B] && A.cmd != B.cmd
  {
    var c1 := FirstTwo();
    var c2 := OtherTwo(c1);
    HasApplied(c2.nodes[0], 0, 1, [N1, A], 2);
    HasApplied(c2.nodes[2], 2, 2, [M1, B], 2);
    run := Ends(AnyVote, c2);
  }

  // ---- an append from the beginning ----------------------------------------

  const W: Entry := Entry(2, 3, Noop)

  /** Node 0 leads term 1 and both others hold its first two entries. */
  lemma AllHoldTwo() returns (c: Cluster)
    ensures At(TRIO, FromStart, c) && Leads(TRIO, c.nodes[0], 0, 1, [N1, X], 2)
    ensures c.nodes[0].nextIndex.Keys == {1, 2} && c.nodes[0].nextIndex[1] == 3
    ensures Is(c.nodes[1], 1, 1, [N1, X], 0) && Is(c.nodes[2], 2, 1, [N1, X], 0)
    ensures AppendReq(0, 1, 1, 0, 0, [N1, X], 0) in c.net
  {
    hide Is, Leads, Reachable, Offered;
    var c1 := FirstLeads(FromStart);
    var c2 := FirstSays(FromStart, c1, Noop, [N1, X]);
    c := BothStore(c2);
  }

  lemma BothStore(c: Cluster) returns (c': Cluster)
    requires At(TRIO, FromStart, c) && Leads(TRIO, c.nodes[0], 0, 1, [N1, X], 0) && c.nodes[0].nextIndex.Keys == {1, 2}
    requires Is(c.nodes[1], 1, 1, [], 0) && Is(c.nodes[2], 2, 0, [], 0)
    requires Offered(c, 0, 1, [N1, X], 0, 1, 1) && Offered(c, 0, 1, [N1, X], 0, 2, 1)
    ensures At(TRIO, FromStart, c') && Leads(TRIO, c'.nodes[0], 0, 1, [N1, X], 2)
    ensures c'.nodes[0].nextIndex.Keys == {1, 2} && c'.nodes[0].nextIndex[1] == 3
    ensures Is(c'.nodes[1], 1, 1, [N1, X], 0) && Is(c'.nodes[2], 2, 1, [N1, X], 0)
    ensures AppendReq(0, 1, 1, 0, 0, [N1, X], 0) in c'.net
  {
    var f := [N1, X];
    assert Offer(0, 1, 1, f, 0, 1) == AppendReq(0, 1, 1, 0, 0, f, 0) by { assert f[0..] == f; }
    assert AppendReq(0, 1, 1, 0, 0, f, 0) in c.net;
    hide Is, Leads, Reachable, Offered;
    assert 1 in c.nodes[0].nextIndex;
    var c1 := Extends(TRIO, FromStart, c, 0, 2, 1, f, 0, 0, [], 0);
    assert Offered(c1, 0, 1, f, 0, 1, 1) by { OfferedStill(c, c1, 0, 1, f, 0, 1, 1); }
    c' := StoresFirst(FromStart, c1, f);
  }

  /** Node 1 stores the third entry too, and node 0 commits and applies it. */
  lemma ThirdCommitted(c: Cluster) returns (c': Cluster)
    requires At(TRIO, FromStart, c) && Leads(TRIO, c.nodes[0], 0, 1, [N1, X], 2)
    requires c.nodes[0].nextIndex.Keys == {1, 2} && c.nodes[0].nextIndex[1] == 3
    requires Is(c.nodes[1], 1, 1, [N1, X], 0)
    ensures At(TRIO, FromStart, c') && Leads(TRIO, c'.nodes[0], 0, 1, [N1, X, Y], 3)
    ensures Is(c'.nodes[1], 1, 1, [N1, X, Y], 2) && c'.nodes[1].role == Follower && c'.nodes[2] == c.nodes[2]
            && c.net <= c'.net
  {
    hide Is, Leads, Reachable, Offered;
    var c1 := ThirdSaid(c);
    var c2 := Extends(TRIO, FromStart, c1, 0, 1, 1, [N1, X, Y], 2, 1, [N1, X], 0);
    c' := CommitsOne(FromStart, c2, 0, 1, 1, [N1, X, Y], 2, 2, 1);
  }

  lemma ThirdSaid(c: Cluster) returns (c': Cluster)
    requires At(TRIO, FromStart, c) && Leads(TRIO, c.nodes[0], 0, 1, [N1, X], 2)
    requires c.nodes[0].nextIndex.Keys == {1, 2} && c.nodes[0].nextIndex[1] == 3
    ensures At(TRIO, FromStart, c') && Else(c, c', {0}) && Leads(TRIO, c'.nodes[0], 0, 1, [N1, X, Y], 2)
    ensures 1 in c'.nodes[0].nextIndex && Offered(c', 0, 1, [N1, X, Y], 2, 1, 3)
  {
    hide Is, Leads, Reachable, Offered;
    assert [N1, X] + [Y] == [N1, X, Y];
    assert 1 in c.nodes[0].nextIndex;
    c' := Says(TRIO, FromStart, c, 0, 1, [N1, X], 2, Seed(1), 1);
  }

  /** The first append once more: to a node that compacted two entries it looks all new, and the third is gone. */
  lemma Erases(nd: Node)
    requires Is(nd, 1, 1, [N1, X, Y], 2)
    ensures HandleAppend(TRIO, nd, AppendReq(0, 1, 1, 0, 0, [N1, X], 0)).node
            == Heed(nd, AppendReq(0, 1, 1, 0, 0, [N1, X], 0)).(log := [N1, X])
    ensures Is(Restart(HandleAppend(TRIO, nd, AppendReq(0, 1, 1, 0, 0, [N1, X], 0)).node), 1, 1, [N1, X], 2)
  {
    hide Diverges, BecomeFollower, HandleAppend;
    var f, g := [N1, X, Y], [N1, X];
    var m := AppendReq(0, 1, 1, 0, 0, g, 0);
    HeedsIs(nd, f, m);
    MergesAll(Heed(nd, m), f, g);
    AcceptIs(TRIO, nd, m);
    hide Merge, Heed;
    FilterFrom(g, 0, 3);
    assert f[2..] == [Y] && f[..2] == g && g[..2] == g && g[2..] == [] && g[0..] == g;
  }

  lemma MergesAll(nd: Node, f: seq<Entry>, g: seq<Entry>)
    requires View(nd, f) && nd.snapshotIndex == 2 && Numbered(g) && g != []
    ensures Merge(nd, g) == nd.(log := g)
  {
    TermAtView(nd, f, 1);
    assert Diverges(nd, g) == Some(1);
    FilterBelow(f, 2, 1);
    FilterFrom(g, 0, 1);
    assert g[0..] == g;
  }

  lemma ErasesAt(c: Cluster) returns (c': Cluster)
    requires At(TRIO, FromStart, c) && Is(c.nodes[1], 1, 1, [N1, X, Y], 2)
             && AppendReq(0, 1, 1, 0, 0, [N1, X], 0) in c.net
    ensures At(TRIO, FromStart, c') && Else(c, c', {1}) && Is(c'.nodes[1], 1, 1, [N1, X], 2)
            && c'.nodes[1].role == Follower
  {
    hide HandleAppend, View, Restart;
    var m := AppendReq(0, 1, 1, 0, 0, [N1, X], 0);
    Erases(c.nodes[1]);
    hide Is, Reachable;
    var c1 := Delivers(TRIO, FromStart, c, m, HandleAppend(TRIO, c.nodes[1], m));
    c' := Goes(TRIO, FromStart, c1, Crash(1), Out(Restart(c1.nodes[1]), {}));
    Restarted(c1.nodes[1]);
  }

  lemma Restarted(nd: Node)
    ensures Restart(nd).role == Follower
  {
  }

  lemma LoserLeads(c: Cluster) returns (c': Cluster)
    requires At(TRIO, FromStart, c) && Is(c.nodes[1], 1, 1, [N1, X], 2) && c.nodes[1].role == Follower
    requires Is(c.nodes[2], 2, 1, [N1, X], 0)
    ensures At(TRIO, FromStart, c') && c'.nodes[0] == c.nodes[0] && Leads(TRIO, c'.nodes[1], 1, 2, [N1, X, W], 2)
    ensures 2 in c'.nodes[1].nextIndex && Is(c'.nodes[2], 2, 2, [N1, X], 0) && Offered(c', 1, 2, [N1, X, W], 2, 2, 3)
  {
    hide Is, Led, Reachable, Backs;
    BacksOwn(FromStart, c.nodes[2], 2, 1, [N1, X], 0, 2);
    c' := Elects(TRIO, FromStart, c, 1, 2, 1, [N1, X], 2, 1, [N1, X], 0);
    LedLoser(c');
  }

  lemma LedLoser(c: Cluster)
    requires Led(TRIO, c, 1, 2, [N1, X], 2)
    ensures Leads(TRIO, c.nodes[1], 1, 2, [N1, X, W], 2)
    ensures 2 in c.nodes[1].nextIndex && Offered(c, 1, 2, [N1, X, W], 2, 2, 3)
  {
    hide Is, Offered;
    assert [N1, X] + [W] == [N1, X, W];
    PeersAre(TRIO, 1);
    assert 2 in Peers(TRIO, 1);
  }

  /** The node that lost the third entry is elected, and commits another third entry with node 2. */
  lemma OtherThird(c: Cluster) returns (c': Cluster)
    requires At(TRIO, FromStart, c) && Is(c.nodes[1], 1, 1, [N1, X], 2) && c.nodes[1].role == Follower
             && Is(c.nodes[2], 2, 1, [N1, X], 0)
    ensures At(TRIO, FromStart, c') && c'.nodes[0] == c.nodes[0] && Leads(TRIO, c'.nodes[1], 1, 2, [N1, X, W], 3)
  {
    hide Is, Leads, Reachable, Offered;
    var c1 := LoserLeads(c);
    var c2 := Extends(TRIO, FromStart, c1, 1, 2, 2, [N1, X, W], 2, 2, [N1, X], 0);
    c' := CommitsOne(FromStart, c2, 1, 2, 2, [N1, X, W], 2, 2, 1);
  }

  /**
   A first append that arrives once more, late, makes a node drop an entry it had acknowledged and
   that was committed and applied elsewhere; elected next, it commits another in its place.
   */
  lemma LateAppendBreaksSafety() returns (run: seq<Cluster>)
    ensures SlipRun(TRIO, FromStart, run)
    ensures var c := run[|run| - 1];
            Diverged(c, 0, 1) && c.nodes[0].app == [N1, X, Y] && c.nodes[1].app == [N1, X, W] && Y.cmd != W.cmd
  {
    hide Is, Leads, Reachable;
    var c1 := AllHoldTwo();
    var c2 := ThirdCommitted(c1);
    var c3 := ErasesAt(c2);
    var c4 := OtherThird(c3);
    LeadsRole(TRIO, c4.nodes[0], 0, 1, [N1, X, Y], 3);
    LeadsRole(TRIO, c4.nodes[1], 1, 2, [N1, X, W], 3);
    HasApplied(c4.nodes[0], 0, 1, [N1, X, Y], 3);
    HasApplied(c4.nodes[1], 1, 2, [N1, X, W], 3);
    run := Ends(FromStart, c4);
    assert [N1, X, Y][2] != [N1, X, W][2];
  }

  // ---- an old snapshot -----------------------------------------------------

  const OLD: Msg := SnapReq(0, 1, 1, Snapshot(2, 1, [N1, X]))

  /** Nodes 0 and 1 have two entries, of which node 1 knows one to be committed; both answers may come again. */
  lemma TwoOfTwo() returns (c: Cluster)
    ensures At(TRIO, OldSnapshot, c) && Leads(TRIO, c.nodes[0], 0, 1, [N1, X], 2) && Is(c.nodes[1], 1, 1, [N1, X], 1)
    ensures 1 in c.nodes[0].nextIndex && forall q | q in c.nodes[0].matchIndex :: c.nodes[0].matchIndex[q] <= 2
    ensures AppendReply(1, 0, 1, 0, 1, 1, true, None) in c.net && AppendReply(1, 0, 1, 1, 1, 1, true, None) in c.net
  {
    hide Is, Leads, Reachable, Offered;
    var c1 := OneOfOne();
    assert [N1] + [X] == [N1, X];
    var c2 := Says(TRIO, OldSnapshot, c1, 0, 1, [N1], 1, Noop, 1);
    var c3 := Extends(TRIO, OldSnapshot, c2, 0, 1, 1, [N1, X], 1, 1, [N1], 0);
    c := CommitsOne(OldSnapshot, c3, 0, 1, 1, [N1, X], 1, 1, 1);
  }

  lemma OneOfOne() returns (c: Cluster)
    ensures At(TRIO, OldSnapshot, c) && Leads(TRIO, c.nodes[0], 0, 1, [N1], 1) && Is(c.nodes[1], 1, 1, [N1], 0)
    ensures 1 in c.nodes[0].nextIndex && c.nodes[0].nextIndex[1] == 2
    ensures forall q | q in c.nodes[0].matchIndex :: c.nodes[0].matchIndex[q] <= 1
    ensures AppendReply(1, 0, 1, 0, 1, 1, true, None) in c.net
  {
    hide Is, Leads, Reachable, Offered;
    var c1 := FirstLeads(OldSnapshot);
    c := StoresFirst(OldSnapshot, c1, [N1]);
  }

  /** The first answer comes again, so the leader sends its snapshot of two entries; then the second one comes again. */
  lemma SendsOld(c: Cluster) returns (c': Cluster)
    requires At(TRIO, OldSnapshot, c) && Leads(TRIO, c.nodes[0], 0, 1, [N1, X], 2) && Is(c.nodes[1], 1, 1, [N1, X], 1)
    requires 1 in c.nodes[0].nextIndex && forall q | q in c.nodes[0].matchIndex :: c.nodes[0].matchIndex[q] <= 2
    requires AppendReply(1, 0, 1, 0, 1, 1, true, None) in c.net && AppendReply(1, 0, 1, 1, 1, 1, true, None) in c.net
    ensures At(TRIO, OldSnapshot, c') && Leads(TRIO, c'.nodes[0], 0, 1, [N1, X, Y], 2) && c'.nodes[1] == c.nodes[1]
            && OLD in c'.net
    ensures 1 in c'.nodes[0].nextIndex && c'.nodes[0].nextIndex[1] == 3
  {
    var f, g := [N1, X], [N1, X, Y];
    assert f + [Y] == g && g[..2] == f;
    assert Offer(0, 1, 1, g, 2, 2) == OLD;
    hide Is, Leads, Reachable;
    var c1 := Rehears(OldSnapshot, c, 0, 1, 1, f, 2, 0, 1);
    var c2 := Says(TRIO, OldSnapshot, c1, 0, 1, f, 2, Seed(1), 1);
    assert Offered(c2, 0, 1, g, 2, 1, 2);
    hide Offered;
    c' := Rehears(OldSnapshot, c2, 0, 1, 1, g, 2, 1, 1);
  }

  /** Node 1 takes the third and the fourth entry and learns that three are committed. */
  lemma FourHeld(c: Cluster) returns (c': Cluster)
    requires At(TRIO, OldSnapshot, c) && Leads(TRIO, c.nodes[0], 0, 1, [N1, X, Y], 2)
             && Is(c.nodes[1], 1, 1, [N1, X], 1)
    requires 1 in c.nodes[0].nextIndex && c.nodes[0].nextIndex[1] == 3
    ensures At(TRIO, OldSnapshot, c') && Leads(TRIO, c'.nodes[0], 0, 1, [N1, X, Y, Z], 3)
            && Is(c'.nodes[1], 1, 1, [N1, X, Y, Z], 3)
    ensures 1 in c'.nodes[0].nextIndex && c.net <= c'.net && AppendReply(1, 0, 1, 3, 1, 1, true, None) in c'.net
  {
    hide Is, Leads, Reachable, Offered;
    var c1 := ThreeHeld(c);
    var c2 := FourthSaid(c1);
    c' := Extends(TRIO, OldSnapshot, c2, 0, 1, 1, [N1, X, Y, Z], 3, 1, [N1, X, Y], 2);
  }

  lemma FourthSaid(c: Cluster) returns (c': Cluster)
    requires At(TRIO, OldSnapshot, c) && Leads(TRIO, c.nodes[0], 0, 1, [N1, X, Y], 3) && 1 in c.nodes[0].nextIndex
             && c.nodes[0].nextIndex[1] == 4
    ensures At(TRIO, OldSnapshot, c') && Else(c, c', {0}) && Leads(TRIO, c'.nodes[0], 0, 1, [N1, X, Y, Z], 3)
    ensures 1 in c'.nodes[0].nextIndex && Offered(c', 0, 1, [N1, X, Y, Z], 3, 1, 4)
  {
    hide Is, Leads, Reachable, Offered;
    assert [N1, X, Y] + [Z] == [N1, X, Y, Z];
    c' := Says(TRIO, OldSnapshot, c, 0, 1, [N1, X, Y], 3, Seed(2), 1);
  }

  lemma ThreeHeld(c: Cluster) returns (c': Cluster)
    requires At(TRIO, OldSnapshot, c) && Leads(TRIO, c.nodes[0], 0, 1, [N1, X, Y], 2)
             && Is(c.nodes[1], 1, 1, [N1, X], 1)
    requires 1 in c.nodes[0].nextIndex && c.nodes[0].nextIndex[1] == 3
    ensures At(TRIO, OldSnapshot, c') && Leads(TRIO, c'.nodes[0], 0, 1, [N1, X, Y], 3)
            && Is(c'.nodes[1], 1, 1, [N1, X, Y], 2)
    ensures 1 in c'.nodes[0].nextIndex && c'.nodes[0].nextIndex[1] == 4 && c.net <= c'.net
  {
    hide Is, Leads, Reachable, Offered;
    var c1 := Beats(TRIO, OldSnapshot, c, 0, 1, [N1, X, Y], 2, 1);
    var c2 := Extends(TRIO, OldSnapshot, c1, 0, 1, 1, [N1, X, Y], 2, 1, [N1, X], 1);
    c' := CommitsOne(OldSnapshot, c2, 0, 1, 1, [N1, X, Y], 2, 2, 1);
  }

  /** The old snapshot takes the third entry away but leaves the fourth, which is then applied without it. */
  lemma Skips(nd: Node)
    requires Is(nd, 1, 1, [N1, X, Y, Z], 3)
    ensures var nd1 := HandleSnapshot(nd, OLD).node;
            HandleAppend(TRIO, nd1, AppendReq(0, 1, 1, 4, 1, [], 4)).node.app == [N1, X, Z]
  {
    var f := [N1, X, Y, Z];
    var nd1 := HandleSnapshot(nd, OLD).node;
    assert f[3..] == [Z];
    FilterFrom(f, 3, 3);
    assert nd1.log == [Z] && nd1.snapshotIndex == nd1.commitIndex == nd1.lastApplied == 2 && nd1.app == [N1, X];
    LearnsFour(nd1);
  }

  lemma LearnsFour(nd: Node)
    requires nd.log == [Z] && nd.snapshotIndex == nd.commitIndex == nd.lastApplied == 2 && nd.app == [N1, X]
    requires nd.currentTerm == 1 && nd.role == Follower
    ensures HandleAppend(TRIO, nd, AppendReq(0, 1, 1, 4, 1, [], 4)).node.app == [N1, X, Z]
  {
    var m := AppendReq(0, 1, 1, 4, 1, [], 4);
    var nd1 := Heed(nd, m);
    FindOnly(3);
    FindOnly(4);
    assert TermAt(nd1, 4) == Some(1) && PrevMatches(nd1, m);
    AcceptIs(TRIO, nd, m);
    var nd2 := nd1.(commitIndex := 4);
    assert LearnCommit(TRIO, nd1, 4) == ApplyCommitted(TRIO, nd2);
    var nd3 := ApplyOne(TRIO, nd2);
    assert nd3 == nd2.(lastApplied := 3);
    var nd4 := ApplyOne(TRIO, nd3);
    assert nd4.app == [N1, X] + [Z] && nd4.lastApplied == 4 && nd4.commitIndex == 4;
    assert ApplyCommitted(TRIO, nd2) == ApplyCommitted(TRIO, nd3) == ApplyCommitted(TRIO, nd4) == nd4;
  }

  lemma FindOnly(index: nat)
    ensures Find([Z], index) == if index == 4 then Some(Z) else None
  {
    var just := [Z];
    assert just[1..] == [];
  }

  /** Node 0 commits all four entries and says so; node 1 has installed the old snapshot by then. */
  lemma OldThenNew(c: Cluster) returns (c': Cluster)
    requires At(TRIO, OldSnapshot, c) && Leads(TRIO, c.nodes[0], 0, 1, [N1, X, Y, Z], 3)
             && Is(c.nodes[1], 1, 1, [N1, X, Y, Z], 3)
    requires 1 in c.nodes[0].nextIndex && OLD in c.net && AppendReply(1, 0, 1, 3, 1, 1, true, None) in c.net
    ensures At(TRIO, OldSnapshot, c') && Leads(TRIO, c'.nodes[0], 0, 1, [N1, X, Y, Z], 4)
            && c'.nodes[1].app == [N1, X, Z]
  {
    hide TermAt, ApplyCommitted, Diverges, Leads, HandleSnapshot, HandleAppend, View;
    var f, m := [N1, X, Y, Z], AppendReq(0, 1, 1, 4, 1, [], 4);
    Skips(c.nodes[1]);
    assert Offer(0, 1, 1, f, 4, 5) == m;
    hide Is, Reachable;
    var c1 := CommitsOne(OldSnapshot, c, 0, 1, 1, f, 3, 3, 1);
    var c2 := Beats(TRIO, OldSnapshot, c1, 0, 1, f, 4, 1);
    assert Offered(c2, 0, 1, f, 4, 1, 5);
    assert m in c2.net;
    hide Offered, Offer;
    c' := Installs(c2, m);
  }

  lemma Installs(c: Cluster, m: Msg) returns (c': Cluster)
    requires At(TRIO, OldSnapshot, c) && OLD in c.net && m in c.net && m == AppendReq(0, 1, 1, 4, 1, [], 4)
    ensures At(TRIO, OldSnapshot, c') && Else(c, c', {1})
    ensures c'.nodes[1] == HandleAppend(TRIO, HandleSnapshot(c.nodes[1], OLD).node, m).node
  {
    hide Reachable, HandleSnapshot, HandleAppend;
    var c1 := Goes(TRIO, OldSnapshot, c, Receive(OLD), HandleSnapshot(c.nodes[1], OLD));
    c' := Delivers(TRIO, OldSnapshot, c1, m, HandleAppend(TRIO, c1.nodes[1], m));
  }

  /**
   A snapshot that arrives after a newer one was taken moves the receiver back behind entries it has
   compacted away; the apply loop passes over what is missing, and a command is never applied.
   */
  lemma OldSnapshotBreaksSafety() returns (run: seq<Cluster>)
    ensures SlipRun(TRIO, OldSnapshot, run)
    ensures var c := run[|run| - 1];
            Diverged(c, 0, 1) && c.nodes[0].app == [N1, X, Y, Z] && c.nodes[1].app == [N1, X, Z]
  {
    hide Is, Leads, Reachable;
    var c1 := TwoOfTwo();
    var c2 := SendsOld(c1);
    var c3 := FourHeld(c2);
    var c4 := OldThenNew(c3);
    LeadsRole(TRIO, c4.nodes[0], 0, 1, [N1, X, Y, Z], 4);
    HasApplied(c4.nodes[0], 0, 1, [N1, X, Y, Z], 4);
    run := Ends(OldSnapshot, c4);
    assert [N1, X, Y, Z][2] != [N1, X, Z][2];
  }
}
