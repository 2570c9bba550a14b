/** A leader bringing one follower up to date: rejections make progress, and the rounds end. */
module RaftCatchUp {
  import opened Wrappers
  import opened RaftNode
  import opened RaftView
  import opened RaftCluster
  import opened RaftInv
  import opened RaftGrow
  import opened RaftHandlers
  import opened RaftSafety
  import opened RaftWaiters

  datatype Pair = Pair(ld: Node, fo: Node)

  /** One append, its answer, and what the leader makes of the answer. */
  ghost predicate Round(cfg: Config, p: Pair, p': Pair) {
    && !NeedsSnapshot(p.ld, p.fo.id)
    && exists answer: Msg :: answer.AppendReply?
         && HandleAppend(cfg, p.fo, AppendFor(p.ld, p.fo.id)) == Out(p'.fo, {answer})
         && p'.ld == OnAppendReply(cfg, p.ld, answer)
  }

  /**
   The leader's whole log is `g`, the follower's is `f`. Logs match, the follower's commits are the
   leader's, and the next index is past what the follower compacted away.
   */
  ghost predicate Linked(p: Pair, g: seq<Entry>, f: seq<Entry>) {
    && View(p.ld, g) && View(p.fo, f)
    && Matching(f, g) && f[..p.fo.commitIndex] <= g
    && p.ld.role.Leader? && p.fo.currentTerm <= p.ld.currentTerm
    && p.fo.snapshotIndex < NextFor(p.ld, p.fo.id) <= |g| + 1
  }

  lemma {:induction false} MinIndexBounds(f: seq<Entry>, b: nat, term: nat, bound: nat)
    requires Numbered(f) && b <= |f| && b < bound
    ensures b < MinIndexOfTerm(f[b..], term, bound) <= bound
    decreases |f| - b
  {
    if b < |f| {
      assert f[b..][1..] == f[b + 1..];
      if b + 1 < bound {
        MinIndexBounds(f, b + 1, term, bound);
      } else {
        MinIndexAtMost(f[b + 1..], term, bound);
        MinIndexAbove(f, b + 1, term, bound);
      }
    }
  }

  lemma {:induction false} MinIndexAtMost(log: seq<Entry>, term: nat, bound: nat)
    ensures MinIndexOfTerm(log, term, bound) <= bound
  {
    if log != [] { MinIndexAtMost(log[1..], term, bound); }
  }

  lemma {:induction false} MinIndexAbove(f: seq<Entry>, b: nat, term: nat, bound: nat)
    requires Numbered(f) && b <= |f| && b <= bound
    ensures b <= MinIndexOfTerm(f[b..], term, bound)
    decreases |f| - b
  {
    if b < |f| && b < bound {
      assert f[b..][1..] == f[b + 1..];
      MinIndexAbove(f, b + 1, term, bound);
    } else if b < |f| {
      assert f[b..][1..] == f[b + 1..];
      MinIndexFixed(f, b, term, bound);
    }
  }

  lemma {:induction false} MinIndexFixed(f: seq<Entry>, b: nat, term: nat, bound: nat)
    requires Numbered(f) && b <= |f| && bound <= b
    ensures MinIndexOfTerm(f[b..], term, bound) == bound
    decreases |f| - b
  {
    if b < |f| {
      assert f[b..][1..] == f[b + 1..];
      MinIndexFixed(f, b + 1, term, bound);
    }
  }

  /** Where a rejection sends the leader: strictly back, and still past the follower's snapshot. */
  lemma ConflictGoesBack(nd: Node, f: seq<Entry>, m: Msg)
    requires View(nd, f) && m.AppendReq? && !PrevMatches(nd, m) && nd.snapshotIndex <= m.prevLogIndex
    ensures nd.snapshotIndex < ConflictIndex(nd, m.prevLogIndex) <= m.prevLogIndex
  {
    TermAtView(nd, f, m.prevLogIndex);
    LastView(nd, f);
    if m.prevLogIndex <= |f| {
      MinIndexBounds(f, nd.snapshotIndex, TermOf(f, m.prevLogIndex), m.prevLogIndex);
    }
  }

  lemma RequestShape(p: Pair, g: seq<Entry>, f: seq<Entry>)
    requires Linked(p, g, f) && !NeedsSnapshot(p.ld, p.fo.id)
    ensures var m := AppendFor(p.ld, p.fo.id);
            && m.prevLogIndex == NextFor(p.ld, p.fo.id) - 1 <= |g|
            && p.ld.snapshotIndex <= m.prevLogIndex
            && m.entries == g[m.prevLogIndex..] && m.prevLogTerm == TermOf(g, m.prevLogIndex)
  {
    AppendForShape(p.ld, g, p.fo.id);
    TermAtView(p.ld, g, NextFor(p.ld, p.fo.id) - 1);
  }

  lemma HeedView(nd: Node, f: seq<Entry>, m: Msg)
    requires View(nd, f) && m.AppendReq?
    ensures View(Heed(nd, m), f) && Heed(nd, m).commitIndex == nd.commitIndex
            && Heed(nd, m).snapshotIndex == nd.snapshotIndex
    ensures Heed(nd, m).id == nd.id
  {
  }

  lemma RejectedRound(cfg: Config, p: Pair, g: seq<Entry>, f: seq<Entry>) returns (p': Pair)
    requires Linked(p, g, f) && !NeedsSnapshot(p.ld, p.fo.id)
    requires !PrevMatches(Heed(p.fo, AppendFor(p.ld, p.fo.id)), AppendFor(p.ld, p.fo.id))
    ensures Round(cfg, p, p') && Linked(p', g, f)
    ensures p'.fo.id == p.fo.id && p'.fo.snapshotIndex == p.fo.snapshotIndex
    ensures p'.ld.snapshotIndex == p.ld.snapshotIndex
    ensures NextFor(p'.ld, p'.fo.id) < NextFor(p.ld, p.fo.id)
  {
    var m := AppendFor(p.ld, p.fo.id);
    RequestShape(p, g, f);
    HeedView(p.fo, f, m);
    var fo := Heed(p.fo, m);
    ConflictGoesBack(fo, f, m);
    var n := ConflictIndex(fo, m.prevLogIndex);
    var answer := AppendAnswer(fo, m, false, Some(n));
    Rejects(cfg, p.fo, m);
    BacksUp(cfg, p.ld, answer);
    p' := Pair(OnAppendReply(cfg, p.ld, answer), fo);
    StaysLinked(p, p', g, f, n);
    hide PrevMatches, ConflictIndex, HandleAppend, OnAppendReply, NeedsSnapshot, Linked, View, NextFor;
    assert HandleAppend(cfg, p.fo, m) == Out(p'.fo, {answer});
  }

  lemma StaysLinked(p: Pair, p': Pair, g: seq<Entry>, f: seq<Entry>, n: nat)
    requires Linked(p, g, f) && p'.ld == p.ld.(nextIndex := p.ld.nextIndex[p.fo.id := n])
    requires View(p'.fo, f) && p'.fo.id == p.fo.id && p'.fo.currentTerm <= p.ld.currentTerm
    requires p'.fo.commitIndex == p.fo.commitIndex && p'.fo.snapshotIndex == p.fo.snapshotIndex < n <= |g| + 1
    ensures Linked(p', g, f) && NextFor(p'.ld, p'.fo.id) == n
  {
  }

  lemma Rejects(cfg: Config, nd: Node, m: Msg)
    requires m.AppendReq? && m.term >= nd.currentTerm && !PrevMatches(Heed(nd, m), m)
    ensures var nd' := Heed(nd, m);
            HandleAppend(cfg, nd, m)
                == Out(nd', {AppendAnswer(nd', m, false, Some(ConflictIndex(nd', m.prevLogIndex)))})
    ensures Heed(nd, m).currentTerm == m.term
  {
  }

  lemma BacksUp(cfg: Config, ld: Node, answer: Msg)
    requires ld.role.Leader? && answer.AppendReply? && !answer.success && answer.term <= ld.currentTerm
             && answer.conflictIndex.Some?
    ensures OnAppendReply(cfg, ld, answer)
            == ld.(nextIndex := ld.nextIndex[answer.src := Max(1, answer.conflictIndex.value)])
  {
  }

  lemma AcceptedMerge(fo: Node, g: seq<Entry>, f: seq<Entry>, prev: nat)
    requires View(fo, f) && Numbered(g) && Matching(f, g) && f[..fo.commitIndex] <= g
    requires prev <= |g| && fo.snapshotIndex <= prev
    requires prev == 0 || prev == fo.snapshotIndex || TermAt(fo, prev) == Some(TermOf(g, prev))
    ensures View(Merge(fo, g[prev..]), Adopted(f, g))
  {
    TermAtView(fo, f, prev);
    if prev > 0 && prev != fo.snapshotIndex {
      assert MatchAt(f, g, prev - 1);
    } else if prev == fo.snapshotIndex {
      assert f[..prev] == f[..fo.commitIndex][..prev] == g[..prev];
    }
    MergeView(fo, f, g, prev);
  }

  lemma LearnView(cfg: Config, nd: Node, f: seq<Entry>, leaderCommit: nat)
    requires View(nd, f)
    ensures View(LearnCommit(cfg, nd, leaderCommit), f)
  {
    LastView(nd, f);
    if leaderCommit > nd.commitIndex {
      ApplyCommittedView(cfg, nd.(commitIndex := Min(leaderCommit, LastIndex(nd))), f);
    }
  }

  lemma AcceptedFollower(cfg: Config, fo: Node, g: seq<Entry>, f: seq<Entry>, m: Msg)
    requires View(fo, f) && Numbered(g) && Matching(f, g) && f[..fo.commitIndex] <= g
    requires m.AppendReq? && m.prevLogIndex <= |g| && fo.snapshotIndex <= m.prevLogIndex
    requires m.entries == g[m.prevLogIndex..] && m.prevLogTerm == TermOf(g, m.prevLogIndex) && PrevMatches(fo, m)
    ensures g <= Whole(LearnCommit(cfg, Merge(fo, m.entries), m.leaderCommit))
  {
    AcceptedMerge(fo, g, f, m.prevLogIndex);
    var fo1 := Merge(fo, m.entries);
    LearnView(cfg, fo1, Adopted(f, g), m.leaderCommit);
    WholeIsFull(LearnCommit(cfg, fo1, m.leaderCommit), Adopted(f, g));
  }

  lemma Accepts(cfg: Config, nd: Node, m: Msg)
    requires m.AppendReq? && m.term >= nd.currentTerm && PrevMatches(Heed(nd, m), m)
    ensures var nd' := LearnCommit(cfg, Merge(Heed(nd, m), m.entries), m.leaderCommit);
            HandleAppend(cfg, nd, m) == Out(nd', {AppendAnswer(nd', m, true, None)})
  {
  }

  lemma AcceptedRound(cfg: Config, p: Pair, g: seq<Entry>, f: seq<Entry>) returns (p': Pair)
    requires Linked(p, g, f) && !NeedsSnapshot(p.ld, p.fo.id)
    requires PrevMatches(Heed(p.fo, AppendFor(p.ld, p.fo.id)), AppendFor(p.ld, p.fo.id))
    ensures Round(cfg, p, p') && g <= Whole(p'.fo)
  {
    var m := AppendFor(p.ld, p.fo.id);
    RequestShape(p, g, f);
    HeedView(p.fo, f, m);
    AcceptedFollower(cfg, Heed(p.fo, m), g, f, m);
    Accepts(cfg, p.fo, m);
    var fo := LearnCommit(cfg, Merge(Heed(p.fo, m), m.entries), m.leaderCommit);
    p' := Pair(OnAppendReply(cfg, p.ld, AppendAnswer(fo, m, true, None)), fo);
  }

  ghost predicate Rounds(cfg: Config, ps: seq<Pair>) {
    forall k {:trigger ps[k]} | 0 <= k < |ps| - 1 :: Round(cfg, ps[k], ps[k + 1])
  }

  /**
   After at most as many rounds as the next index the follower holds the leader's whole log, unless
   the leader compacted more than the follower did and has to fall back on its snapshot.
   */
  lemma {:induction false} CatchUp(cfg: Config, p: Pair, g: seq<Entry>, f: seq<Entry>) returns (ps: seq<Pair>)
    requires Linked(p, g, f)
    ensures 0 < |ps| <= NextFor(p.ld, p.fo.id) + 1 && ps[0] == p && Rounds(cfg, ps)
    ensures var q := ps[|ps| - 1];
            g <= Whole(q.fo) || (NeedsSnapshot(q.ld, q.fo.id) && p.ld.snapshotIndex > p.fo.snapshotIndex)
    decreases NextFor(p.ld, p.fo.id)
  {
    if NeedsSnapshot(p.ld, p.fo.id) {
      TermAtView(p.ld, g, NextFor(p.ld, p.fo.id) - 1);
      ps := [p];
    } else if PrevMatches(Heed(p.fo, AppendFor(p.ld, p.fo.id)), AppendFor(p.ld, p.fo.id)) {
      var p' := AcceptedRound(cfg, p, g, f);
      ps := [p, p'];
    } else {
      var p' := RejectedRound(cfg, p, g, f);
      var rest := CatchUp(cfg, p', g, f);
      ps := [p] + rest;
      forall k | 0 <= k < |ps| - 1 ensures Round(cfg, ps[k], ps[k + 1]) {
        if k > 0 { assert ps[k] == rest[k - 1] && ps[k + 1] == rest[k]; }
      }
    }
  }

  /** Any leader and any node not ahead of it, in any reachable state, are such a pair. */
  lemma ReachablePairs(cfg: Config, run: seq<Cluster>, a: nat, i: Id, j: Id)
    requires Run(cfg, run) && a < |run| && i < |run[a].nodes| && j < |run[a].nodes|
    requires var ld, fo := run[a].nodes[i], run[a].nodes[j];
             ld.role == Leader && fo.currentTerm <= ld.currentTerm
             && fo.snapshotIndex < NextFor(ld, fo.id) <= LastIndex(ld) + 1
    ensures var ld, fo := run[a].nodes[i], run[a].nodes[j]; Linked(Pair(ld, fo), Whole(ld), Whole(fo))
  {
    var hs := RunOk(cfg, run);
    var h := hs[a];
    var ld, fo := run[a].nodes[i], run[a].nodes[j];
    assert Inv(cfg, run[a], h);
    assert NodeOk(cfg, h, i, ld) && NodeOk(cfg, h, j, fo);
    WholeIsFull(ld, h.full[i]);
    WholeIsFull(fo, h.full[j]);
    LastView(ld, h.full[i]);
    LogsMatch(h, h.full[j], h.full[i]);
    CommittedGrows(cfg, h, h, h.full[j], h.full[j], fo.commitIndex, fo.currentTerm, ld.currentTerm);
    CommittedInReign(cfg, h, h.full[j], fo.commitIndex, ld.currentTerm);
  }
}
