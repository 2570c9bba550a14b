/**
 Deliveries the code accepts although they can damage a node that holds a snapshot. For each: exactly
 when the node survives it. `RaftBreaks` has runs that do not survive.
 */
module RaftFaults {
  import opened Wrappers
  import opened RaftNode
  import opened RaftView
  import opened RaftWaiters

  /** The retained log continues the snapshot without a gap. */
  ghost predicate Gapless(nd: Node) {
    forall k | 0 <= k < |nd.log| :: nd.log[k].index == nd.snapshotIndex + k + 1
  }

  // ---- an append from the beginning ----------------------------------------

  /**
   Entries from index 1 on reach a node: its log stays gapless exactly if there are none, it has
   compacted nothing, or it has compacted just the one entry that the request starts with.
   */
  lemma AppendFromStart(nd: Node, f: seq<Entry>, g: seq<Entry>)
    requires View(nd, f) && Numbered(g)
    ensures Gapless(Merge(nd, g)) <==>
            g == [] || nd.snapshotIndex == 0 || (nd.snapshotIndex == 1 && g[0].term == nd.snapshotTerm)
  {
    if g != [] {
      TermAtView(nd, f, 1);
      if TermAt(nd, 1) == Some(g[0].term) {
        DivergesFrom(nd, f, g, 1);
        if d: nat :| Diverges(nd, g) == Some(d) { SpliceGapless(nd, f, g, d); }
      } else {
        Replaced(nd, f, g);
      }
    }
  }

  lemma SpliceGapless(nd: Node, f: seq<Entry>, g: seq<Entry>, d: nat)
    requires View(nd, f) && Numbered(g) && nd.snapshotIndex < d <= |g| && d <= |f| + 1
    requires Diverges(nd, g) == Some(d)
    ensures Gapless(Merge(nd, g))
  {
    hide Diverges;
    assert g[0..] == g;
    FilterBelow(f, nd.snapshotIndex, d);
    FilterFrom(g, 0, d);
    assert Merge(nd, g).log == f[nd.snapshotIndex..d - 1] + g[d - 1..];
  }

  lemma Replaced(nd: Node, f: seq<Entry>, g: seq<Entry>)
    requires View(nd, f) && Numbered(g) && g != [] && TermAt(nd, 1) != Some(g[0].term)
    ensures Merge(nd, g).log == g && g[0].index == 1
  {
    assert g[0..] == g;
    FilterBelow(f, nd.snapshotIndex, 1);
    FilterFrom(g, 0, 1);
  }

  /** Once the scan is past position `j`, it stops, if at all, at an index the node's log can be cut at. */
  lemma {:induction false} DivergesFrom(nd: Node, f: seq<Entry>, g: seq<Entry>, j: nat)
    requires View(nd, f) && Numbered(g) && j <= |g| && nd.snapshotIndex <= j <= |f|
    ensures match Diverges(nd, g[j..])
            case None => true
            case Some(d) => j < d <= |g| && d <= |f| + 1
    ensures j == 1 && j <= |g| && TermAt(nd, 1) == Some(g[0].term) ==> Diverges(nd, g) == Diverges(nd, g[1..])
    decreases |g| - j
  {
    if j < |g| {
      assert g[j..][1..] == g[j + 1..];
      TermAtView(nd, f, j + 1);
      if TermAt(nd, j + 1) == Some(g[j].term) { DivergesFrom(nd, f, g, j + 1); }
    }
  }

  // ---- an old snapshot, and one of another history -------------------------

  /** Installing a snapshot keeps the log gapless and forgets no index exactly if it is not older than the one held. */
  lemma InstallOld(nd: Node, f: seq<Entry>, s: Snapshot)
    requires View(nd, f) && s.index > 0
    ensures Gapless(Install(nd, s)) && LastIndex(Install(nd, s)) >= LastIndex(nd) <==> s.index >= nd.snapshotIndex
  {
    LastView(nd, f);
    FilterFrom(f, nd.snapshotIndex, s.index + 1);
    var nd' := Install(nd, s);
    if s.index < nd.snapshotIndex && nd.log != [] {
      assert nd'.log[0] == f[nd.snapshotIndex];
    }
  }

  /**
   With a snapshot that is not older, the node ends with its own log or with the snapshot's, rather
   than a splice of the two, exactly if nothing lies behind the snapshot or the terms there agree.
   */
  lemma InstallSplices(nd: Node, f: seq<Entry>, s: Snapshot)
    requires View(nd, f) && Numbered(s.state) && Matching(f, s.state)
    requires s.index == |s.state| > 0 && s.term == TermOf(s.state, s.index) && s.index >= nd.snapshotIndex
    ensures Whole(Install(nd, s)) == f || Whole(Install(nd, s)) == s.state <==>
            LastIndex(nd) <= s.index || TermAt(nd, s.index) == Some(s.term)
  {
    hide TermAt, LogFrom;
    LastView(nd, f);
    TermAtView(nd, f, s.index);
    FilterFrom(f, nd.snapshotIndex, s.index + 1);
    assert MatchAt(f, s.state, s.index - 1);
    var whole := Whole(Install(nd, s));
    if |f| > s.index {
      assert whole == s.state + f[s.index..];
      assert whole[s.index - 1] == s.state[s.index - 1];
      if TermAt(nd, s.index) == Some(s.term) { assert whole == f; }
    } else {
      assert whole == s.state;
    }
  }
}
