/**
 A node whose log was partly replaced by a snapshot, read as if it still held the whole log.
 `View(nd, f)` says that `f` is that whole log; the lemmas give each handler's effect on it.
 */
module RaftView {
  import opened Wrappers
  import opened RaftNode

  /** Numbered 1, 2, 3, ... with terms at least 1. */
  ghost predicate Numbered(f: seq<Entry>) {
    forall k | 0 <= k < |f| :: f[k].index == k + 1 && f[k].term >= 1
  }

  function TermOf(f: seq<Entry>, k: nat): nat
    requires k <= |f|
  {
    if k == 0 then 0 else f[k - 1].term
  }

  ghost predicate View(nd: Node, f: seq<Entry>) {
    && Numbered(f)
    && nd.snapshotIndex <= nd.lastApplied <= nd.commitIndex <= |f|
    && nd.log == f[nd.snapshotIndex..]
    && nd.snapshotTerm == TermOf(f, nd.snapshotIndex)
    && nd.app == f[..nd.lastApplied]
    && nd.snapshot == (if nd.snapshotIndex == 0 then None
                       else Some(Snapshot(nd.snapshotIndex, nd.snapshotTerm, f[..nd.snapshotIndex])))
  }

  // ---- searching and filtering by index ------------------------------------

  function Clamp(b: nat, x: int, n: nat): (c: nat)
    requires b <= n
    ensures b <= c <= n
  {
    if x <= b then b else if x >= n then n else x
  }

  lemma {:induction false} FindByIndex(f: seq<Entry>, b: nat, index: nat)
    requires Numbered(f) && b <= |f|
    ensures Find(f[b..], index) == if b < index <= |f| then Some(f[index - 1]) else None
    decreases |f| - b
  {
    if b < |f| {
      assert f[b..][1..] == f[b + 1..];
      FindByIndex(f, b + 1, index);
    }
  }

  lemma {:induction false} FilterFrom(f: seq<Entry>, b: nat, index: nat)
    requires Numbered(f) && b <= |f|
    ensures LogFrom(f[b..], index) == f[Clamp(b, index - 1, |f|)..]
    decreases |f| - b
  {
    if b < |f| {
      assert f[b..][1..] == f[b + 1..];
      FilterFrom(f, b + 1, index);
      if f[b].index >= index {
        assert [f[b]] + f[b + 1..] == f[b..];
      }
    }
  }

  lemma {:induction false} FilterBelow(f: seq<Entry>, b: nat, index: nat)
    requires Numbered(f) && b <= |f|
    ensures LogBelow(f[b..], index) == f[b..Clamp(b, index - 1, |f|)]
    decreases |f| - b
  {
    if b < |f| {
      assert f[b..][1..] == f[b + 1..];
      FilterBelow(f, b + 1, index);
      var c := Clamp(b, index - 1, |f|);
      if f[b].index < index {
        assert [f[b]] + f[b + 1..c] == f[b..c];
      }
    }
  }

  lemma TermAtView(nd: Node, f: seq<Entry>, k: nat)
    requires View(nd, f)
    ensures TermAt(nd, k) == if nd.snapshotIndex <= k <= |f| then Some(TermOf(f, k)) else None
  {
    FindByIndex(f, nd.snapshotIndex, k);
  }

  lemma LastView(nd: Node, f: seq<Entry>)
    requires View(nd, f)
    ensures LastIndex(nd) == |f| && LastTerm(nd) == TermOf(f, |f|)
  {
  }

  // ---- applying ------------------------------------------------------------

  /** Everything the apply loop leaves alone. */
  function Core(nd: Node): Node {
    nd.(log := [], snapshot := None, snapshotIndex := 0, snapshotTerm := 0, lastApplied := 0,
        pending := map[], settled := multiset{}, app := [])
  }

  lemma TakeSnapshotView(nd: Node, f: seq<Entry>)
    requires View(nd, f) && nd.lastApplied > 0
    ensures View(TakeSnapshot(nd), f) && Core(TakeSnapshot(nd)) == Core(nd)
    ensures TakeSnapshot(nd).lastApplied == nd.lastApplied == TakeSnapshot(nd).snapshotIndex
  {
    TermAtView(nd, f, nd.lastApplied);
    FilterFrom(f, nd.snapshotIndex, nd.lastApplied + 1);
  }

  lemma DeliverView(nd: Node, f: seq<Entry>)
    requires View(nd, f) && nd.lastApplied < nd.commitIndex
    ensures var nd1 := Deliver(nd.(lastApplied := nd.lastApplied + 1), f[nd.lastApplied]);
            View(nd1, f) && Core(nd1) == Core(nd) && nd1.lastApplied == nd.lastApplied + 1
  {
    assert f[..nd.lastApplied + 1] == f[..nd.lastApplied] + [f[nd.lastApplied]];
  }

  lemma ApplyOneDelivers(cfg: Config, nd: Node, f: seq<Entry>)
    requires View(nd, f) && nd.lastApplied < nd.commitIndex
    ensures ApplyOne(cfg, nd) == MaybeSnapshot(cfg, Deliver(nd.(lastApplied := nd.lastApplied + 1), f[nd.lastApplied]))
  {
    FindByIndex(f, nd.snapshotIndex, nd.lastApplied + 1);
  }

  lemma ApplyOneView(cfg: Config, nd: Node, f: seq<Entry>)
    requires View(nd, f) && nd.lastApplied < nd.commitIndex
    ensures View(ApplyOne(cfg, nd), f) && Core(ApplyOne(cfg, nd)) == Core(nd)
    ensures ApplyOne(cfg, nd).lastApplied == nd.lastApplied + 1
  {
    ApplyOneDelivers(cfg, nd, f);
    DeliverView(nd, f);
    var nd1 := Deliver(nd.(lastApplied := nd.lastApplied + 1), f[nd.lastApplied]);
    TakeSnapshotView(nd1, f);
  }

  lemma {:induction false} ApplyCommittedView(cfg: Config, nd: Node, f: seq<Entry>)
    requires View(nd, f)
    ensures var nd' := ApplyCommitted(cfg, nd);
            View(nd', f) && Core(nd') == Core(nd) && nd'.lastApplied == nd.commitIndex
    decreases nd.commitIndex - nd.lastApplied
  {
    if nd.lastApplied < nd.commitIndex {
      ApplyOneView(cfg, nd, f);
      assert Core(ApplyOne(cfg, nd)).commitIndex == Core(nd).commitIndex;
      ApplyCommittedView(cfg, ApplyOne(cfg, nd), f);
    }
  }

  // ---- receiving entries ---------------------------------------------------

  ghost predicate MatchAt(f: seq<Entry>, g: seq<Entry>, k: nat) {
    k < |f| && k < |g| && f[k].term == g[k].term ==> f[..k + 1] == g[..k + 1]
  }

  /** Two logs in which an index and a term determine everything up to them. */
  ghost predicate Matching(f: seq<Entry>, g: seq<Entry>) {
    forall k: nat :: MatchAt(f, g, k)
  }

  ghost function Adopted(f: seq<Entry>, g: seq<Entry>): seq<Entry> {
    if g <= f then f else g
  }

  /** The scan for the first real divergence, from position `j` of the leader's log on. */
  lemma {:induction false} DivergesView(nd: Node, f: seq<Entry>, g: seq<Entry>, j: nat)
    requires View(nd, f) && Numbered(g) && Matching(f, g)
    requires j <= |g| && nd.snapshotIndex <= j + 1
    requires j <= |f| && f[..j] == g[..j]
    requires j < |g| && nd.snapshotIndex == j + 1 ==> f[..j + 1] == g[..j + 1]
    ensures match Diverges(nd, g[j..])
            case None => g <= f
            case Some(d) =>
              j < d <= |g| && nd.snapshotIndex < d && d - 1 <= |f| && f[..d - 1] == g[..d - 1] && !(g <= f)
    decreases |g| - j
  {
    hide Find;
    if j < |g| {
      var e := g[j..][0];
      TermAtView(nd, f, e.index);
      assert g[j..][1..] == g[j + 1..];
      assert e == g[j] && e.index == j + 1;
      if TermAt(nd, e.index) == Some(e.term) {
        assert j < |f| && f[j].term == g[j].term;
        assert MatchAt(f, g, j);
        DivergesView(nd, f, g, j + 1);
      }
    }
  }

  /**
   Merging the suffix `g[prev..]` of a leader's log `g` into a node that agrees with it up to
   `prev`: the node ends with `g` as a prefix, and a log that already extends `g` is untouched.
   */
  lemma MergeView(nd: Node, f: seq<Entry>, g: seq<Entry>, prev: nat)
    requires View(nd, f) && Numbered(g) && Matching(f, g)
    requires prev <= |f| && prev <= |g| && f[..prev] == g[..prev]
    requires g[prev..] == [] || nd.snapshotIndex <= prev
             || (nd.snapshotIndex == prev + 1 && f[..prev + 1] == g[..prev + 1])
    requires g <= f || f[..nd.commitIndex] <= g
    ensures View(Merge(nd, g[prev..]), Adopted(f, g))
    ensures Merge(nd, g[prev..]).(log := []) == nd.(log := [])
  {
    if g[prev..] == [] {
      assert g == g[..prev];
    } else {
      DivergesView(nd, f, g, prev);
      match Diverges(nd, g[prev..]) {
        case None =>
        case Some(d) =>
          assert nd.commitIndex <= |g| && f[..nd.commitIndex] == g[..nd.commitIndex];
          MergedLog(nd, f, g, prev, d);
          SwitchView(nd, f, g);
      }
    }
  }

  lemma MergedLog(nd: Node, f: seq<Entry>, g: seq<Entry>, prev: nat, d: nat)
    requires View(nd, f) && Numbered(g)
    requires prev < d <= |g| && nd.snapshotIndex < d && d - 1 <= |f| && f[..d - 1] == g[..d - 1]
    ensures LogBelow(nd.log, d) + LogFrom(g[prev..], d) == g[nd.snapshotIndex..]
  {
    var s := nd.snapshotIndex;
    FilterBelow(f, s, d);
    FilterFrom(g, prev, d);
    assert f[..d - 1][s..] == f[s..d - 1];
    assert g[..d - 1][s..] == g[s..d - 1];
    assert g[s..] == g[s..d - 1] + g[d - 1..];
  }

  /** Replacing everything past what was committed. */
  lemma SwitchView(nd: Node, f: seq<Entry>, g: seq<Entry>)
    requires View(nd, f) && Numbered(g)
    requires nd.commitIndex <= |g| && f[..nd.commitIndex] == g[..nd.commitIndex]
    ensures View(nd.(log := g[nd.snapshotIndex..]), g)
  {
    var c, s, a := nd.commitIndex, nd.snapshotIndex, nd.lastApplied;
    assert f[..s] == f[..c][..s] == g[..c][..s] == g[..s];
    assert f[..a] == f[..c][..a] == g[..c][..a] == g[..a];
    if s > 0 {
      assert f[..s][s - 1] == g[..s][s - 1];
    }
  }

  /** Installing a snapshot that agrees with the log behind it, if there is one. */
  lemma InstallView(nd: Node, f: seq<Entry>, s: Snapshot)
    requires View(nd, f)
    requires Numbered(s.state) && s.index == |s.state| > 0 && s.term == TermOf(s.state, s.index)
    requires nd.snapshotIndex <= s.index
    requires |f| <= s.index || s.state <= f
    ensures View(Install(nd, s), Adopted(f, s.state))
  {
    FilterFrom(f, nd.snapshotIndex, s.index + 1);
    var f' := Adopted(f, s.state);
    if |f| > s.index {
      assert f' == f && f[..s.index] == s.state;
    } else {
      assert |f'| == s.index;
      assert f' == s.state by {
        if s.state <= f { assert f == f[..|s.state|]; }
      }
    }
  }

  lemma RestartView(nd: Node, f: seq<Entry>)
    requires View(nd, f)
    ensures View(Restart(nd), f)
    ensures Restart(nd).commitIndex == nd.snapshotIndex
  {
    FilterFrom(f, nd.snapshotIndex, nd.snapshotIndex + 1);
    assert f[0..] == f;
  }
}
