/** Compaction: what it must not change, what it drops, and what it keeps in order. */
module MvccCompaction {
  import opened Wrappers
  import opened Commands
  import opened Mvcc
  import opened MvccPlain
  import opened MvccChains
  import opened MvccRefines
  import opened MvccRuns

  // ---- the event log -------------------------------------------------------

  ghost predicate EventOrder(events: seq<Event>, i: nat, j: nat) {
    i <= j < |events| ==> events[i].rev <= events[j].rev
  }

  /** Events are in revision order, after `low` and no later than `high`. */
  ghost predicate EventsOk(events: seq<Event>, low: nat, high: nat) {
    && (forall i: nat, j: nat :: EventOrder(events, i, j))
    && forall i | 0 <= i < |events| :: low < events[i].rev <= high
  }

  /** Trimming an ordered event log cuts a prefix: exactly the events up to `rev`. */
  lemma {:induction false} AfterCuts(events: seq<Event>, low: nat, high: nat, rev: nat) returns (cut: nat)
    requires EventsOk(events, low, high)
    ensures cut <= |events| && After(events, rev) == events[cut..]
    ensures forall i | 0 <= i < |events| :: events[i].rev > rev <==> cut <= i
  {
    if events == [] {
      cut := 0;
    } else {
      forall i: nat, j: nat ensures EventOrder(events[1..], i, j) { assert EventOrder(events, i + 1, j + 1); }
      var rest := AfterCuts(events[1..], low, high, rev);
      if events[0].rev > rev {
        AllLater(events, low, high, rev);
        cut := 0;
      } else {
        cut := rest + 1;
        hide EventsOk;
        assert events[1..][rest..] == events[cut..];
        forall i | 0 <= i < |events| ensures events[i].rev > rev <==> cut <= i {
          if i > 0 { assert events[i] == events[1..][i - 1]; }
        }
      }
    }
  }

  lemma AllLater(events: seq<Event>, low: nat, high: nat, rev: nat)
    requires EventsOk(events, low, high) && events != [] && events[0].rev > rev
    ensures After(events, rev) == events && forall i | 0 <= i < |events| :: events[i].rev > rev
  {
    forall i | 0 <= i < |events| ensures events[i].rev > rev { assert EventOrder(events, 0, i); }
    EveryAfter(events, rev);
  }

  lemma {:induction false} EveryAfter(events: seq<Event>, rev: nat)
    requires forall i | 0 <= i < |events| :: events[i].rev > rev
    ensures After(events, rev) == events
  {
    if events != [] {
      EveryAfter(events[1..], rev);
      assert events == [events[0]] + events[1..];
    }
  }

  lemma AfterOk(events: seq<Event>, low: nat, high: nat, rev: nat)
    requires EventsOk(events, low, high)
    ensures EventsOk(After(events, rev), rev, high)
  {
    var cut := AfterCuts(events, low, high, rev);
    var kept := After(events, rev);
    forall i: nat, j: nat ensures EventOrder(kept, i, j) { assert EventOrder(events, cut + i, cut + j); }
  }

  // ---- transparency --------------------------------------------------------

  /** A store whose chains, events and compaction point are in order. */
  ghost predicate Ordered(s: Store) {
    s.compactRevision <= s.revision && ChainsOk(s, s.revision) && EventsOk(s.events, s.compactRevision, s.revision)
  }

  predicate Compactable(s: Store, target: int) {
    s.compactRevision < target <= s.revision
  }

  /** The key's newest link is a tombstone, and nothing else of the key has to stay. */
  predicate Finished(c: seq<Rev>, target: int) {
    c != [] && c[|c| - 1].deleted && (c[|c| - 1].rev <= target || |c| == 1)
  }

  /** The live entries of a revision as a map, whatever chains they come from. */
  function LiveMap(s: Store, r: nat): View {
    map k | k in s.keys && KvAt(s, k, r).Some? :: KvAt(s, k, r).value
  }

  lemma LiveMapIs(s: Store, r: nat, k: Key)
    ensures KvAt(s, k, r) == Lookup(LiveMap(s, r), k)
  {
    UptoAll([], r);
  }

  /** A read at the target or later, or of the newest state, answers the same as before; an older one is refused. */
  lemma CompactionTransparent(s: Store, target: int, q: Query)
    requires Ordered(s) && Compactable(s, target)
    ensures var s' := ApplyCompact(s, target).store;
            Range(s', q) == if 0 < q.revision < target then Err(Compacted) else Range(s, q)
  {
    var s' := ApplyCompact(s, target).store;
    var r := if q.revision < 0 then 0 else q.revision;
    if r == 0 || r >= target {
      forall k ensures KvAt(s', k, r) == Lookup(LiveMap(s, r), k) {
        CompactedChain(s, target, k, r);
        LiveMapIs(s, r, k);
      }
      forall k ensures KvAt(s, k, r) == Lookup(LiveMap(s, r), k) { LiveMapIs(s, r, k); }
      ListingIs(s, LiveMap(s, r), r, q.key, q.rangeEnd);
      ListingIs(s', LiveMap(s, r), r, q.key, q.rangeEnd);
    }
  }

  /**
   Everything else is dropped: of each chain only links after the target and one before remain, of
   the events only those after the target; a key goes exactly when its newest link is a tombstone
   with nothing after the target, and then it is dead at every revision that can still be read.
   */
  lemma CompactionDrops(s: Store, target: int, k: Key)
    requires Ordered(s) && Compactable(s, target)
    ensures var s' := ApplyCompact(s, target).store;
            && s'.compactRevision == target && s'.revision == s.revision && s'.leases == s.leases
            && Ordered(s')
            && (forall i | 1 <= i < |Chain(s', k)| :: Chain(s', k)[i].rev > target)
            && (k in s.keys ==> (k !in s'.keys <==> Finished(s.keys[k], target)))
            && (k in s'.keys ==> k in s.keys && s'.keys[k] == s.keys[k][|s.keys[k]| - |s'.keys[k]|..])
            && (k in s.keys && k !in s'.keys ==> forall r: nat | r == 0 || r >= target :: EntryAt(s, k, r) == None)
  {
    var s' := ApplyCompact(s, target).store;
    AfterOk(s.events, s.compactRevision, s.revision, target);
    forall j | j in s'.keys ensures ChainOk(s'.keys[j], s'.revision) {
      KeptReads(s.keys[j], s.revision, target, 0);
    }
    if k in s.keys {
      var c := s.keys[k];
      KeptReads(c, s.revision, target, 0);
      KeptAll(c, s.revision, target);
      forall r: nat | Dead(Kept(c, target)) && (r == 0 || r >= target) ensures EntryAt(s, k, r) == None {
        DeadReads(c, s.revision, target, r);
      }
    }
  }

  lemma KeptAll(c: seq<Rev>, bound: nat, target: nat)
    requires ChainOk(c, bound)
    ensures Dead(Kept(c, target)) <==> Finished(c, target)
    ensures Kept(c, target) == c[|c| - |Kept(c, target)|..]
  {
    if c != [] {
      var k := KeepFrom(c, target);
      KeepFromIs(c, target);
      assert Kept(c, target) == c[k..];
      assert RevOrder(c, k, |c| - 1);
    }
  }
}
