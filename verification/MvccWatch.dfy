/** Watches: a list and then a watch rebuild the range, exactly when nothing the watch asked for was already gone. */
module MvccWatch {
  import opened Wrappers
  import opened Commands
  import opened Keys
  import opened Mvcc
  import opened MvccPlain
  import opened MvccChains
  import opened MvccRefines
  import opened MvccRuns
  import opened MvccCompaction
  import opened MvccHistory
  import opened MvccLeases
  import opened MvccEvery
  import opened MvccSort

  datatype Watcher = Watcher(key: Key, rangeEnd: Key, prevKv: bool)

  // ---- what a watcher is given ---------------------------------------------

  predicate Cares(w: Watcher, e: Event) {
    Covers(w.key, w.rangeEnd, EventKey(e))
  }

  function ShapeEvent(w: Watcher, e: Event): Event {
    if w.prevKv then e else e.(prevKv := None)
  }

  /** The covered events of a batch, shaped for one watcher. */
  function Mine(w: Watcher, events: seq<Event>): seq<Event> {
    if events == [] then []
    else (if Cares(w, events[0]) then [ShapeEvent(w, events[0])] else []) + Mine(w, events[1..])
  }

  function From(events: seq<Event>, start: int): seq<Event> {
    if events == [] then [] else (if events[0].rev >= start then [events[0]] else []) + From(events[1..], start)
  }

  /** Registering a watch: refused below the compaction point, otherwise the backlog from `start`; 0 asks for none. */
  function Watch(s: Store, w: Watcher, start: int): Result<seq<Event>, StoreError> {
    if start != 0 && start < s.compactRevision then Err(Compacted)
    else Ok(if start != 0 then Mine(w, From(s.events, start)) else [])
  }

  /** One call of the watcher's listeners per batch that concerns it. */
  function Deliveries(w: Watcher, bs: seq<seq<Event>>): seq<seq<Event>> {
    if bs == [] then []
    else (if Mine(w, bs[0]) != [] then [Mine(w, bs[0])] else []) + Deliveries(w, bs[1..])
  }

  /** What was published from command `i` on. */
  function Since(cmds: seq<Command>, i: nat): seq<Event>
    requires i <= |cmds|
  {
    Flat(Batches(cmds)[i..])
  }

  /** What the watcher's listeners receive while the commands from `i` on are applied. */
  function Live(cmds: seq<Command>, i: nat, w: Watcher): seq<Event>
    requires i <= |cmds|
  {
    Flat(Deliveries(w, Batches(cmds)[i..]))
  }

  // ---- filters -------------------------------------------------------------

  lemma {:induction false} MinePlus(w: Watcher, a: seq<Event>, b: seq<Event>)
    ensures Mine(w, a + b) == Mine(w, a) + Mine(w, b)
  {
    if a == [] {
      assert a + b == b;
    } else {
      assert (a + b)[1..] == a[1..] + b;
      MinePlus(w, a[1..], b);
    }
  }

  lemma {:induction false} FromIsAfter(events: seq<Event>, start: nat)
    requires start > 0
    ensures From(events, start) == After(events, start - 1)
  {
    if events != [] { FromIsAfter(events[1..], start); }
  }

  ghost predicate InGap(w: Watcher, e: Event, low: int, high: int) {
    Cares(w, e) && low < e.rev <= high
  }

  /** A covered event in the gap (low, high]. */
  ghost predicate Missing(w: Watcher, events: seq<Event>, low: int, high: int) {
    exists i :: 0 <= i < |events| && InGap(w, events[i], low, high)
  }

  lemma {:induction false} MineAfter(w: Watcher, events: seq<Event>, rev: nat)
    ensures |Mine(w, After(events, rev))| <= |Mine(w, events)|
    ensures |Mine(w, After(events, rev))| == |Mine(w, events)| <==> !Missing(w, events, -1, rev)
    ensures !Missing(w, events, -1, rev) ==> Mine(w, After(events, rev)) == Mine(w, events)
  {
    if events != [] {
      var rest := events[1..];
      MineAfter(w, rest, rev);
      MinePlus(w, if events[0].rev > rev then [events[0]] else [], After(rest, rev));
      var just := [events[0]];
      assert just[1..] == [];
      assert Mine(w, just) == if Cares(w, events[0]) then [ShapeEvent(w, events[0])] else [];
      MissingTail(w, events, rev);
    }
  }

  lemma MissingTail(w: Watcher, events: seq<Event>, rev: nat)
    requires events != []
    ensures Missing(w, events, -1, rev) <==> InGap(w, events[0], -1, rev) || Missing(w, events[1..], -1, rev)
  {
    forall i | 0 <= i < |events[1..]| ensures events[i + 1] == events[1..][i] {}
    if Missing(w, events[1..], -1, rev) {
      var i :| 0 <= i < |events[1..]| && InGap(w, events[1..][i], -1, rev);
      assert InGap(w, events[i + 1], -1, rev);
    }
    if Missing(w, events, -1, rev) {
      var i :| 0 <= i < |events| && InGap(w, events[i], -1, rev);
      if i > 0 { assert InGap(w, events[1..][i - 1], -1, rev); }
    }
  }

  // ---- delivery ------------------------------------------------------------

  lemma HistorySplits(cmds: seq<Command>, i: nat)
    requires i <= |cmds|
    ensures History(cmds) == History(cmds[..i]) + Since(cmds, i)
  {
    hide Batches, Flat;
    BatchesPrefix(cmds, i);
    FlatPlus(Batches(cmds)[..i], Batches(cmds)[i..]);
    assert Batches(cmds)[..i] + Batches(cmds)[i..] == Batches(cmds);
  }

  lemma {:induction false} DeliveriesFlat(w: Watcher, bs: seq<seq<Event>>)
    ensures Flat(Deliveries(w, bs)) == Mine(w, Flat(bs))
  {
    if bs != [] {
      DeliveriesFlat(w, bs[1..]);
      MinePlus(w, bs[0], Flat(bs[1..]));
      if Mine(w, bs[0]) != [] {
        assert Deliveries(w, bs)[1..] == Deliveries(w, bs[1..]);
      } else {
        assert Deliveries(w, bs) == Deliveries(w, bs[1..]);
      }
    }
  }

  lemma {:induction false} RunGrows(cmds: seq<Command>, i: nat)
    requires i <= |cmds|
    ensures RunStore(cmds[..i]).revision <= RunStore(cmds).revision
    ensures RunActual(cmds[..i]).views <= RunActual(cmds).views
    decreases |cmds|
  {
    hide RunStore, RunActual;
    if i == |cmds| {
      assert cmds[..i] == cmds;
    } else {
      var n := |cmds| - 1;
      RunGrows(cmds[..n], i);
      assert cmds[..n][..i] == cmds[..i];
      NewerStep(cmds);
    }
  }

  /** Everything published later is newer than the store was. */
  lemma {:induction false} SinceIsNew(cmds: seq<Command>, i: nat)
    requires i <= |cmds|
    ensures forall k | 0 <= k < |Since(cmds, i)| :: Since(cmds, i)[k].rev > RunStore(cmds[..i]).revision
    decreases |cmds|
  {
    hide RunStore, RunActual;
    if i < |cmds| {
      var n := |cmds| - 1;
      SinceIsNew(cmds[..n], i);
      RunGrows(cmds[..n], i);
      assert cmds[..n][..i] == cmds[..i];
      NewerStep(cmds);
      SinceStep(cmds, i);
      hide Since;
    }
  }

  lemma NewerStep(cmds: seq<Command>)
    requires cmds != []
    ensures var n := |cmds| - 1;
            && RunActual(cmds[..n]).views <= RunActual(cmds).views
            && RunStore(cmds[..n]).revision <= RunStore(cmds).revision
            && AllAt(Batches(cmds)[n], RunStore(cmds[..n]).revision + 1)
  {
    var n := |cmds| - 1;
    var before := cmds[..n];
    RunTracks(before);
    RunTracks(cmds);
    ApplyPublishes(RunStore(before), RunActual(before), cmds[n], |cmds|);
    ViewsGrow(RunStore(before), RunActual(before), cmds[n], |cmds|);
  }

  lemma {:induction false} SinceStep(cmds: seq<Command>, i: nat)
    requires i < |cmds|
    ensures Since(cmds, i) == Since(cmds[..|cmds| - 1], i) + Batches(cmds)[|cmds| - 1]
  {
    var n := |cmds| - 1;
    BatchesPrefix(cmds, n);
    FlatPush(Batches(cmds[..n])[i..], Batches(cmds)[n]);
    assert Batches(cmds)[i..] == Batches(cmds[..n])[i..] + [Batches(cmds)[n]];
  }

  /** The covered events of the whole history from `start` on: what a watch from `start` is for. */
  function Due(cmds: seq<Command>, w: Watcher, start: nat): seq<Event> {
    Mine(w, From(History(cmds), start))
  }

  /**
   A watch accepted after `i` commands gets its backlog and then every later batch. That is every
   covered event from `start` on, once and in order, if and only if no covered event was trimmed at
   the compaction point itself, and none is published below a start that lies in the future.
   */
  lemma WatchDelivers(cmds: seq<Command>, i: nat, w: Watcher, start: nat)
    requires i <= |cmds| && start > 0
    requires Watch(RunStore(cmds[..i]), w, start).Ok?
    ensures var s := RunStore(cmds[..i]);
            Watch(s, w, start).value + Live(cmds, i, w) == Due(cmds, w, start)
            <==> (start == s.compactRevision ==> !Missing(w, History(cmds[..i]), start - 1, start))
                 && !Missing(w, Since(cmds, i), -1, start - 1)
  {
    RunRecords(cmds[..i]);
    HistorySplits(cmds, i);
    DeliveriesFlat(w, Batches(cmds)[i..]);
    SinceIsNew(cmds, i);
    var s := RunStore(cmds[..i]);
    Delivers(w, History(cmds[..i]), Since(cmds, i), s.compactRevision, s.revision, start);
  }

  /** What a watch accepted after `before` is sent while `later` is applied is what it is due. */
  ghost predicate DeliversDue(before: seq<Command>, later: seq<Command>, w: Watcher, start: nat)
    requires Watch(RunStore(before), w, start).Ok?
  {
    Watch(RunStore(before), w, start).value + Live(before + later, |before|, w) == Due(before + later, w, start)
  }

  ghost predicate CoversNone(w: Watcher) {
    forall k :: !Covers(w.key, w.rangeEnd, k)
  }

  /**
   The condition to check when the watch is registered: it is sent what it is due, whatever is applied
   later, if and only if it does not start past the next revision, unless its range is empty, and no
   covered event was trimmed at the compaction point itself.
   */
  lemma WatchExact(before: seq<Command>, w: Watcher, start: nat)
    requires start > 0 && Watch(RunStore(before), w, start).Ok?
    ensures var s := RunStore(before);
            (forall later :: DeliversDue(before, later, w, start))
            <==> (start <= s.revision + 1 || CoversNone(w))
                 && (start == s.compactRevision ==> !Missing(w, History(before), start - 1, start))
  {
    var s := RunStore(before);
    if start <= s.revision + 1 || CoversNone(w) {
      forall later
        ensures DeliversDue(before, later, w, start)
                <==> (start == s.compactRevision ==> !Missing(w, History(before), start - 1, start))
      {
        NothingAhead(before, later, w, start);
        DeliversIff(before, later, w, start);
      }
      assert DeliversDue(before, [], w, start)
          <==> (start == s.compactRevision ==> !Missing(w, History(before), start - 1, start));
    } else {
      var k :| Covers(w.key, w.rangeEnd, k);
      TooEarly(before, w, start, k);
    }
  }

  lemma DeliversIff(before: seq<Command>, later: seq<Command>, w: Watcher, start: nat)
    requires start > 0 && Watch(RunStore(before), w, start).Ok?
    ensures DeliversDue(before, later, w, start)
            <==> (start == RunStore(before).compactRevision ==> !Missing(w, History(before), start - 1, start))
                 && !Missing(w, Since(before + later, |before|), -1, start - 1)
  {
    assert (before + later)[..|before|] == before;
    WatchDelivers(before + later, |before|, w, start);
  }

  lemma NothingAhead(before: seq<Command>, later: seq<Command>, w: Watcher, start: nat)
    requires start > 0 && (start <= RunStore(before).revision + 1 || CoversNone(w))
    ensures !Missing(w, Since(before + later, |before|), -1, start - 1)
  {
    assert (before + later)[..|before|] == before;
    SinceIsNew(before + later, |before|);
  }

  /** The next put of a covered key is sent although it is not due. */
  lemma TooEarly(before: seq<Command>, w: Watcher, start: nat, k: Key)
    requires start > RunStore(before).revision + 1 && Watch(RunStore(before), w, start).Ok?
             && Covers(w.key, w.rangeEnd, k)
    ensures !DeliversDue(before, [Put(PutOn(k, 0))], w, start)
  {
    var later := [Put(PutOn(k, 0))];
    var cmds := before + later;
    var s := RunStore(before);
    var e := PutPublishes(s, k);
    assert cmds[..|before|] == before && cmds[..|cmds| - 1] == before;
    BatchesPrefix(cmds, |before|);
    assert Batches(cmds)[|before|..] == [[e]];
    FlatPush([], [e]);
    assert [] + [[e]] == [[e]];
    assert Since(cmds, |before|) == [e];
    assert InGap(w, [e][0], -1, start - 1);
    DeliversIff(before, later, w, start);
  }

  lemma PutPublishes(s: Store, k: Key) returns (e: Event)
    ensures ApplyWrites(s, [PutOn(k, 0)]).published == [e] && e.rev == s.revision + 1 && EventKey(e) == k
  {
    var w := PutAt(s, s.revision + 1, PutOn(k, 0)).value;
    e := w.out;
    SinglePut(s, PutOn(k, 0), w);
    var just := [PutOn(k, 0)];
    assert just[1..] == [];
    assert ApplyOps(w.store, s.revision + 1, just[1..]) == Done(w.store, []);
    assert w.store.events[|s.events|..] == [e];
  }

  lemma {:induction false} Delivers(w: Watcher, before: seq<Event>, later: seq<Event>, compact: nat, revision: nat,
      start: nat)
    requires start > 0 && compact <= revision && compact <= start
    requires forall i | 0 <= i < |later| :: later[i].rev > revision
    ensures Mine(w, From(After(before, compact), start)) + Mine(w, later) == Mine(w, From(before + later, start))
            <==> (start == compact ==> !Missing(w, before, start - 1, start)) && !Missing(w, later, -1, start - 1)
  {
    FromIsAfter(before + later, start);
    FromIsAfter(After(before, compact), start);
    DueSplits(w, before, later, start - 1);
    AfterAfter(before, compact, start - 1);
    if start == compact {
      AtCompaction(w, before, later, start);
    } else {
      AfterCompaction(w, before, later, start);
    }
  }

  lemma AfterCompaction(w: Watcher, before: seq<Event>, later: seq<Event>, start: nat)
    requires start > 0
    ensures Mine(w, After(before, start - 1)) + Mine(w, later)
            == Mine(w, After(before, start - 1)) + Mine(w, After(later, start - 1))
            <==> !Missing(w, later, -1, start - 1)
  {
    MineAfter(w, later, start - 1);
    SameHead(Mine(w, After(before, start - 1)), Mine(w, later), Mine(w, After(later, start - 1)));
  }

  lemma DueSplits(w: Watcher, before: seq<Event>, later: seq<Event>, rev: nat)
    ensures Mine(w, After(before + later, rev)) == Mine(w, After(before, rev)) + Mine(w, After(later, rev))
  {
    AfterPlus(before, later, rev);
    MinePlus(w, After(before, rev), After(later, rev));
  }

  lemma AtCompaction(w: Watcher, before: seq<Event>, later: seq<Event>, start: nat)
    requires start > 0 && forall i | 0 <= i < |later| :: later[i].rev > start - 1
    ensures Mine(w, After(before, start)) + Mine(w, later)
            == Mine(w, After(before, start - 1)) + Mine(w, After(later, start - 1))
            <==> !Missing(w, before, start - 1, start)
    ensures !Missing(w, later, -1, start - 1)
  {
    NoneBelow(w, later, start - 1);
    EveryAfter(later, start - 1);
    AfterAfter(before, start - 1, start);
    MineAfter(w, After(before, start - 1), start);
    GapOnly(w, before, start);
    SameTail(Mine(w, After(before, start)), Mine(w, After(before, start - 1)), Mine(w, later));
  }

  lemma SameTail(a: seq<Event>, b: seq<Event>, c: seq<Event>)
    ensures a + c == b + c <==> a == b
  {
    if a + c == b + c {
      assert |a| == |b|;
      assert a == (a + c)[..|a|] && b == (b + c)[..|b|];
    }
  }

  lemma SameHead(a: seq<Event>, b: seq<Event>, c: seq<Event>)
    ensures a + b == a + c <==> b == c
  {
    if a + b == a + c {
      assert b == (a + b)[|a|..] && c == (a + c)[|a|..];
    }
  }

  lemma NoneBelow(w: Watcher, events: seq<Event>, rev: nat)
    requires forall i | 0 <= i < |events| :: events[i].rev > rev
    ensures !Missing(w, events, -1, rev)
  {
  }

  lemma {:induction false} AfterHas(events: seq<Event>, rev: nat, e: Event)
    ensures e in After(events, rev) <==> e in events && e.rev > rev
  {
    if events != [] { AfterHas(events[1..], rev, e); }
  }

  /** Between `start - 1` and `start` there is only `start`. */
  lemma GapOnly(w: Watcher, events: seq<Event>, start: nat)
    requires start > 0
    ensures Missing(w, After(events, start - 1), -1, start) <==> Missing(w, events, start - 1, start)
  {
    hide After;
    var later := After(events, start - 1);
    if Missing(w, later, -1, start) {
      var i :| 0 <= i < |later| && InGap(w, later[i], -1, start);
      AfterHas(events, start - 1, later[i]);
      MissingHas(w, events, later[i], start - 1, start);
    }
    if Missing(w, events, start - 1, start) {
      var i :| 0 <= i < |events| && InGap(w, events[i], start - 1, start);
      AfterHas(events, start - 1, events[i]);
      MissingHas(w, later, events[i], -1, start);
    }
  }

  lemma MissingHas(w: Watcher, events: seq<Event>, e: Event, low: int, high: int)
    requires e in events && InGap(w, e, low, high)
    ensures Missing(w, events, low, high)
  {
    var i :| 0 <= i < |events| && events[i] == e;
    assert InGap(w, events[i], low, high);
  }

  // ---- list, then watch ----------------------------------------------------

  function MapOf(kvs: seq<KV>): View {
    if kvs == [] then map[] else MapOf(kvs[1..])[kvs[0].key := kvs[0]]
  }

  function Restrict(m: View, w: Watcher): View {
    map k | k in m && Covers(w.key, w.rangeEnd, k) :: m[k]
  }

  lemma {:induction false} MapOfValues(m: View, ks: seq<Key>)
    requires Keyed(m)
    ensures forall k :: k in MapOf(Values(m, ks)) <==> k in ks && k in m
    ensures forall k | k in MapOf(Values(m, ks)) :: MapOf(Values(m, ks))[k] == m[k]
  {
    if ks != [] {
      MapOfValues(m, ks[1..]);
      if ks[0] in m {
        assert Values(m, ks)[1..] == Values(m, ks[1..]);
      } else {
        assert Values(m, ks) == Values(m, ks[1..]);
      }
    }
  }

  lemma ListingMap(m: View, w: Watcher)
    requires Keyed(m)
    ensures MapOf(Listing(m, w.key, w.rangeEnd)) == Restrict(m, w)
  {
    MatchingIsCovered(m.Keys, w.key, w.rangeEnd);
    MapOfValues(m, MatchingKeys(m.Keys, w.key, w.rangeEnd));
  }

  /** Replaying a watcher's share on its share of the map is replaying everything and then looking at its share. */
  lemma {:induction false} ReplayMine(m: View, w: Watcher, events: seq<Event>)
    ensures Replay(Restrict(m, w), Mine(w, events)) == Restrict(Replay(m, events), w)
    decreases |events|
  {
    hide Cares, Restrict, Step, ShapeEvent;
    if events != [] {
      var e := events[0];
      ReplayMine(Step(m, e), w, events[1..]);
      StepMine(m, w, e);
      assert Mine(w, events) == if Cares(w, e) then [ShapeEvent(w, e)] + Mine(w, events[1..]) else Mine(w, events[1..]);
    }
  }

  lemma StepMine(m: View, w: Watcher, e: Event)
    ensures Restrict(Step(m, e), w) == if Cares(w, e) then Step(Restrict(m, w), ShapeEvent(w, e)) else Restrict(m, w)
  {
    hide Covers;
  }

  lemma ViewKeyed(s: Store, p: Keyspace, n: nat)
    requires Refines(s, p) && p.compact <= n <= s.revision && (n > 0 || s.revision == 0)
    ensures Keyed(p.views[n])
  {
    forall k | k in p.views[n] ensures p.views[n][k].key == k {
      if n > 0 {
        assert ReadsAs(s, p.views[n], n, k);
      } else {
        assert NowIs(s, Current(p), k);
      }
    }
  }

  /** A plain list request for a watcher's range. */
  function ListOf(w: Watcher, revision: int): Query {
    Query(w.key, w.rangeEnd, revision, 0, false, false, Unsorted, ByKey)
  }

  /** What a client has after listing the range at `revision` and replaying the events it was sent. */
  function Rebuilt(s: Store, w: Watcher, revision: nat, events: seq<Event>): View {
    match Range(s, ListOf(w, revision))
    case Err(_) => map[]
    case Ok(list) => Replay(MapOf(list.kvs), events)
  }

  function Listed(s: Store, w: Watcher): View {
    match Range(s, ListOf(w, 0))
    case Err(_) => map[]
    case Ok(list) => MapOf(list.kvs)
  }

  /** The revision a list request reads at. */
  function ListedAt(s: Store, revision: nat): nat {
    if revision == 0 then s.revision else revision
  }

  lemma ListIs(s: Store, p: Keyspace, w: Watcher, revision: nat)
    requires Refines(s, p) && Range(s, ListOf(w, revision)).Ok?
    ensures ListedAt(s, revision) <= s.revision
    ensures var list := Range(s, ListOf(w, revision)).value;
            MapOf(list.kvs) == Restrict(p.views[ListedAt(s, revision)], w)
  {
    var n := ListedAt(s, revision);
    ReadsRefine(s, p, ListOf(w, revision));
    ViewKeyed(s, p, n);
    ListingMap(p.views[n], w);
    ListingByKeys(p.views[n], w.key, w.rangeEnd);
    SortedAlready(Listing(p.views[n], w.key, w.rangeEnd));
  }

  /** A watch from `start`, after `i` commands, is accepted, and no covered event it asks for is gone. */
  ghost predicate Unbroken(cmds: seq<Command>, i: nat, w: Watcher, start: nat)
    requires 0 < start && i <= |cmds|
  {
    var s := RunStore(cmds[..i]);
    Watch(s, w, start).Ok? && (start == s.compactRevision ==> !Missing(w, History(cmds[..i]), start - 1, start))
  }

  /** Everything such a watch is sent: its backlog, then every later batch. */
  function SentTo(cmds: seq<Command>, i: nat, w: Watcher, start: nat): seq<Event>
    requires i <= |cmds|
  {
    match Watch(RunStore(cmds[..i]), w, start)
    case Err(_) => []
    case Ok(backlog) => backlog + Live(cmds, i, w)
  }

  /**
   List after `j` commands, watch from the next revision after `i` commands, and apply whatever is
   sent: the client holds exactly the range as it is now, unless a covered event at the revision it
   asked for first had already been compacted away.
   */
  lemma {:induction false} ListThenWatch(cmds: seq<Command>, j: nat, i: nat, w: Watcher, revision: nat, n: nat)
    requires j <= i <= |cmds|
    requires Range(RunStore(cmds[..j]), ListOf(w, revision)).Ok?
    requires n == ListedAt(RunStore(cmds[..j]), revision) && Unbroken(cmds, i, w, n + 1)
    ensures Rebuilt(RunStore(cmds[..j]), w, revision, SentTo(cmds, i, w, n + 1)) == Listed(RunStore(cmds), w)
  {
    hide RunStore, RunActual, Range, Watch, History, Since, Missing, Refines, ListOf, MapOf, Restrict, Replay;
    RunTracks(cmds[..j]);
    SameRevision(RunStore(cmds[..j]), RunActual(cmds[..j]));
    ListIs(RunStore(cmds[..j]), RunActual(cmds[..j]), w, revision);
    NothingBelow(cmds, j, i, w, n);
    WatchDelivers(cmds, i, w, n + 1);
    FromIsAfter(History(cmds), n + 1);
    RunGrows(cmds, j);
    DueRebuilds(cmds, w, n);
  }

  lemma SameRevision(s: Store, p: Keyspace)
    requires Refines(s, p)
    ensures Revision(p) == s.revision
  {
  }

  lemma NothingBelow(cmds: seq<Command>, j: nat, i: nat, w: Watcher, n: nat)
    requires j <= i <= |cmds|
    requires n <= RunStore(cmds[..j]).revision
    ensures !Missing(w, Since(cmds, i), -1, n)
  {
    SinceIsNew(cmds, i);
    RunGrows(cmds[..i], j);
    assert cmds[..i][..j] == cmds[..j];
    NoneBelow(w, Since(cmds, i), n);
  }

  /** The covered events after a revision turn its share of the keyspace into the present one. */
  lemma DueRebuilds(cmds: seq<Command>, w: Watcher, n: nat)
    requires n <= Revision(RunActual(cmds))
    ensures Replay(Restrict(RunActual(cmds).views[n], w), Mine(w, After(History(cmds), n))) == Listed(RunStore(cmds), w)
  {
    RunRecords(cmds);
    var s, p := RunStore(cmds), RunActual(cmds);
    assert TellsFrom(p, History(cmds), n);
    TellsReplay(p.views[n], After(History(cmds), n), Current(p));
    ReplayMine(p.views[n], w, After(History(cmds), n));
    ListIs(s, p, w, 0);
  }

  // ---- the two gaps, concretely --------------------------------------------

  /** The store after one put of a fresh key, and the event it published. */
  lemma OnePut(a: Key)
    ensures var e := PutEvent(1, KV(a, [], 1, 1, 1, 0), None);
            var out := ApplyWrites(Empty, [PutOn(a, 0)]);
            && out.published == [e]
            && out.store == Store(1, 0, map[a := [Rev(1, [], 1, 1, 0, false)]], [e], map[])
  {
    var entry := Rev(1, [], 1, 1, 0, false);
    var e := PutEvent(1, KV(a, [], 1, 1, 1, 0), None);
    UptoAll([], 0);
    assert NewRev(None, 1, PutOn(a, 0)) == entry;
    assert Chain(Empty, a) + [entry] == [entry] && Empty.events + [e] == [e];
    SinglePut(Empty, PutOn(a, 0), Written(Empty.(keys := map[a := [entry]], events := [e]), e));
    var just := [PutOn(a, 0)];
    assert just[1..] == [];
  }

  /** After put and compact, a watch from the compacted revision is accepted but never sees that revision's event. */
  lemma TrimmedAtCompaction(a: Key, cmds: seq<Command>)
    requires cmds == [Put(PutOn(a, 0)), Compact(1)]
    ensures var w := Watcher(a, [], false);
            && Watch(RunStore(cmds), w, 1) == Ok([])
            && History(cmds) == [PutEvent(1, KV(a, [], 1, 1, 1, 0), None)] && Cares(w, History(cmds)[0])
  {
    OnePut(a);
    RunStep(cmds, 0);
    RunStep(cmds, 1);
    assert cmds[..2] == cmds;
    var e := PutEvent(1, KV(a, [], 1, 1, 1, 0), None);
    var just := [e];
    assert just[1..] == [];
    assert After(just, 1) == [];
    BatchesPrefix(cmds, 1);
    BatchesPrefix(cmds[..1], 0);
    assert Batches(cmds) == [just, []];
    FlatPush([just], []);
    FlatPush([], just);
    assert [] + [just] == [just];
  }

  /** A watch from a revision far ahead is sent the next event all the same. */
  lemma FutureStart(a: Key, cmds: seq<Command>)
    requires cmds == [Put(PutOn(a, 0))]
    ensures var w := Watcher(a, [], false);
            && Watch(RunStore(cmds[..0]), w, 5) == Ok([])
            && Live(cmds, 0, w) == [PutEvent(1, KV(a, [], 1, 1, 1, 0), None)]
  {
    OnePut(a);
    RunStep(cmds, 0);
    var w := Watcher(a, [], false);
    var just := [PutEvent(1, KV(a, [], 1, 1, 1, 0), None)];
    assert just[1..] == [] && cmds[..0] == [];
    assert Batches(cmds) == [] + [just] == [just];
    assert Batches(cmds)[0..] == [just];
    DeliveriesFlat(w, [just]);
    FlatPush([], just);
    assert [] + [just] == [just];
    assert Mine(w, just) == just;
  }
}
