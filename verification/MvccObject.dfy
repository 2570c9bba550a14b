/** The store as the program has it: an object whose methods change its fields in place. */
module MvccObject {
  import opened Wrappers
  import opened Commands
  import opened Keys
  import opened Mvcc
  import opened MvccChains
  import opened MvccWatch
  import MS = MvccSnapshot

  /** A watcher and every batch its listeners were called with. */
  datatype Watching = Watching(watcher: Watcher, sent: seq<seq<Event>>)

  /** What listeners have received after one more batch. */
  function Notified(w: Watching, batch: seq<Event>): Watching {
    w.(sent := w.sent + Deliveries(w.watcher, [batch]))
  }

  function NotifiedAll(watchers: map<nat, Watching>, batch: seq<Event>): map<nat, Watching> {
    map id | id in watchers :: Notified(watchers[id], batch)
  }

  /** The result of a batch some of whose responses are already known. */
  function Prefixed(responses: seq<OpResponse>, batch: Batch): Batch {
    match batch
    case Thrown(s, e) => Thrown(s, e)
    case Done(s, rs) => Done(s, responses + rs)
  }

  class Store {
    var revision: nat
    var compactRevision: nat
    var keys: map<Key, seq<Rev>>
    var events: seq<Event>
    var leases: map<int, Lease>
    var watchers: map<nat, Watching>
    var nextWatchId: nat

    ghost function State(): Mvcc.Store
      reads this
    {
      Mvcc.Store(revision, compactRevision, keys, events, leases)
    }

    constructor ()
      ensures State() == Empty && watchers == map[] && nextWatchId == 1
    {
      revision, compactRevision := 0, 0;
      keys, events, leases := map[], [], map[];
      watchers, nextWatchId := map[], 1;
    }

    // ---- reads -------------------------------------------------------------

    method EntryAt(key: Key, rev: nat) returns (found: Option<Rev>)
      ensures found == Mvcc.EntryAt(State(), key, rev)
    {
      var chain := if key in keys then keys[key] else [];
      found := None;
      var i := 0;
      while i < |chain| && !(rev != 0 && chain[i].rev > rev)
        invariant i <= |chain| && Upto(chain, rev) == i + Upto(chain[i..], rev)
        invariant found == if i == 0 then None else Some(chain[i - 1])
      {
        assert chain[i..][1..] == chain[i + 1..];
        found := Some(chain[i]);
        i := i + 1;
      }
      if found.Some? && found.value.deleted { found := None; }
    }

    method ReadKeys(ks: seq<Key>, rev: nat) returns (kvs: seq<KV>)
      ensures kvs == Collect(State(), ks, rev)
    {
      kvs := [];
      ghost var s := State();
      var i := 0;
      assert ks[..0] == [];
      while i < |ks|
        invariant i <= |ks| && kvs == Collect(s, ks[..i], rev)
      {
        var entry := EntryAt(ks[i], rev);
        CollectPush(s, ks[..i], ks[i], rev);
        assert ks[..i + 1] == ks[..i] + [ks[i]];
        if entry.Some? { kvs := kvs + [KvOf(ks[i], entry.value)]; }
        i := i + 1;
      }
      assert ks[..i] == ks;
    }

    method ReadRange(q: Query) returns (r: Result<RangeResult, StoreError>)
      ensures r == Mvcc.Range(State(), q)
    {
      var rev := if q.revision < 0 then 0 else q.revision;
      if rev != 0 && rev < compactRevision { return Err(Compacted); }
      if rev > revision { return Err(FutureRevision); }
      var kvs := ReadKeys(MatchingKeys(keys.Keys, q.key, q.rangeEnd), rev);
      r := Ok(Shape(kvs, q, revision));
    }

    // ---- writes ------------------------------------------------------------

    /** Moves a key from its old entry's lease to the new one's. */
    method MoveLease(key: Key, from: int, to: int)
      modifies this`leases
      ensures leases == Relink(old(leases), key, from, to)
    {
      if from != 0 && from in leases {
        leases := leases[from := leases[from].(keys := Without(leases[from].keys, key))];
      }
      if to != 0 && to in leases && key !in leases[to].keys {
        leases := leases[to := leases[to].(keys := leases[to].keys + [key])];
      }
    }

    method PutAt(rev: nat, op: Op) returns (r: Result<Event, StoreError>)
      requires op.OpPut?
      modifies this`keys, this`events, this`leases
      ensures match Mvcc.PutAt(old(State()), rev, op)
              case Err(e) => r == Err(e) && State() == old(State())
              case Ok(w) => r == Ok(w.out) && State() == w.store
    {
      var previous := EntryAt(op.key, 0);
      var entry := NewRev(previous, rev, op);
      if entry.lease != 0 && entry.lease !in leases { return Err(LeaseNotFound); }
      if op.key !in keys { keys := keys[op.key := []]; }
      keys := keys[op.key := keys[op.key] + [entry]];
      MoveLease(op.key, LeaseOf(previous), entry.lease);
      var event := PutEvent(rev, KvOf(op.key, entry), PrevKv(op.key, previous));
      events := events + [event];
      r := Ok(event);
    }

    /** Deletes one key if it is live. */
    method DeleteOne(rev: nat, key: Key) returns (deleted: seq<Event>)
      modifies this`keys, this`events, this`leases
      ensures Written(State(), deleted) == DeleteKey(old(State()), rev, key)
    {
      var previous := EntryAt(key, 0);
      if previous == None { return []; }
      var event := DeleteEvent(rev, key, Some(KvOf(key, previous.value)));
      LiveHasChain(State(), key);
      keys := keys[key := keys[key] + [Tombstone(rev)]];
      MoveLease(key, previous.value.lease, 0);
      events := events + [event];
      deleted := [event];
    }

    method DeleteAt(rev: nat, key: Key, rangeEnd: Key) returns (deleted: seq<Event>)
      modifies this`keys, this`events, this`leases
      ensures Written(State(), deleted) == Mvcc.DeleteAt(old(State()), rev, key, rangeEnd)
    {
      deleted := [];
      ghost var s0 := State();
      var ks := MatchingKeys(keys.Keys, key, rangeEnd);
      var i := 0;
      assert ks[..0] == [];
      while i < |ks|
        invariant i <= |ks| && Written(State(), deleted) == DeleteKeys(s0, rev, ks[..i])
      {
        DeletePush(s0, rev, ks[..i], ks[i]);
        assert ks[..i + 1] == ks[..i] + [ks[i]];
        var one := DeleteOne(rev, ks[i]);
        deleted := deleted + one;
        i := i + 1;
      }
      assert ks[..i] == ks;
    }

    // ---- batches -----------------------------------------------------------

    method ApplyOne(rev: nat, op: Op) returns (r: Result<OpResponse, StoreError>)
      modifies this`keys, this`events, this`leases
      ensures match ApplyOp(old(State()), rev, op)
              case Err(e) => r == Err(e) && State() == old(State())
              case Ok(w) => r == Ok(w.out) && State() == w.store
    {
      match op {
        case OpPut(_, _, _, prevKv, _, _) =>
          var event := PutAt(rev, op);
          if event.Err? { return Err(event.error); }
          r := Ok(PutResponse(if prevKv then event.value.prevKv else None));
        case OpDelete(key, rangeEnd, prevKv) =>
          var deleted := DeleteAt(rev, key, rangeEnd);
          r := Ok(DeleteResponse(|deleted|, if prevKv then Prevs(deleted) else []));
        case OpRange(q) =>
          var result := ReadRange(q);
          if result.Err? { return Err(result.error); }
          r := Ok(RangeResponse(result.value));
        case OpUnknown =>
          r := Err(UnknownOperation);
      }
    }

    /** Takes back the links of a failed batch, one per event it had recorded. */
    method Rollback(mark: nat, rev: nat)
      requires mark <= |events|
      modifies this`keys, this`events
      ensures State() == Mvcc.Rollback(old(State()), mark, rev)
    {
      var undone := events[mark..];
      var i := 0;
      assert undone[0..] == undone;
      while i < |undone|
        invariant events == old(events) && leases == old(leases)
        invariant i <= |undone| && PopAll(keys, undone[i..], rev) == PopAll(old(keys), undone, rev)
      {
        assert undone[i..][1..] == undone[i + 1..];
        var key := EventKey(undone[i]);
        if key in keys && keys[key] != [] && keys[key][|keys[key]| - 1].rev == rev {
          keys := keys[key := keys[key][..|keys[key]| - 1]];
        }
        i := i + 1;
      }
      assert undone[i..] == [];
      events := events[..mark];
    }

    /** Hands a batch to every watcher it concerns. */
    method Publish(batch: seq<Event>)
      modifies this`watchers
      ensures watchers == NotifiedAll(old(watchers), batch)
    {
      var todo := watchers.Keys;
      while todo != {}
        invariant todo <= watchers.Keys == old(watchers).Keys
        invariant forall id | id in watchers ::
                    watchers[id] == if id in todo then old(watchers)[id] else Notified(old(watchers)[id], batch)
        decreases |todo|
      {
        var id :| id in todo;
        var mine := Mine(watchers[id].watcher, batch);
        DeliverOne(watchers[id].watcher, batch);
        if mine != [] {
          watchers := watchers[id := watchers[id].(sent := watchers[id].sent + [mine])];
        }
        todo := todo - {id};
      }
    }

    /** The operations of a batch in order, up to the first that fails. */
    method RunOps(rev: nat, ops: seq<Op>) returns (r: Result<seq<OpResponse>, StoreError>)
      modifies this`keys, this`events, this`leases
      ensures match ApplyOps(old(State()), rev, ops)
              case Thrown(s, e) => r == Err(e) && State() == s
              case Done(s, responses) => r == Ok(responses) && State() == s
    {
      var responses: seq<OpResponse> := [];
      var i := 0;
      assert ops[0..] == ops;
      Unprefixed(ApplyOps(State(), rev, ops));
      while i < |ops|
        invariant i <= |ops|
        invariant Prefixed(responses, ApplyOps(State(), rev, ops[i..])) == ApplyOps(old(State()), rev, ops)
      {
        assert ops[i..][0] == ops[i] && ops[i..][1..] == ops[i + 1..];
        var response := ApplyOne(rev, ops[i]);
        if response.Err? { return Err(response.error); }
        ghost var rest := ApplyOps(State(), rev, ops[i + 1..]);
        PrefixedPush(responses, response.value, rest);
        responses := responses + [response.value];
        i := i + 1;
      }
      assert ops[i..] == [] && responses + [] == responses;
      r := Ok(responses);
    }

    method ApplyWrites(ops: seq<Op>) returns (r: Result<Response, StoreError>)
      modifies this
      ensures var out := Mvcc.ApplyWrites(old(State()), ops);
              && State() == out.store && r == out.result
              && watchers == NotifiedAll(old(watchers), out.published) && nextWatchId == old(nextWatchId)
    {
      EventsAppended(State(), revision + 1, ops);
      NotifyNothing(watchers);
      var rev := revision + 1;
      var mark := |events|;
      var responses := RunOps(rev, ops);
      if responses.Err? {
        Rollback(mark, rev);
        return Err(responses.error);
      }
      var published := events[mark..];
      if published != [] {
        revision := rev;
        Publish(published);
      }
      r := Ok(WriteResponse(revision, responses.value));
    }

    method ApplyTxn(compare: seq<Compare>, success: seq<Op>, failure: seq<Op>) returns (r: Result<Response, StoreError>)
      modifies this
      ensures var out := Mvcc.ApplyTxn(old(State()), compare, success, failure);
              && State() == out.store && r == out.result
              && watchers == NotifiedAll(old(watchers), out.published) && nextWatchId == old(nextWatchId)
    {
      var succeeded := true;
      var i := 0;
      while i < |compare| && succeeded
        invariant i <= |compare| && State() == old(State()) && watchers == old(watchers)
                  && nextWatchId == old(nextWatchId)
        invariant succeeded ==> forall j | 0 <= j < i :: CompareHolds(State(), compare[j])
        invariant !succeeded ==> exists j :: 0 <= j < |compare| && !CompareHolds(State(), compare[j])
      {
        succeeded := CompareHolds(Mvcc.Store(revision, compactRevision, keys, events, leases), compare[i]);
        i := i + 1;
      }
      var result := ApplyWrites(if succeeded then success else failure);
      if result.Err? { return Err(result.error); }
      r := Ok(TxnResponse(succeeded, revision, if result.value.WriteResponse? then result.value.responses else []));
    }

    // ---- compaction --------------------------------------------------------

    /** The newest link at or below the target and everything after it. */
    method KeptOf(chain: seq<Rev>, target: nat) returns (kept: seq<Rev>)
      ensures kept == Kept(chain, target)
    {
      var keepFrom := 0;
      var i := 0;
      assert chain[..0] == [];
      while i < |chain|
        invariant i <= |chain| && keepFrom == KeepFrom(chain[..i], target) && (i > 0 ==> keepFrom < i)
                  && (i == 0 ==> keepFrom == 0)
      {
        assert chain[..i + 1][..i] == chain[..i];
        if chain[i].rev <= target { keepFrom := i; }
        i := i + 1;
      }
      assert chain[..|chain|] == chain;
      kept := chain[keepFrom..];
    }

    method ApplyCompact(target: int) returns (r: Result<Response, StoreError>)
      modifies this`compactRevision, this`keys, this`events
      ensures State() == Mvcc.ApplyCompact(old(State()), target).store
              && r == Mvcc.ApplyCompact(old(State()), target).result
    {
      if target > revision { return Err(FutureRevision); }
      if target <= compactRevision { return Err(Compacted); }
      hide Kept, Dead, After;
      compactRevision := target;
      CompactChains(target);
      events := After(events, target);
      r := Ok(CompactResponse(revision, compactRevision));
    }

    method CompactChains(target: nat)
      modifies this`keys
      ensures keys == map k | k in old(keys) && !Dead(Kept(old(keys)[k], target)) :: Kept(old(keys)[k], target)
    {
      hide Kept;
      var todo := keys.Keys;
      while todo != {}
        invariant todo <= keys.Keys <= old(keys).Keys
        invariant forall k | k in todo :: keys[k] == old(keys)[k]
        invariant forall k | k in old(keys) && k !in todo ::
                    if Dead(Kept(old(keys)[k], target)) then k !in keys
                    else k in keys && keys[k] == Kept(old(keys)[k], target)
        decreases |todo|
      {
        var k :| k in todo;
        var kept := KeptOf(keys[k], target);
        if |kept| == 1 && kept[0].deleted {
          keys := keys - {k};
        } else {
          keys := keys[k := kept];
        }
        todo := todo - {k};
      }
    }

    // ---- leases ------------------------------------------------------------

    method ApplyLeaseRevoke(id: int) returns (r: Result<Response, StoreError>)
      modifies this
      ensures var out := Mvcc.ApplyLeaseRevoke(old(State()), id);
              && State() == out.store && r == out.result
              && watchers == NotifiedAll(old(watchers), out.published) && nextWatchId == old(nextWatchId)
    {
      NotifyNothing(watchers);
      if id !in leases { return Err(LeaseNotFound); }
      var ks := leases[id].keys;
      leases := leases - {id};
      hide NotifiedAll, DeleteEach;
      var rev, mark := revision + 1, |events|;
      DeleteEachAppends(State(), rev, ks);
      DeleteAll(rev, ks);
      var published := events[mark..];
      if published != [] {
        revision := rev;
        Publish(published);
      }
      r := Ok(RevokeResponse(revision, id));
    }

    /** One range delete after the other. */
    method DeleteAll(rev: nat, ks: seq<Key>)
      modifies this`keys, this`events, this`leases
      ensures State() == DeleteEach(old(State()), rev, ks).store
    {
      ghost var all := DeleteEach(State(), rev, ks);
      var i := 0;
      assert ks[0..] == ks;
      while i < |ks|
        invariant i <= |ks| && DeleteEach(State(), rev, ks[i..]).store == all.store
      {
        assert ks[i..][1..] == ks[i + 1..];
        var deleted := DeleteAt(rev, ks[i], []);
        i := i + 1;
      }
    }

    // ---- one committed command ---------------------------------------------

    /** Applying a command is what the functions on values say, and watchers get exactly what it publishes. */
    method Apply(cmd: Command, index: nat) returns (r: Result<Response, StoreError>)
      modifies this
      ensures var out := Mvcc.Apply(old(State()), cmd, index);
              && State() == out.store && r == out.result
              && watchers == NotifiedAll(old(watchers), out.published) && nextWatchId == old(nextWatchId)
    {
      NotifyNothing(watchers);
      match cmd {
        case Put(op) => r := ApplyWrites([op]);
        case DeleteRange(op) => r := ApplyWrites([op]);
        case Txn(compare, success, failure) => r := ApplyTxn(compare, success, failure);
        case Compact(target) => r := ApplyCompact(target);
        case LeaseGrant(id, ttl, expiry) =>
          var id' := if id != 0 then id else if index != 0 then index else |leases| + 1;
          leases := leases[id' := Lease(ttl, expiry, [])];
          r := Ok(GrantResponse(id', ttl, revision));
        case LeaseRevoke(id) => r := ApplyLeaseRevoke(id);
        case LeaseKeepAlive(id, expiry) =>
          if id !in leases { return Err(LeaseNotFound); }
          leases := leases[id := leases[id].(expiry := expiry)];
          r := Ok(KeepAliveResponse(id, leases[id].ttl, revision));
        case Seed(to) =>
          if to > revision { revision := to; }
          r := Ok(RevisionResponse(revision));
        case Noop => r := Ok(RevisionResponse(revision));
        case Unknown => r := Err(UnknownOperation);
      }
    }

    // ---- watches -----------------------------------------------------------

    /** Replay and subscription in one step: the backlog, and a watcher that has been sent nothing yet. */
    method Watch(w: Watcher, start: int) returns (r: Result<seq<Event>, StoreError>, id: nat)
      modifies this`watchers, this`nextWatchId
      ensures r == MvccWatch.Watch(State(), w, start) && id == old(nextWatchId)
      ensures r.Ok? ==> watchers == old(watchers)[id := Watching(w, [])] && nextWatchId == id + 1
      ensures r.Err? ==> watchers == old(watchers) && nextWatchId == id
    {
      id := nextWatchId;
      if start != 0 && start < compactRevision { return Err(Compacted), id; }
      nextWatchId := nextWatchId + 1;
      watchers := watchers[id := Watching(w, [])];
      r := Ok(if start != 0 then Mine(w, From(events, start)) else []);
    }

    /** No later batch reaches the watcher that went; every other one is told what it would have been told. */
    method Cancel(id: nat)
      modifies this`watchers
      ensures watchers == old(watchers) - {id}
      ensures forall batch :: NotifiedAll(watchers, batch) == NotifiedAll(old(watchers), batch) - {id}
    {
      watchers := watchers - {id};
      forall batch ensures NotifiedAll(watchers, batch) == NotifiedAll(old(watchers), batch) - {id} {
        assert NotifiedAll(watchers, batch).Keys == (NotifiedAll(old(watchers), batch) - {id}).Keys;
      }
    }

    // ---- snapshots ---------------------------------------------------------

    method ListChains(c: MS.Coding) returns (chains: seq<MS.TextChain>)
      ensures MS.ListsChains(c, keys, chains)
    {
      chains := [];
      var todo := keys.Keys;
      while todo != {}
        invariant todo <= keys.Keys
        invariant forall i | 0 <= i < |chains| ::
                    chains[i].key in keys && chains[i].chain == MS.ChainToText(c, keys[chains[i].key])
        invariant forall k | k in keys && k !in todo :: exists i :: 0 <= i < |chains| && chains[i].key == k
        decreases |todo|
      {
        var k :| k in todo;
        ghost var had := chains;
        chains := chains + [MS.TextChain(k, MS.ChainToText(c, keys[k]))];
        todo := todo - {k};
        assert chains[|chains| - 1].key == k && forall i | 0 <= i < |had| :: chains[i] == had[i];
      }
    }

    method ListLeases() returns (granted: seq<MS.TextLease>)
      ensures MS.ListsLeases(leases, granted)
    {
      granted := [];
      var todo := leases.Items;
      while todo != {}
        invariant todo <= leases.Items
        invariant forall i | 0 <= i < |granted| ::
                    granted[i].id in leases && Lease(granted[i].ttl, granted[i].expiry, granted[i].keys)
                        == leases[granted[i].id]
        invariant forall id | id in leases && (id, leases[id]) !in todo ::
                    exists i :: 0 <= i < |granted| && granted[i].id == id
        decreases |todo|
      {
        var item :| item in todo;
        ghost var had := granted;
        granted := granted + [MS.TextLease(item.0, item.1.ttl, item.1.expiry, item.1.keys)];
        todo := todo - {item};
        assert granted[|granted| - 1].id == item.0 && forall i | 0 <= i < |had| :: granted[i] == had[i];
      }
    }

    /** Lists chains, events and leases with every value as text. */
    method TakeSnapshot(c: MS.Coding) returns (snap: MS.Snapshot)
      ensures MS.SnapshotOf(c, State(), snap)
    {
      var chains := ListChains(c);
      var granted := ListLeases();
      snap := MS.Snapshot(revision, compactRevision, chains, MS.EventsToText(c, events), granted);
    }

    /** Whatever was here before, the object becomes the store the snapshot was taken of. */
    method Restore(c: MS.Coding, snap: MS.Snapshot)
      modifies this`revision, this`compactRevision, this`keys, this`events, this`leases
      ensures State() == MS.Restore(c, snap)
      ensures forall s | MS.IsCoding(c) && MS.SnapshotOf(c, s, snap) :: State() == s
    {
      forall s | MS.IsCoding(c) && MS.SnapshotOf(c, s, snap) ensures MS.Restore(c, snap) == s {
        MS.RestoreSnapshot(c, s, snap);
      }
      revision, compactRevision := snap.revision, snap.compactRevision;
      keys := MS.ToChains(c, snap.keys);
      events := MS.EventsFromText(c, snap.events);
      leases := MS.ToLeases(snap.leases);
    }
  }

  lemma {:induction false} CollectPush(s: Mvcc.Store, ks: seq<Key>, k: Key, rev: nat)
    ensures Collect(s, ks + [k], rev)
            == Collect(s, ks, rev) + match KvAt(s, k, rev) case None => [] case Some(kv) => [kv]
  {
    if ks == [] {
      var just: seq<Key> := [k];
      assert ks + [k] == just && just[1..] == [] && Collect(s, just[1..], rev) == [];
    } else {
      assert (ks + [k])[1..] == ks[1..] + [k] && (ks + [k])[0] == ks[0];
      CollectPush(s, ks[1..], k, rev);
    }
  }

  lemma {:induction false} DeletePush(s: Mvcc.Store, rev: nat, ks: seq<Key>, k: Key)
    ensures var w := DeleteKeys(s, rev, ks);
            var one := DeleteKey(w.store, rev, k);
            DeleteKeys(s, rev, ks + [k]) == Written(one.store, w.out + one.out)
    decreases |ks|
  {
    if ks == [] {
      var just: seq<Key> := [k];
      assert ks + [k] == just && just[1..] == [];
      var one := DeleteKey(s, rev, k);
      assert DeleteKeys(one.store, rev, just[1..]) == Written(one.store, []);
      assert one.out + [] == one.out == [] + one.out;
    } else {
      assert (ks + [k])[1..] == ks[1..] + [k] && (ks + [k])[0] == ks[0];
      var first := DeleteKey(s, rev, ks[0]);
      DeletePush(first.store, rev, ks[1..], k);
      var w := DeleteKeys(first.store, rev, ks[1..]);
      var one := DeleteKey(w.store, rev, k);
      assert first.out + (w.out + one.out) == first.out + w.out + one.out;
    }
  }

  lemma PrefixedPush(responses: seq<OpResponse>, r: OpResponse, rest: Batch)
    ensures Prefixed(responses, Prefixed([r], rest)) == Prefixed(responses + [r], rest)
  {
    if rest.Done? { assert responses + ([r] + rest.responses) == responses + [r] + rest.responses; }
  }

  lemma Unprefixed(batch: Batch)
    ensures Prefixed([], batch) == batch
  {
    if batch.Done? { assert [] + batch.responses == batch.responses; }
  }

  lemma LiveHasChain(s: Mvcc.Store, key: Key)
    requires Mvcc.EntryAt(s, key, 0).Some?
    ensures key in s.keys
  {
    UptoAll([], 0);
  }

  lemma DeliverOne(w: Watcher, batch: seq<Event>)
    ensures Deliveries(w, [batch]) == if Mine(w, batch) != [] then [Mine(w, batch)] else []
  {
    var just := [batch];
    assert just[1..] == [];
  }

  lemma NotifyNothing(watchers: map<nat, Watching>)
    ensures NotifiedAll(watchers, []) == watchers
  {
    forall id | id in watchers ensures Notified(watchers[id], []) == watchers[id] {
      DeliverOne(watchers[id].watcher, []);
      assert watchers[id].sent + [] == watchers[id].sent;
    }
  }

  lemma {:induction false} DeleteEachAppends(s: Mvcc.Store, rev: nat, ks: seq<Key>)
    ensures DeleteEach(s, rev, ks).store.events == s.events + DeleteEach(s, rev, ks).out
    decreases |ks|
  {
    if ks != [] {
      var first := Mvcc.DeleteAt(s, rev, ks[0], []);
      DeletesAppend(s, rev, MatchingKeys(s.keys.Keys, ks[0], []));
      DeleteEachAppends(first.store, rev, ks[1..]);
    }
  }
}
