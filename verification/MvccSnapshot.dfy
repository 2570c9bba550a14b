/** Snapshots: what `snapshot` writes is what `restore` reads back, values passing through text. */
module MvccSnapshot {
  import opened Wrappers
  import opened Commands
  import opened Mvcc

  type Text = string

  /** A link, a key-value pair and an event with their values as text; a deletion's pair has no value. */
  datatype TextRev = TextRev(rev: nat, value: Text, version: nat, createRevision: nat, lease: int, deleted: bool)
  datatype TextKv = TextKv(key: Key, value: Option<Text>, createRevision: nat, modRevision: nat, version: nat,
      lease: int)
  datatype TextEvent = TextEvent(rev: nat, put: bool, kv: TextKv, prevKv: Option<TextKv>)
  datatype TextChain = TextChain(key: Key, chain: seq<TextRev>)
  datatype TextLease = TextLease(id: int, ttl: int, expiry: int, keys: seq<Key>)

  datatype Snapshot = Snapshot(
    revision: nat, compactRevision: nat, keys: seq<TextChain>, events: seq<TextEvent>, leases: seq<TextLease>)

  /** Bytes to text and back, as base64 is (section 4 of RFC 4648). */
  datatype Coding = Coding(enc: Value -> Text, dec: Text -> Value)

  ghost predicate IsCoding(c: Coding) {
    forall v: Value :: c.dec(c.enc(v)) == v
  }

  // ---- writing -------------------------------------------------------------

  function RevToText(c: Coding, e: Rev): TextRev {
    TextRev(e.rev, c.enc(e.value), e.version, e.createRevision, e.lease, e.deleted)
  }

  function ChainToText(c: Coding, chain: seq<Rev>): seq<TextRev> {
    if chain == [] then [] else [RevToText(c, chain[0])] + ChainToText(c, chain[1..])
  }

  function KvToText(c: Coding, kv: KV): TextKv {
    TextKv(kv.key, Some(c.enc(kv.value)), kv.createRevision, kv.modRevision, kv.version, kv.lease)
  }

  function PrevToText(c: Coding, prevKv: Option<KV>): Option<TextKv> {
    match prevKv case None => None case Some(kv) => Some(KvToText(c, kv))
  }

  function EventToText(c: Coding, e: Event): TextEvent {
    match e
    case PutEvent(rev, kv, prevKv) => TextEvent(rev, true, KvToText(c, kv), PrevToText(c, prevKv))
    case DeleteEvent(rev, key, prevKv) => TextEvent(rev, false, TextKv(key, None, 0, rev, 0, 0), PrevToText(c, prevKv))
  }

  function EventsToText(c: Coding, events: seq<Event>): seq<TextEvent> {
    if events == [] then [] else [EventToText(c, events[0])] + EventsToText(c, events[1..])
  }

  /** One pair per key, in some order: a snapshot lists keys in the order they were first written. */
  ghost predicate ListsChains(c: Coding, keys: map<Key, seq<Rev>>, list: seq<TextChain>) {
    && (forall i | 0 <= i < |list| :: list[i].key in keys && list[i].chain == ChainToText(c, keys[list[i].key]))
    && forall k | k in keys :: exists i :: 0 <= i < |list| && list[i].key == k
  }

  ghost predicate ListsLeases(leases: map<int, Lease>, list: seq<TextLease>) {
    && (forall i | 0 <= i < |list| ::
          list[i].id in leases && Lease(list[i].ttl, list[i].expiry, list[i].keys) == leases[list[i].id])
    && forall id | id in leases :: exists i :: 0 <= i < |list| && list[i].id == id
  }

  /** The snapshots `snapshot` may produce for a store. */
  ghost predicate SnapshotOf(c: Coding, s: Store, snap: Snapshot) {
    && snap.revision == s.revision && snap.compactRevision == s.compactRevision
    && ListsChains(c, s.keys, snap.keys)
    && snap.events == EventsToText(c, s.events)
    && ListsLeases(s.leases, snap.leases)
  }

  // ---- reading -------------------------------------------------------------

  function RevFromText(c: Coding, t: TextRev): Rev {
    Rev(t.rev, c.dec(t.value), t.version, t.createRevision, t.lease, t.deleted)
  }

  function ChainFromText(c: Coding, chain: seq<TextRev>): seq<Rev> {
    if chain == [] then [] else [RevFromText(c, chain[0])] + ChainFromText(c, chain[1..])
  }

  function KvFromText(c: Coding, t: TextKv): KV {
    KV(t.key, if t.value.Some? then c.dec(t.value.value) else [], t.createRevision, t.modRevision, t.version, t.lease)
  }

  function EventFromText(c: Coding, t: TextEvent): Event {
    var prevKv := if t.prevKv.Some? then Some(KvFromText(c, t.prevKv.value)) else None;
    if t.put then PutEvent(t.rev, KvFromText(c, t.kv), prevKv) else DeleteEvent(t.rev, t.kv.key, prevKv)
  }

  function EventsFromText(c: Coding, events: seq<TextEvent>): seq<Event> {
    if events == [] then [] else [EventFromText(c, events[0])] + EventsFromText(c, events[1..])
  }

  /** Pairs into a map, a later pair replacing an earlier one. */
  function ToChains(c: Coding, list: seq<TextChain>): map<Key, seq<Rev>> {
    if list == [] then map[]
    else
      var n := |list| - 1;
      ToChains(c, list[..n])[list[n].key := ChainFromText(c, list[n].chain)]
  }

  function ToLeases(list: seq<TextLease>): map<int, Lease> {
    if list == [] then map[]
    else
      var n := |list| - 1;
      ToLeases(list[..n])[list[n].id := Lease(list[n].ttl, list[n].expiry, list[n].keys)]
  }

  function Restore(c: Coding, snap: Snapshot): Store {
    Store(snap.revision, snap.compactRevision, ToChains(c, snap.keys), EventsFromText(c, snap.events),
        ToLeases(snap.leases))
  }

  // ---- round trip ----------------------------------------------------------

  lemma {:induction false} ChainRoundTrip(c: Coding, chain: seq<Rev>)
    requires IsCoding(c)
    ensures ChainFromText(c, ChainToText(c, chain)) == chain
  {
    if chain != [] {
      ChainRoundTrip(c, chain[1..]);
      assert ChainToText(c, chain)[1..] == ChainToText(c, chain[1..]);
      assert RevFromText(c, RevToText(c, chain[0])) == chain[0];
      assert chain == [chain[0]] + chain[1..];
    }
  }

  lemma EventRoundTrip(c: Coding, e: Event)
    requires IsCoding(c)
    ensures EventFromText(c, EventToText(c, e)) == e
  {
    if e.prevKv.Some? { assert KvFromText(c, KvToText(c, e.prevKv.value)) == e.prevKv.value; }
    if e.PutEvent? { assert KvFromText(c, KvToText(c, e.kv)) == e.kv; }
  }

  lemma {:induction false} EventsRoundTrip(c: Coding, events: seq<Event>)
    requires IsCoding(c)
    ensures EventsFromText(c, EventsToText(c, events)) == events
  {
    if events != [] {
      EventsRoundTrip(c, events[1..]);
      EventRoundTrip(c, events[0]);
      assert EventsToText(c, events)[1..] == EventsToText(c, events[1..]);
      assert events == [events[0]] + events[1..];
    }
  }

  lemma {:induction false} ChainsRead(c: Coding, keys: map<Key, seq<Rev>>, list: seq<TextChain>, n: nat)
    requires IsCoding(c) && ListsChains(c, keys, list) && n <= |list|
    ensures forall k :: k in ToChains(c, list[..n]) <==> exists i :: 0 <= i < n && list[i].key == k
    ensures forall k | k in ToChains(c, list[..n]) :: k in keys && ToChains(c, list[..n])[k] == keys[k]
  {
    hide ChainFromText, ChainToText, IsCoding;
    if n > 0 {
      assert list[..n][..n - 1] == list[..n - 1];
      ChainsRead(c, keys, list, n - 1);
      ChainRoundTrip(c, keys[list[n - 1].key]);
    }
  }

  lemma {:induction false} LeasesRead(leases: map<int, Lease>, list: seq<TextLease>, n: nat)
    requires ListsLeases(leases, list) && n <= |list|
    ensures forall id :: id in ToLeases(list[..n]) <==> exists i :: 0 <= i < n && list[i].id == id
    ensures forall id | id in ToLeases(list[..n]) :: id in leases && ToLeases(list[..n])[id] == leases[id]
  {
    if n > 0 {
      assert list[..n][..n - 1] == list[..n - 1];
      LeasesRead(leases, list, n - 1);
    }
  }

  /** Restoring any snapshot of a store gives the store. */
  lemma RestoreSnapshot(c: Coding, s: Store, snap: Snapshot)
    requires IsCoding(c) && SnapshotOf(c, s, snap)
    ensures Restore(c, snap) == s
  {
    hide ToLeases, ToChains, EventToText;
    ChainsRead(c, s.keys, snap.keys, |snap.keys|);
    LeasesRead(s.leases, snap.leases, |snap.leases|);
    EventsRoundTrip(c, s.events);
    assert snap.keys[..|snap.keys|] == snap.keys && snap.leases[..|snap.leases|] == snap.leases;
    assert ToChains(c, snap.keys) == s.keys;
    var leases := ToLeases(snap.leases);
    forall id | id in s.leases ensures id in leases {
      var i :| 0 <= i < |snap.leases| && snap.leases[i].id == id;
    }
    forall id | id in leases ensures id in s.leases && leases[id] == s.leases[id] {
      assert id in ToLeases(snap.leases[..|snap.leases|]);
    }
    assert leases == s.leases;
  }
}
