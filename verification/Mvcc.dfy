/** The store as a value, and each of its operations as a function on it. */
module Mvcc {
  import opened Wrappers
  import opened Commands
  import opened Keys
  import Utf8

  /** One link of a key's chain; `deleted` marks a tombstone. */
  datatype Rev = Rev(rev: nat, value: Value, version: nat, createRevision: nat, lease: int, deleted: bool)

  datatype KV = KV(key: Key, value: Value, createRevision: nat, modRevision: nat, version: nat, lease: int)

  datatype Event =
    | PutEvent(rev: nat, kv: KV, prevKv: Option<KV>)
    | DeleteEvent(rev: nat, key: Key, prevKv: Option<KV>)

  /** `keys` is in insertion order and without repetition. */
  datatype Lease = Lease(ttl: int, expiry: int, keys: seq<Key>)

  datatype Store = Store(
    revision: nat, compactRevision: nat,
    keys: map<Key, seq<Rev>>, events: seq<Event>, leases: map<int, Lease>)

  datatype StoreError = Compacted | FutureRevision | LeaseNotFound | UnknownOperation

  datatype RangeResult = RangeResult(kvs: seq<KV>, count: nat, more: bool, revision: nat)

  datatype OpResponse =
    | PutResponse(prevKv: Option<KV>)
    | DeleteResponse(deleted: nat, prevKvs: seq<Option<KV>>)
    | RangeResponse(result: RangeResult)

  datatype Response =
    | WriteResponse(revision: nat, responses: seq<OpResponse>)
    | TxnResponse(succeeded: bool, revision: nat, responses: seq<OpResponse>)
    | CompactResponse(revision: nat, compactRevision: nat)
    | GrantResponse(id: int, ttl: int, revision: nat)
    | RevokeResponse(revision: nat, id: int)
    | KeepAliveResponse(id: int, ttl: int, revision: nat)
    | RevisionResponse(revision: nat)

  /** The store afterwards, the answer to the caller, and the batch handed to the watchers. */
  datatype Outcome = Outcome(store: Store, result: Result<Response, StoreError>, published: seq<Event>)

  const Empty: Store := Store(0, 0, map[], [], map[])

  function EventKey(e: Event): Key {
    match e
    case PutEvent(_, kv, _) => kv.key
    case DeleteEvent(_, key, _) => key
  }

  // ---- reads ---------------------------------------------------------------

  function Chain(s: Store, key: Key): seq<Rev> {
    if key in s.keys then s.keys[key] else []
  }

  /** How many links the scan passes before the first one newer than `rev`; 0 means no bound. */
  function Upto(chain: seq<Rev>, rev: nat): (n: nat)
    ensures n <= |chain|
  {
    if chain == [] || (rev != 0 && chain[0].rev > rev) then 0 else 1 + Upto(chain[1..], rev)
  }

  function LiveIn(chain: seq<Rev>, rev: nat): Option<Rev> {
    var n := Upto(chain, rev);
    if n == 0 || chain[n - 1].deleted then None else Some(chain[n - 1])
  }

  function EntryAt(s: Store, key: Key, rev: nat): Option<Rev> {
    LiveIn(Chain(s, key), rev)
  }

  function KvOf(key: Key, e: Rev): KV {
    KV(key, e.value, e.createRevision, e.rev, e.version, e.lease)
  }

  function KvAt(s: Store, key: Key, rev: nat): Option<KV> {
    match EntryAt(s, key, rev)
    case None => None
    case Some(e) => Some(KvOf(key, e))
  }

  function Collect(s: Store, ks: seq<Key>, rev: nat): seq<KV> {
    if ks == [] then []
    else (match KvAt(s, ks[0], rev) case None => [] case Some(kv) => [kv]) + Collect(s, ks[1..], rev)
  }

  function KeysOnly(kvs: seq<KV>): seq<KV> {
    if kvs == [] then [] else [kvs[0].(value := [])] + KeysOnly(kvs[1..])
  }

  /** What entries are compared by: a key, a number, or the text of a value. */
  function Field(kv: KV, target: SortTarget): seq<int> {
    match target
    case ByKey => kv.key
    case ByVersion => [kv.version]
    case ByCreate => [kv.createRevision]
    case ByMod => [kv.modRevision]
    case ByValue => Utf8.Text(kv.value)
  }

  /** Puts an entry behind everything that is not greater. */
  function Insert(kvs: seq<KV>, kv: KV, target: SortTarget): seq<KV> {
    if kvs == [] || Lt(Field(kv, target), Field(kvs[0], target)) then [kv] + kvs
    else [kvs[0]] + Insert(kvs[1..], kv, target)
  }

  /** A stable sort. */
  function SortBy(kvs: seq<KV>, target: SortTarget): seq<KV> {
    if kvs == [] then [] else Insert(SortBy(kvs[..|kvs| - 1], target), kvs[|kvs| - 1], target)
  }

  function Backwards(kvs: seq<KV>): seq<KV> {
    if kvs == [] then [] else Backwards(kvs[1..]) + [kvs[0]]
  }

  function Arranged(kvs: seq<KV>, order: SortOrder, target: SortTarget): seq<KV> {
    match order
    case Unsorted => SortBy(kvs, ByKey)
    case Ascending => SortBy(kvs, target)
    case Descending => Backwards(SortBy(kvs, target))
  }

  /** Order, limit, count and projection, applied to everything that matched. */
  function Shape(matching: seq<KV>, q: Query, revision: nat): RangeResult {
    var kvs := Arranged(matching, q.order, q.target);
    var more := q.limit > 0 && |kvs| > q.limit;
    var page := if more then kvs[..q.limit] else kvs;
    RangeResult(if q.countOnly then [] else if q.keysOnly then KeysOnly(page) else page, |kvs|, more, revision)
  }

  function Range(s: Store, q: Query): Result<RangeResult, StoreError> {
    var rev := if q.revision < 0 then 0 else q.revision;
    if rev != 0 && rev < s.compactRevision then Err(Compacted)
    else if rev > s.revision then Err(FutureRevision)
    else Ok(Shape(Collect(s, MatchingKeys(s.keys.Keys, q.key, q.rangeEnd), rev), q, s.revision))
  }

  // ---- lease bookkeeping ---------------------------------------------------

  function Without(ks: seq<Key>, key: Key): seq<Key> {
    if ks == [] then [] else (if ks[0] == key then [] else [ks[0]]) + Without(ks[1..], key)
  }

  function Detach(leases: map<int, Lease>, id: int, key: Key): map<int, Lease> {
    if id in leases then leases[id := leases[id].(keys := Without(leases[id].keys, key))] else leases
  }

  function Attach(leases: map<int, Lease>, id: int, key: Key): map<int, Lease> {
    if id in leases && key !in leases[id].keys
    then leases[id := leases[id].(keys := leases[id].keys + [key])]
    else leases
  }

  // ---- writes --------------------------------------------------------------

  datatype Written<T> = Written(store: Store, out: T)

  function NewRev(previous: Option<Rev>, rev: nat, op: Op): Rev
    requires op.OpPut?
  {
    match previous
    case None => Rev(rev, op.value, 1, rev, op.lease, false)
    case Some(p) => Rev(rev, if op.ignoreValue then p.value else op.value, p.version + 1, p.createRevision,
                        if op.ignoreLease then p.lease else op.lease, false)
  }

  function PrevKv(key: Key, previous: Option<Rev>): Option<KV> {
    match previous case None => None case Some(p) => Some(KvOf(key, p))
  }

  function Relink(leases: map<int, Lease>, key: Key, from: int, to: int): map<int, Lease> {
    var detached := if from != 0 then Detach(leases, from, key) else leases;
    if to != 0 then Attach(detached, to, key) else detached
  }

  function LeaseOf(previous: Option<Rev>): int {
    match previous case None => 0 case Some(p) => p.lease
  }

  /** Checks the lease before touching anything. */
  function PutAt(s: Store, rev: nat, op: Op): Result<Written<Event>, StoreError>
    requires op.OpPut?
  {
    var previous := EntryAt(s, op.key, 0);
    var entry := NewRev(previous, rev, op);
    if entry.lease != 0 && entry.lease !in s.leases then Err(LeaseNotFound)
    else
      var event := PutEvent(rev, KvOf(op.key, entry), PrevKv(op.key, previous));
      Ok(Written(s.(keys := s.keys[op.key := Chain(s, op.key) + [entry]],
                    leases := Relink(s.leases, op.key, LeaseOf(previous), entry.lease),
                    events := s.events + [event]),
                 event))
  }

  function Tombstone(rev: nat): Rev {
    Rev(rev, [], 0, 0, 0, true)
  }

  /** Deletes one key if it is live. */
  function DeleteKey(s: Store, rev: nat, key: Key): Written<seq<Event>> {
    match EntryAt(s, key, 0)
    case None => Written(s, [])
    case Some(p) =>
      var event := DeleteEvent(rev, key, Some(KvOf(key, p)));
      Written(s.(keys := s.keys[key := Chain(s, key) + [Tombstone(rev)]],
                 leases := Relink(s.leases, key, p.lease, 0),
                 events := s.events + [event]),
              [event])
  }

  function DeleteKeys(s: Store, rev: nat, ks: seq<Key>): Written<seq<Event>>
    decreases |ks|
  {
    if ks == [] then Written(s, [])
    else
      var first := DeleteKey(s, rev, ks[0]);
      var rest := DeleteKeys(first.store, rev, ks[1..]);
      Written(rest.store, first.out + rest.out)
  }

  function DeleteAt(s: Store, rev: nat, key: Key, rangeEnd: Key): Written<seq<Event>> {
    DeleteKeys(s, rev, MatchingKeys(s.keys.Keys, key, rangeEnd))
  }

  // ---- transactions --------------------------------------------------------

  function Prevs(events: seq<Event>): seq<Option<KV>> {
    if events == [] then [] else [events[0].prevKv] + Prevs(events[1..])
  }

  function ApplyOp(s: Store, rev: nat, op: Op): Result<Written<OpResponse>, StoreError> {
    match op
    case OpPut(_, _, _, prevKv, _, _) =>
      (match PutAt(s, rev, op)
       case Err(e) => Err(e)
       case Ok(w) => Ok(Written(w.store, PutResponse(if prevKv then w.out.prevKv else None))))
    case OpDelete(key, rangeEnd, prevKv) =>
      var w := DeleteAt(s, rev, key, rangeEnd);
      Ok(Written(w.store, DeleteResponse(|w.out|, if prevKv then Prevs(w.out) else [])))
    case OpRange(q) =>
      (match Range(s, q)
       case Err(e) => Err(e)
       case Ok(r) => Ok(Written(s, RangeResponse(r))))
    case OpUnknown => Err(UnknownOperation)
  }

  /** Where a batch got to: all the way, or up to the operation that threw. */
  datatype Batch =
    | Done(store: Store, responses: seq<OpResponse>)
    | Thrown(store: Store, error: StoreError)

  function ApplyOps(s: Store, rev: nat, ops: seq<Op>): Batch
    decreases |ops|
  {
    if ops == [] then Done(s, [])
    else match ApplyOp(s, rev, ops[0])
      case Err(e) => Thrown(s, e)
      case Ok(w) =>
        match ApplyOps(w.store, rev, ops[1..])
        case Thrown(s', e) => Thrown(s', e)
        case Done(s', responses) => Done(s', [w.out] + responses)
  }

  /** Takes one link off a chain if this revision put it there. */
  function Pop(keys: map<Key, seq<Rev>>, key: Key, rev: nat): map<Key, seq<Rev>> {
    if key in keys && keys[key] != [] && keys[key][|keys[key]| - 1].rev == rev
    then keys[key := keys[key][..|keys[key]| - 1]]
    else keys
  }

  function PopAll(keys: map<Key, seq<Rev>>, events: seq<Event>, rev: nat): map<Key, seq<Rev>> {
    if events == [] then keys else PopAll(Pop(keys, EventKey(events[0]), rev), events[1..], rev)
  }

  /** Undoes chains and events; the lease bookkeeping stays as the failed batch left it. */
  function Rollback(s: Store, mark: nat, rev: nat): Store
    requires mark <= |s.events|
  {
    s.(keys := PopAll(s.keys, s.events[mark..], rev), events := s.events[..mark])
  }

  lemma {:induction false} EventsAppended(s: Store, rev: nat, ops: seq<Op>)
    ensures s.events <= ApplyOps(s, rev, ops).store.events
    decreases |ops|
  {
    if ops != [] {
      if ops[0].OpDelete? {
        DeletesAppend(s, rev, MatchingKeys(s.keys.Keys, ops[0].key, ops[0].rangeEnd));
      }
      match ApplyOp(s, rev, ops[0]) {
        case Err(_) =>
        case Ok(w) => EventsAppended(w.store, rev, ops[1..]);
      }
    }
  }

  lemma {:induction false} DeletesAppend(s: Store, rev: nat, ks: seq<Key>)
    ensures DeleteKeys(s, rev, ks).store.events == s.events + DeleteKeys(s, rev, ks).out
    decreases |ks|
  {
    if ks != [] { DeletesAppend(DeleteKey(s, rev, ks[0]).store, rev, ks[1..]); }
  }

  function ApplyWrites(s: Store, ops: seq<Op>): Outcome {
    EventsAppended(s, s.revision + 1, ops);
    var rev := s.revision + 1;
    match ApplyOps(s, rev, ops)
    case Thrown(s', e) => Outcome(Rollback(s', |s.events|, rev), Err(e), [])
    case Done(s', responses) =>
      var published := s'.events[|s.events|..];
      var s'' := if published != [] then s'.(revision := rev) else s';
      Outcome(s'', Ok(WriteResponse(s''.revision, responses)), published)
  }

  /** The first operand that is present, whatever the target. */
  function Expected(c: Compare): int {
    if c.version.Some? then c.version.value
    else if c.createRevision.Some? then c.createRevision.value
    else if c.modRevision.Some? then c.modRevision.value
    else if c.lease.Some? then c.lease.value
    else 0
  }

  function Actual(previous: Option<Rev>, target: Target): int {
    match previous
    case None => 0
    case Some(e) =>
      match target
      case TCreate => e.createRevision
      case TMod => e.rev
      case TLease => e.lease
      case _ => e.version
  }

  function Decide(less: bool, equal: bool, result: Relation): bool {
    match result
    case Greater => !less && !equal
    case Less => less
    case NotEqual => !equal
    case Equal => equal
  }

  predicate CompareHolds(s: Store, c: Compare) {
    var previous := EntryAt(s, c.key, 0);
    if c.target == TValue then
      var actual := match previous case None => [] case Some(e) => e.value;
      Decide(Lt(actual, c.value), actual == c.value, c.result)
    else
      Decide(Actual(previous, c.target) < Expected(c), Actual(previous, c.target) == Expected(c), c.result)
  }

  predicate CompareAll(s: Store, cs: seq<Compare>) {
    forall i | 0 <= i < |cs| :: CompareHolds(s, cs[i])
  }

  function ApplyTxn(s: Store, compare: seq<Compare>, success: seq<Op>, failure: seq<Op>): Outcome {
    var succeeded := CompareAll(s, compare);
    var out := ApplyWrites(s, if succeeded then success else failure);
    match out.result
    case Err(_) => out
    case Ok(r) =>
      out.(result := Ok(TxnResponse(succeeded, out.store.revision, if r.WriteResponse? then r.responses else [])))
  }

  function ApplySeed(s: Store, revision: int): Outcome {
    var s' := if revision > s.revision then s.(revision := revision) else s;
    Outcome(s', Ok(RevisionResponse(s'.revision)), [])
  }

  /** The index of the newest link at or below `target`, or 0. */
  function KeepFrom(chain: seq<Rev>, target: nat): (k: nat)
    ensures k == 0 || k < |chain|
  {
    if chain == [] then 0
    else if chain[|chain| - 1].rev <= target then |chain| - 1
    else KeepFrom(chain[..|chain| - 1], target)
  }

  function Kept(chain: seq<Rev>, target: nat): seq<Rev> {
    chain[KeepFrom(chain, target)..]
  }

  predicate Dead(kept: seq<Rev>) {
    |kept| == 1 && kept[0].deleted
  }

  function After(events: seq<Event>, rev: nat): seq<Event> {
    if events == [] then [] else (if events[0].rev > rev then [events[0]] else []) + After(events[1..], rev)
  }

  function ApplyCompact(s: Store, target: int): Outcome {
    if target > s.revision then Outcome(s, Err(FutureRevision), [])
    else if target <= s.compactRevision then Outcome(s, Err(Compacted), [])
    else
      var s' := s.(compactRevision := target,
                   keys := map k | k in s.keys && !Dead(Kept(s.keys[k], target)) :: Kept(s.keys[k], target),
                   events := After(s.events, target));
      Outcome(s', Ok(CompactResponse(s.revision, target)), [])
  }

  // ---- leases --------------------------------------------------------------

  function GrantId(s: Store, id: int, index: nat): int {
    if id != 0 then id else if index != 0 then index else |s.leases| + 1
  }

  function ApplyLeaseGrant(s: Store, id: int, ttl: int, expiry: int, index: nat): Outcome {
    var id' := GrantId(s, id, index);
    Outcome(s.(leases := s.leases[id' := Lease(ttl, expiry, [])]), Ok(GrantResponse(id', ttl, s.revision)), [])
  }

  function DeleteEach(s: Store, rev: nat, ks: seq<Key>): Written<seq<Event>>
    decreases |ks|
  {
    if ks == [] then Written(s, [])
    else
      var first := DeleteAt(s, rev, ks[0], []);
      var rest := DeleteEach(first.store, rev, ks[1..]);
      Written(rest.store, first.out + rest.out)
  }

  function ApplyLeaseRevoke(s: Store, id: int): Outcome {
    if id !in s.leases then Outcome(s, Err(LeaseNotFound), [])
    else
      var w := DeleteEach(s.(leases := s.leases - {id}), s.revision + 1, s.leases[id].keys);
      var s' := if w.out != [] then w.store.(revision := s.revision + 1) else w.store;
      Outcome(s', Ok(RevokeResponse(s'.revision, id)), w.out)
  }

  function ApplyLeaseKeepAlive(s: Store, id: int, expiry: int): Outcome {
    if id !in s.leases then Outcome(s, Err(LeaseNotFound), [])
    else
      Outcome(s.(leases := s.leases[id := s.leases[id].(expiry := expiry)]),
              Ok(KeepAliveResponse(id, s.leases[id].ttl, s.revision)), [])
  }

  /** One committed command, with the log index it was committed at. */
  function Apply(s: Store, cmd: Command, index: nat): Outcome {
    match cmd
    case Put(op) => ApplyWrites(s, [op])
    case DeleteRange(op) => ApplyWrites(s, [op])
    case Txn(compare, success, failure) => ApplyTxn(s, compare, success, failure)
    case Compact(target) => ApplyCompact(s, target)
    case LeaseGrant(id, ttl, expiry) => ApplyLeaseGrant(s, id, ttl, expiry, index)
    case LeaseRevoke(id) => ApplyLeaseRevoke(s, id)
    case LeaseKeepAlive(id, expiry) => ApplyLeaseKeepAlive(s, id, expiry)
    case Seed(revision) => ApplySeed(s, revision)
    case Noop => Outcome(s, Ok(RevisionResponse(s.revision)), [])
    case Unknown => Outcome(s, Err(UnknownOperation), [])
  }
}
