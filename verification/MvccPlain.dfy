/**
 What the store promises, without chains, compaction of data, or rollback: one plain map of live
 keys for every revision. A batch either adds one map or changes nothing.
 */
module MvccPlain {
  import opened Wrappers
  import opened Commands
  import opened Keys
  import opened Mvcc

  type View = map<Key, KV>

  datatype Grant = Grant(ttl: int, expiry: int)

  /** `views[r]` is the keyspace at revision r. */
  datatype Plain = Plain(views: seq<View>, compact: nat, leases: map<int, Grant>)

  type Keyspace = p: Plain | p.views != [] witness Plain([map[]], 0, map[])

  function Revision(p: Keyspace): nat {
    |p.views| - 1
  }

  function Current(p: Keyspace): View {
    p.views[Revision(p)]
  }

  function Lookup(m: View, key: Key): Option<KV> {
    if key in m then Some(m[key]) else None
  }

  // ---- reads ---------------------------------------------------------------

  function Values(m: View, ks: seq<Key>): seq<KV> {
    if ks == [] then [] else (if ks[0] in m then [m[ks[0]]] else []) + Values(m, ks[1..])
  }

  /** The covered keys of a map, in key order. */
  function Listing(m: View, key: Key, rangeEnd: Key): seq<KV> {
    Values(m, MatchingKeys(m.Keys, key, rangeEnd))
  }

  function PlainRange(p: Keyspace, m: View, q: Query): Result<RangeResult, StoreError> {
    var rev := if q.revision < 0 then 0 else q.revision;
    if rev != 0 && rev < p.compact then Err(Compacted)
    else if rev > Revision(p) then Err(FutureRevision)
    else Ok(Shape(Listing(if rev == 0 then m else p.views[rev], q.key, q.rangeEnd), q, Revision(p)))
  }

  // ---- writes --------------------------------------------------------------

  function NewKv(m: View, rev: nat, op: Op): KV
    requires op.OpPut?
  {
    if op.key in m then
      var was := m[op.key];
      KV(op.key, if op.ignoreValue then was.value else op.value, was.createRevision, rev, was.version + 1,
         if op.ignoreLease then was.lease else op.lease)
    else KV(op.key, op.value, rev, rev, 1, op.lease)
  }

  datatype Wrote<T> = Wrote(m: View, wrote: bool, out: T)

  function Removed(m: View, key: Key, rangeEnd: Key): View {
    map k | k in m && !Covers(key, rangeEnd, k) :: m[k]
  }

  function Somes(kvs: seq<KV>): seq<Option<KV>> {
    if kvs == [] then [] else [Some(kvs[0])] + Somes(kvs[1..])
  }

  function PlainOp(p: Keyspace, m: View, rev: nat, op: Op): Result<Wrote<OpResponse>, StoreError> {
    match op
    case OpPut(key, _, _, prevKv, _, _) =>
      var kv := NewKv(m, rev, op);
      if kv.lease != 0 && kv.lease !in p.leases then Err(LeaseNotFound)
      else Ok(Wrote(m[key := kv], true, PutResponse(if prevKv then Lookup(m, key) else None)))
    case OpDelete(key, rangeEnd, prevKv) =>
      var gone := Listing(m, key, rangeEnd);
      Ok(Wrote(Removed(m, key, rangeEnd), gone != [], DeleteResponse(|gone|, if prevKv then Somes(gone) else [])))
    case OpRange(q) =>
      (match PlainRange(p, m, q)
       case Err(e) => Err(e)
       case Ok(r) => Ok(Wrote(m, false, RangeResponse(r))))
    case OpUnknown => Err(UnknownOperation)
  }

  function PlainOps(p: Keyspace, m: View, rev: nat, ops: seq<Op>): Result<Wrote<seq<OpResponse>>, StoreError>
    decreases |ops|
  {
    if ops == [] then Ok(Wrote(m, false, []))
    else match PlainOp(p, m, rev, ops[0])
      case Err(e) => Err(e)
      case Ok(w) =>
        match PlainOps(p, w.m, rev, ops[1..])
        case Err(e) => Err(e)
        case Ok(ws) => Ok(Wrote(ws.m, w.wrote || ws.wrote, [w.out] + ws.out))
  }

  datatype PlainOutcome = PlainOutcome(plain: Keyspace, result: Result<Response, StoreError>)

  function PlainWrites(p: Keyspace, ops: seq<Op>): PlainOutcome {
    match PlainOps(p, Current(p), Revision(p) + 1, ops)
    case Err(e) => PlainOutcome(p, Err(e))
    case Ok(w) =>
      var p' := if w.wrote then p.(views := p.views + [w.m]) else p;
      PlainOutcome(p', Ok(WriteResponse(Revision(p'), w.out)))
  }

  predicate PlainCompare(m: View, c: Compare) {
    if c.target == TValue then
      var actual := if c.key in m then m[c.key].value else [];
      Decide(Lt(actual, c.value), actual == c.value, c.result)
    else
      var actual :=
        if c.key !in m then 0
        else match c.target
          case TCreate => m[c.key].createRevision
          case TMod => m[c.key].modRevision
          case TLease => m[c.key].lease
          case _ => m[c.key].version;
      Decide(actual < Expected(c), actual == Expected(c), c.result)
  }

  function PlainTxn(p: Keyspace, compare: seq<Compare>, success: seq<Op>, failure: seq<Op>): PlainOutcome {
    var succeeded := forall i | 0 <= i < |compare| :: PlainCompare(Current(p), compare[i]);
    var out := PlainWrites(p, if succeeded then success else failure);
    match out.result
    case Err(_) => out
    case Ok(r) =>
      out.(result := Ok(TxnResponse(succeeded, Revision(out.plain), if r.WriteResponse? then r.responses else [])))
  }

  function PlainSeed(p: Keyspace, revision: int): PlainOutcome {
    var p' := if revision > Revision(p) then p.(views := p.views + seq(revision - Revision(p), _ => Current(p))) else p;
    PlainOutcome(p', Ok(RevisionResponse(Revision(p'))))
  }

  /** Compaction hides revisions; it changes no view. */
  function PlainCompact(p: Keyspace, target: int): PlainOutcome {
    if target > Revision(p) then PlainOutcome(p, Err(FutureRevision))
    else if target <= p.compact then PlainOutcome(p, Err(Compacted))
    else PlainOutcome(p.(compact := target), Ok(CompactResponse(Revision(p), target)))
  }

  function PlainGrant(p: Keyspace, id: int, ttl: int, expiry: int, index: nat): PlainOutcome {
    var id' := if id != 0 then id else if index != 0 then index else |p.leases| + 1;
    PlainOutcome(p.(leases := p.leases[id' := Grant(ttl, expiry)]), Ok(GrantResponse(id', ttl, Revision(p))))
  }

  /** Revoking removes exactly the live keys that carry the lease, in one revision if there are any. */
  function PlainRevoke(p: Keyspace, id: int): PlainOutcome {
    if id !in p.leases then PlainOutcome(p, Err(LeaseNotFound))
    else
      var m := Current(p);
      var m' := map k | k in m && m[k].lease != id :: m[k];
      var p1 := p.(leases := p.leases - {id});
      var p' := if m' != m then p1.(views := p1.views + [m']) else p1;
      PlainOutcome(p', Ok(RevokeResponse(Revision(p'), id)))
  }

  function PlainKeepAlive(p: Keyspace, id: int, expiry: int): PlainOutcome {
    if id !in p.leases then PlainOutcome(p, Err(LeaseNotFound))
    else
      PlainOutcome(p.(leases := p.leases[id := p.leases[id].(expiry := expiry)]),
                   Ok(KeepAliveResponse(id, p.leases[id].ttl, Revision(p))))
  }

  function PlainApply(p: Keyspace, cmd: Command, index: nat): PlainOutcome {
    match cmd
    case Put(op) => PlainWrites(p, [op])
    case DeleteRange(op) => PlainWrites(p, [op])
    case Txn(compare, success, failure) => PlainTxn(p, compare, success, failure)
    case Compact(target) => PlainCompact(p, target)
    case LeaseGrant(id, ttl, expiry) => PlainGrant(p, id, ttl, expiry, index)
    case LeaseRevoke(id) => PlainRevoke(p, id)
    case LeaseKeepAlive(id, expiry) => PlainKeepAlive(p, id, expiry)
    case Seed(revision) => PlainSeed(p, revision)
    case Noop => PlainOutcome(p, Ok(RevisionResponse(Revision(p))))
    case Unknown => PlainOutcome(p, Err(UnknownOperation))
  }
}
