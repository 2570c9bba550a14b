/**
 The commands that travel through the Raft log to the store, in decoded form.
 Keys are text: sequences of 16-bit code units, compared code unit by code unit.
 Values are bytes.
 */
module Commands {
  import opened Wrappers

  type CodeUnit = x: int | 0 <= x < 0x1_0000
  type Byte = x: int | 0 <= x < 0x100
  type Key = seq<CodeUnit>
  type Value = seq<Byte>

  /** Order of a range's answer: by key, or by the target upwards or downwards. */
  datatype SortOrder = Unsorted | Ascending | Descending

  datatype SortTarget = ByKey | ByVersion | ByCreate | ByMod | ByValue

  datatype Query = Query(
    key: Key, rangeEnd: Key, revision: int, limit: int, countOnly: bool, keysOnly: bool,
    order: SortOrder, target: SortTarget)

  /** A single operation inside a batch or a transaction branch. */
  datatype Op =
    | OpPut(key: Key, value: Value, lease: int, prevKv: bool, ignoreValue: bool, ignoreLease: bool)
    | OpDelete(key: Key, rangeEnd: Key, prevKv: bool)
    | OpRange(query: Query)
    | OpUnknown

  datatype Target = TValue | TCreate | TMod | TLease | TVersion

  datatype Relation = Equal | NotEqual | Greater | Less

  /** A transaction guard. The four numeric operands are all optional, as they are in the command's JSON. */
  datatype Compare = Compare(
    key: Key, target: Target, result: Relation, value: Value,
    version: Option<int>, createRevision: Option<int>, modRevision: Option<int>, lease: Option<int>)

  datatype Command =
    | Put(op: Op)
    | DeleteRange(op: Op)
    | Txn(compare: seq<Compare>, success: seq<Op>, failure: seq<Op>)
    | Compact(target: int)
    | LeaseGrant(id: int, ttl: int, expiry: int)
    | LeaseRevoke(id: int)
    | LeaseKeepAlive(id: int, expiry: int)
    | Seed(revision: int)
    | Noop
    | Unknown
}
