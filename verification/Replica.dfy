/** The store a node should have: its applied entries, folded. */
module Replica {
  import opened RaftNode
  import Mvcc

  /** The store after the applied entries, each at its own index. */
  function StoreOf(app: seq<Entry>): Mvcc.Store
    decreases |app|, 1
  {
    if app == [] then Mvcc.Empty else WithLast(app)
  }

  function WithLast(app: seq<Entry>): Mvcc.Store
    requires app != []
    decreases |app|, 0
  {
    var e := app[|app| - 1];
    Mvcc.Apply(StoreOf(app[..|app| - 1]), e.cmd, e.index).store
  }

  lemma NothingApplied()
    ensures StoreOf([]) == Mvcc.Empty
  {
  }

  lemma StoreOfPush(app: seq<Entry>, e: Entry)
    ensures StoreOf(app + [e]) == Mvcc.Apply(StoreOf(app), e.cmd, e.index).store
  {
    assert (app + [e])[..|app|] == app;
  }
}
