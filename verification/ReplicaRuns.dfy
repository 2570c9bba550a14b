/** Every replica of a cluster holds the store that the committed commands make, as far as it has applied them. */
module ReplicaRuns {
  import opened Commands
  import opened RaftNode
  import opened RaftCluster
  import opened RaftSafety
  import opened Replica
  import opened MvccRuns
  import opened Recovery

  function CommandsOf(app: seq<Entry>): (cmds: seq<Command>)
    ensures |cmds| == |app|
  {
    if app == [] then [] else CommandsOf(app[..|app| - 1]) + [app[|app| - 1].cmd]
  }

  lemma {:induction false} CommandsPrefix(app: seq<Entry>, n: nat)
    requires n <= |app|
    ensures CommandsOf(app)[..n] == CommandsOf(app[..n])
    decreases |app|
  {
    if n == |app| {
      assert app[..n] == app;
    } else {
      var m := |app| - 1;
      CommandsPrefix(app[..m], n);
      assert app[..m][..n] == app[..n];
    }
  }

  /** Folding numbered entries is running their commands as a log. */
  lemma {:induction false} StoreOfIsRun(app: seq<Entry>)
    requires forall k | 0 <= k < |app| :: app[k].index == k + 1
    ensures StoreOf(app) == RunStore(CommandsOf(app))
    decreases |app|
  {
    if app != [] {
      hide Mvcc.Apply;
      var n := |app| - 1;
      StoreOfIsRun(app[..n]);
      CommandsPrefix(app, n);
      assert CommandsOf(app)[..n] == CommandsOf(app[..n]);
    }
  }

  import Mvcc

  /**
   Two replicas at any two moments of a run: there is one sequence of commands of which each has run
   a prefix, in order and from the empty store, as long as its count of applied entries. So replicas
   that applied equally much are equal, whether they got there live, by restart or from a snapshot,
   and the one that applied more has no lower revision.
   */
  lemma ReplicasAgree(cfg: Config, run: seq<Cluster>, a: nat, i: Id, b: nat, j: Id)
    requires Run(cfg, run) && a < |run| && b < |run| && i < |run[a].nodes| && j < |run[b].nodes|
    requires run[a].nodes[i].lastApplied <= run[b].nodes[j].lastApplied
    ensures var m, n := run[a].nodes[i], run[b].nodes[j];
            var cmds := CommandsOf(n.app);
            && |cmds| == n.lastApplied && StoreOf(n.app) == RunStore(cmds)
            && StoreOf(m.app) == RunStore(cmds[..m.lastApplied])
            && StoreOf(m.app).revision <= StoreOf(n.app).revision
  {
    var m, n := run[a].nodes[i], run[b].nodes[j];
    StateMachineSafety(cfg, run, a, i, b, j);
    AppliedLengths(cfg, run, a, i);
    AppliedLengths(cfg, run, b, j);
    assert m.app == n.app[..m.lastApplied];
    StoreOfIsRun(n.app);
    StoreOfIsRun(m.app);
    CommandsPrefix(n.app, m.lastApplied);
    RevisionGrows(m.app, n.app);
  }

  lemma AppliedLengths(cfg: Config, run: seq<Cluster>, a: nat, i: Id)
    requires Run(cfg, run) && a < |run| && i < |run[a].nodes|
    ensures |run[a].nodes[i].app| == run[a].nodes[i].lastApplied
    ensures forall k | 0 <= k < |run[a].nodes[i].app| :: run[a].nodes[i].app[k].index == k + 1
  {
    AppliedInOrder(cfg, run, a, i, 0);
    forall k: nat | k < |run[a].nodes[i].app| ensures run[a].nodes[i].app[k].index == k + 1 {
      AppliedInOrder(cfg, run, a, i, k);
    }
  }
}
