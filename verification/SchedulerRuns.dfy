/**
 Whole runs of the scheduler: capacity when reading and binding are one step, and what still holds when they
 are not.
 */
module SchedulerRuns {
  import opened Scheduler

  /** The stored pods, and the bindings that were decided but not yet written. */
  datatype World = World(pods: seq<Pod>, decided: seq<(nat, string)>)

  /**
   Schedule reads and binds in one step; Decide only reads, and Bind writes a decision some time
   later. A binding may name any pod and any node, as one posted by another scheduler does.
   */
  datatype Step =
    | Create(pod: Pod)
    | Finish(uid: nat, phase: Phase)
    | Delete(uid: nat)
    | Schedule(uid: nat, node: Node)
    | Decide(uid: nat, node: Node)
    | Bind(uid: nat, nodeName: string)

  ghost predicate Differ(pods: seq<Pod>, i: nat, j: nat) {
    i < j < |pods| ==> pods[i].uid != pods[j].uid
  }

  ghost predicate Distinct(pods: seq<Pod>) {
    forall i: nat, j: nat :: Differ(pods, i, j)
  }

  ghost predicate NamesDiffer(nodes: seq<Node>, i: nat, j: nat) {
    i < j < |nodes| ==> nodes[i].name != nodes[j].name
  }

  /** Nodes have names, each its own, and can allocate no less than nothing. */
  ghost predicate NodesOk(nodes: seq<Node>) {
    && (forall i | 0 <= i < |nodes| :: nodes[i].name != "" && Fits(nodes[i], Unused))
    && (forall i: nat, j: nat :: NamesDiffer(nodes, i, j))
  }

  predicate Known(pods: seq<Pod>, uid: nat) {
    exists i :: 0 <= i < |pods| && pods[i].uid == uid
  }

  /** The conditional write behind a binding: only a pod with no node yet is changed. */
  function BindPod(pods: seq<Pod>, uid: nat, nodeName: string): seq<Pod> {
    if pods == [] then []
    else
      var n := |pods| - 1;
      if pods[n].uid == uid
      then pods[..n] + [if pods[n].nodeName == "" then pods[n].(nodeName := nodeName) else pods[n]]
      else BindPod(pods[..n], uid, nodeName) + [pods[n]]
  }

  function FinishPod(pods: seq<Pod>, uid: nat, phase: Phase): seq<Pod> {
    if pods == [] then []
    else
      var n := |pods| - 1;
      FinishPod(pods[..n], uid, phase) + [if pods[n].uid == uid then pods[n].(phase := phase) else pods[n]]
  }

  function DeletePod(pods: seq<Pod>, uid: nat): seq<Pod> {
    if pods == [] then []
    else
      var n := |pods| - 1;
      DeletePod(pods[..n], uid) + if pods[n].uid == uid then [] else [pods[n]]
  }

  /** What the scheduler may decide for a pod after reading nodes and pods: one of the feasible nodes. */
  ghost predicate MayChoose(number: Numbers, nodes: seq<Node>, pods: seq<Pod>, uid: nat, node: Node) {
    node in nodes && exists i :: 0 <= i < |pods| && pods[i].uid == uid && ChosenFor(number, pods, pods[i], node)
  }

  ghost predicate ChosenFor(number: Numbers, pods: seq<Pod>, pod: Pod, node: Node) {
    && pod.nodeName == "" && pod.phase != Succeeded && pod.phase != Failed
    && Suits(number, pod, node) && Fits(node, Plus(UsedOn(pods, node.name), Requests(pod)))
  }

  ghost predicate Enabled(number: Numbers, nodes: seq<Node>, w: World, step: Step) {
    match step
    case Create(pod) => pod.nodeName == "" && !Known(w.pods, pod.uid)
    case Finish(_, phase) => phase == Succeeded || phase == Failed
    case Delete(_) => true
    case Schedule(uid, node) => MayChoose(number, nodes, w.pods, uid, node)
    case Decide(uid, node) => MayChoose(number, nodes, w.pods, uid, node)
    case Bind(_, nodeName) => nodeName != ""
  }

  function Do(w: World, step: Step): World {
    match step
    case Create(pod) => w.(pods := w.pods + [pod])
    case Finish(uid, phase) => w.(pods := FinishPod(w.pods, uid, phase))
    case Delete(uid) => w.(pods := DeletePod(w.pods, uid))
    case Schedule(uid, node) => w.(pods := BindPod(w.pods, uid, node.name))
    case Decide(uid, node) => w.(decided := w.decided + [(uid, node.name)])
    case Bind(uid, nodeName) => w.(pods := BindPod(w.pods, uid, nodeName))
  }

  ghost predicate StepAt(number: Numbers, nodes: seq<Node>, run: seq<World>, steps: seq<Step>, k: nat) {
    k < |steps| && k + 1 < |run| ==> Enabled(number, nodes, run[k], steps[k]) && run[k + 1] == Do(run[k], steps[k])
  }

  /** A run from no pods at all. */
  ghost predicate Run(number: Numbers, nodes: seq<Node>, run: seq<World>, steps: seq<Step>) {
    && |run| == |steps| + 1 && run[0] == World([], [])
    && forall k: nat :: StepAt(number, nodes, run, steps, k)
  }

  // ---- usage under each write ----------------------------------------------

  predicate AtMost(a: Usage, b: Usage) {
    a.cpu <= b.cpu && a.memory <= b.memory && a.pods <= b.pods
  }

  lemma FitsLess(node: Node, a: Usage, b: Usage)
    requires Fits(node, b) && AtMost(a, b)
    ensures Fits(node, a)
  {
  }

  lemma PlusGrows(pod: Pod, u: Usage)
    ensures AtMost(u, Plus(u, Requests(pod)))
  {
    RequestsBounds(pod, 0);
  }

  lemma {:induction false} FinishFrees(pods: seq<Pod>, uid: nat, phase: Phase, name: string)
    requires phase == Succeeded || phase == Failed
    ensures AtMost(UsedOn(FinishPod(pods, uid, phase), name), UsedOn(pods, name))
  {
    if pods != [] {
      var n := |pods| - 1;
      FinishFrees(pods[..n], uid, phase, name);
      PlusGrows(pods[n], UsedOn(pods[..n], name));
      var last := if pods[n].uid == uid then pods[n].(phase := phase) else pods[n];
      assert (FinishPod(pods[..n], uid, phase) + [last])[..|FinishPod(pods, uid, phase)| - 1]
          == FinishPod(pods[..n], uid, phase);
    }
  }

  lemma {:induction false} DeleteFrees(pods: seq<Pod>, uid: nat, name: string)
    ensures AtMost(UsedOn(DeletePod(pods, uid), name), UsedOn(pods, name))
  {
    if pods != [] {
      var n := |pods| - 1;
      DeleteFrees(pods[..n], uid, name);
      PlusGrows(pods[n], UsedOn(pods[..n], name));
      var kept := DeletePod(pods[..n], uid);
      if pods[n].uid == uid {
        assert kept + [] == kept;
      } else {
        assert (kept + [pods[n]])[..|kept + [pods[n]]| - 1] == kept;
      }
    }
  }

  /** A binding adds the pod's requests to its node, and to no other. */
  lemma {:induction false} BindAdds(pods: seq<Pod>, i: nat, nodeName: string, name: string)
    requires Distinct(pods) && i < |pods| && pods[i].nodeName == "" && nodeName != "" && name != ""
    requires pods[i].phase != Succeeded && pods[i].phase != Failed
    ensures UsedOn(BindPod(pods, pods[i].uid, nodeName), name)
            == if name == nodeName then Plus(UsedOn(pods, name), Requests(pods[i])) else UsedOn(pods, name)
  {
    var n := |pods| - 1;
    var uid := pods[i].uid;
    if i == n {
      var last := pods[n].(nodeName := nodeName);
      assert (pods[..n] + [last])[..n] == pods[..n];
      assert Requests(last) == Requests(pods[n]);
    } else {
      assert pods[..n][i] == pods[i] && Differ(pods, i, n);
      forall a: nat, b: nat ensures Differ(pods[..n], a, b) { assert Differ(pods, a, b); }
      BindAdds(pods[..n], i, nodeName, name);
      var rest := BindPod(pods[..n], uid, nodeName);
      assert (rest + [pods[n]])[..|rest + [pods[n]]| - 1] == rest;
      PlusSwap(UsedOn(pods[..n], name), Requests(pods[i]), Requests(pods[n]));
    }
  }

  lemma PlusSwap(u: Usage, a: Amount, b: Amount)
    ensures Plus(Plus(u, a), b) == Plus(Plus(u, b), a)
  {
  }

  // ---- identity ------------------------------------------------------------

  lemma {:induction false} BindKeeps(pods: seq<Pod>, uid: nat, nodeName: string)
    ensures var pods' := BindPod(pods, uid, nodeName);
            |pods'| == |pods| && forall i | 0 <= i < |pods| ::
              pods'[i].uid == pods[i].uid && pods'[i] == pods[i].(nodeName := pods'[i].nodeName)
              && (pods[i].nodeName != "" ==> pods'[i] == pods[i])
              && (pods[i].uid != uid ==> pods'[i] == pods[i])
              && (pods'[i] != pods[i] ==> pods'[i].nodeName == nodeName)
  {
    if pods != [] { BindKeeps(pods[..|pods| - 1], uid, nodeName); }
  }

  lemma {:induction false} FinishKeeps(pods: seq<Pod>, uid: nat, phase: Phase)
    ensures var pods' := FinishPod(pods, uid, phase);
            |pods'| == |pods| && forall i | 0 <= i < |pods| ::
              pods'[i].uid == pods[i].uid && pods'[i].nodeName == pods[i].nodeName
  {
    if pods != [] { FinishKeeps(pods[..|pods| - 1], uid, phase); }
  }

  /** The remaining pods are pods that were there, in the same order. */
  lemma {:induction false} DeleteKeeps(pods: seq<Pod>, uid: nat)
    requires Distinct(pods)
    ensures Distinct(DeletePod(pods, uid))
    ensures forall p :: p in DeletePod(pods, uid) <==> p in pods && p.uid != uid
  {
    if pods != [] {
      var n := |pods| - 1;
      forall i: nat, j: nat ensures Differ(pods[..n], i, j) { assert Differ(pods, i, j); }
      DeleteKeeps(pods[..n], uid);
      var kept := DeletePod(pods[..n], uid);
      assert forall p :: p in pods <==> p in pods[..n] || p == pods[n];
      forall i | 0 <= i < |kept| ensures kept[i].uid != pods[n].uid {
        assert kept[i] in pods[..n];
        var j :| 0 <= j < n && pods[j] == kept[i];
        assert Differ(pods, j, n);
      }
      forall i: nat, j: nat ensures Differ(DeletePod(pods, uid), i, j) { assert Differ(kept, i, j); }
    }
  }

  lemma StepKeepsDistinct(number: Numbers, nodes: seq<Node>, w: World, step: Step)
    requires Distinct(w.pods) && Enabled(number, nodes, w, step)
    ensures Distinct(Do(w, step).pods)
  {
    match step {
      case Create(pod) =>
      case Finish(uid, phase) => FinishKeeps(w.pods, uid, phase);
      case Delete(uid) => DeleteKeeps(w.pods, uid);
      case Schedule(uid, node) => BindKeeps(w.pods, uid, node.name);
      case Decide(_, _) =>
      case Bind(uid, nodeName) => BindKeeps(w.pods, uid, nodeName);
    }
    var pods' := Do(w, step).pods;
    forall i: nat, j: nat ensures Differ(pods', i, j) {
      if !step.Delete? {
        assert Differ(w.pods, i, j);
      }
    }
  }

  // ---- capacity ------------------------------------------------------------

  ghost predicate Within(nodes: seq<Node>, pods: seq<Pod>) {
    forall i | 0 <= i < |nodes| :: Fits(nodes[i], UsedOn(pods, nodes[i].name))
  }

  lemma SameNode(nodes: seq<Node>, i: nat, node: Node)
    requires NodesOk(nodes) && i < |nodes| && node in nodes && nodes[i].name == node.name
    ensures nodes[i] == node
  {
    var j :| 0 <= j < |nodes| && nodes[j] == node;
    assert NamesDiffer(nodes, i, j) && NamesDiffer(nodes, j, i);
  }

  lemma CreateUses(pods: seq<Pod>, pod: Pod, name: string)
    requires pod.nodeName == "" && name != ""
    ensures UsedOn(pods + [pod], name) == UsedOn(pods, name)
  {
    assert (pods + [pod])[..|pods|] == pods;
  }

  lemma StepWithin(number: Numbers, nodes: seq<Node>, w: World, step: Step)
    requires NodesOk(nodes) && Distinct(w.pods) && Within(nodes, w.pods) && Enabled(number, nodes, w, step)
             && !step.Bind?
    ensures Within(nodes, Do(w, step).pods)
  {
    forall i | 0 <= i < |nodes| ensures Fits(nodes[i], UsedOn(Do(w, step).pods, nodes[i].name)) {
      var name := nodes[i].name;
      match step {
        case Create(pod) => CreateUses(w.pods, pod, name);
        case Finish(uid, phase) =>
          FinishFrees(w.pods, uid, phase, name);
          FitsLess(nodes[i], UsedOn(Do(w, step).pods, name), UsedOn(w.pods, name));
        case Delete(uid) =>
          DeleteFrees(w.pods, uid, name);
          FitsLess(nodes[i], UsedOn(Do(w, step).pods, name), UsedOn(w.pods, name));
        case Schedule(uid, node) =>
          var j :| 0 <= j < |w.pods| && w.pods[j].uid == uid && ChosenFor(number, w.pods, w.pods[j], node);
          assert node.name != "";
          BindAdds(w.pods, j, node.name, name);
          if name == node.name { SameNode(nodes, i, node); }
        case Decide(_, _) =>
      }
    }
  }

  lemma {:induction false} RunDistinct(number: Numbers, nodes: seq<Node>, run: seq<World>, steps: seq<Step>, k: nat)
    requires Run(number, nodes, run, steps) && k <= |steps|
    ensures Distinct(run[k].pods)
  {
    if k > 0 {
      RunDistinct(number, nodes, run, steps, k - 1);
      assert StepAt(number, nodes, run, steps, k - 1);
      StepKeepsDistinct(number, nodes, run[k - 1], steps[k - 1]);
    }
  }

  /** As long as every scheduling step reads and binds at once, no node is ever given more than it can allocate. */
  lemma {:induction false} CapacityKept(number: Numbers, nodes: seq<Node>, run: seq<World>, steps: seq<Step>, k: nat)
    requires NodesOk(nodes) && Run(number, nodes, run, steps) && k <= |steps|
    requires forall i | 0 <= i < |steps| :: !steps[i].Bind?
    ensures Within(nodes, run[k].pods)
  {
    if k > 0 {
      CapacityKept(number, nodes, run, steps, k - 1);
      RunDistinct(number, nodes, run, steps, k - 1);
      assert StepAt(number, nodes, run, steps, k - 1);
      StepWithin(number, nodes, run[k - 1], steps[k - 1]);
    }
  }

  /** A binding written later keeps a node within its capacity exactly if it still has room for the pod then. */
  lemma {:induction false} LateBinding(nodes: seq<Node>, pods: seq<Pod>, i: nat, node: Node)
    requires NodesOk(nodes) && Distinct(pods) && Within(nodes, pods) && node in nodes && i < |pods|
    requires pods[i].nodeName == "" && pods[i].phase != Succeeded && pods[i].phase != Failed
    ensures Within(nodes, BindPod(pods, pods[i].uid, node.name))
            <==> Fits(node, Plus(UsedOn(pods, node.name), Requests(pods[i])))
  {
    var pods' := BindPod(pods, pods[i].uid, node.name);
    forall j | 0 <= j < |nodes|
      ensures UsedOn(pods', nodes[j].name)
              == if nodes[j] == node then Plus(UsedOn(pods, node.name), Requests(pods[i]))
                  else UsedOn(pods, nodes[j].name) {
      BindAdds(pods, i, node.name, nodes[j].name);
      if nodes[j].name == node.name { SameNode(nodes, j, node); }
    }
    var room := Fits(node, Plus(UsedOn(pods, node.name), Requests(pods[i])));
    var k :| 0 <= k < |nodes| && nodes[k] == node;
    assert Fits(nodes[k], UsedOn(pods', nodes[k].name)) == room;
    if room {
      forall j | 0 <= j < |nodes| ensures Fits(nodes[j], UsedOn(pods', nodes[j].name)) {}
    }
  }

  // ---- at most one binding -------------------------------------------------

  ghost predicate AssignedTo(pods: seq<Pod>, uid: nat, nodeName: string) {
    exists i :: 0 <= i < |pods| && pods[i].uid == uid && pods[i].nodeName == nodeName
  }

  lemma {:induction false} StepKeepsNode(number: Numbers, nodes: seq<Node>, w: World, step: Step, uid: nat,
      nodeName: string)
    requires Distinct(w.pods) && Enabled(number, nodes, w, step) && nodeName != "" && AssignedTo(w.pods, uid, nodeName)
    requires step != Delete(uid)
    ensures AssignedTo(Do(w, step).pods, uid, nodeName)
  {
    var i :| 0 <= i < |w.pods| && w.pods[i].uid == uid && w.pods[i].nodeName == nodeName;
    var pods' := Do(w, step).pods;
    match step {
      case Create(pod) => assert pods'[i] == w.pods[i];
      case Finish(u, phase) =>
        FinishKeeps(w.pods, u, phase);
        assert pods'[i].uid == uid;
      case Delete(u) =>
        DeleteKeeps(w.pods, u);
        assert w.pods[i] in pods';
      case Schedule(u, node) =>
        BindKeeps(w.pods, u, node.name);
        assert pods'[i].uid == uid;
      case Decide(_, _) =>
      case Bind(u, name) =>
        BindKeeps(w.pods, u, name);
        assert pods'[i].uid == uid;
    }
  }

  /**
   However reads, decisions and bindings interleave, and whoever posts them: once a pod has a node it
   keeps that node until it is deleted.
   */
  lemma {:induction false} AssignedOnce(number: Numbers, nodes: seq<Node>, run: seq<World>, steps: seq<Step>,
      j: nat, k: nat, uid: nat, nodeName: string)
    requires Run(number, nodes, run, steps) && j <= k <= |steps| && nodeName != ""
    requires AssignedTo(run[j].pods, uid, nodeName) && forall i | j <= i < k :: steps[i] != Delete(uid)
    ensures AssignedTo(run[k].pods, uid, nodeName)
    ensures forall other :: AssignedTo(run[k].pods, uid, other) ==> other == nodeName
    decreases k - j
  {
    RunDistinct(number, nodes, run, steps, k);
    if j < k {
      AssignedOnce(number, nodes, run, steps, j, k - 1, uid, nodeName);
      RunDistinct(number, nodes, run, steps, k - 1);
      assert StepAt(number, nodes, run, steps, k - 1);
      StepKeepsNode(number, nodes, run[k - 1], steps[k - 1], uid, nodeName);
    }
    forall other | AssignedTo(run[k].pods, uid, other) ensures other == nodeName {
      OneNode(run[k].pods, uid, nodeName, other);
    }
  }

  lemma OneNode(pods: seq<Pod>, uid: nat, a: string, b: string)
    requires Distinct(pods) && AssignedTo(pods, uid, a) && AssignedTo(pods, uid, b)
    ensures a == b
  {
    var i :| 0 <= i < |pods| && pods[i].uid == uid && pods[i].nodeName == a;
    var j :| 0 <= j < |pods| && pods[j].uid == uid && pods[j].nodeName == b;
    assert Differ(pods, i, j) && Differ(pods, j, i);
  }

  // ---- what interleaving breaks --------------------------------------------

  function SmallPod(uid: nat): Pod {
    Pod(uid, "", Pending, [Amount(1.0, 0.0)], [], map[], [], [])
  }

  const SmallNode: Node := Node("n", true, false, map[], [], Limit(1.0), NoLimit, NoLimit)

  /** Two decisions may both be read before either is written... */
  lemma TwoReads(number: Numbers, pods: seq<Pod>)
    requires pods == [SmallPod(0), SmallPod(1)]
    ensures Enabled(number, [SmallNode], World(pods, []), Decide(0, SmallNode))
    ensures Enabled(number, [SmallNode], Do(World(pods, []), Decide(0, SmallNode)), Decide(1, SmallNode))
  {
    NothingUsed(pods);
    MayDecide(number, pods, 0);
    MayDecide(number, pods, 1);
  }

  lemma MayDecide(number: Numbers, pods: seq<Pod>, i: nat)
    requires i < |pods| && pods[i] == SmallPod(i) && UsedOn(pods, "n") == Unused
    ensures MayChoose(number, [SmallNode], pods, i, SmallNode)
  {
    SmallRequests(i);
    assert Suits(number, pods[i], SmallNode);
    assert ChosenFor(number, pods, pods[i], SmallNode);
  }

  lemma NothingUsed(pods: seq<Pod>)
    requires |pods| == 2 && pods[0].nodeName == "" && pods[1].nodeName == ""
    ensures UsedOn(pods, "n") == Unused
  {
    var first := pods[..1];
    assert UsedOn(first[..0], "n") == Unused;
    assert UsedOn(first, "n") == Unused;
  }

  /** ...and then both are bound, and the node has given out twice its cpu. */
  lemma OverCommitted(pods: seq<Pod>)
    requires pods == [SmallPod(0), SmallPod(1)]
    ensures var both := BindPod(BindPod(pods, 0, "n"), 1, "n");
            UsedOn(both, "n") == Usage(2.0, 0.0, 2) && !Within([SmallNode], both)
  {
    NothingUsed(pods);
    forall i: nat, j: nat ensures Differ(pods, i, j) {}
    SmallRequests(0);
    SmallRequests(1);
    BindAdds(pods, 0, "n", "n");
    BindKeeps(pods, 0, "n");
    var bound := BindPod(pods, 0, "n");
    forall i: nat, j: nat ensures Differ(bound, i, j) { assert Differ(pods, i, j); }
    assert bound[1] == pods[1];
    BindAdds(bound, 1, "n", "n");
    var nodes := [SmallNode];
    assert !Fits(nodes[0], UsedOn(BindPod(bound, 1, "n"), nodes[0].name));
  }

  lemma SmallRequests(uid: nat)
    ensures Requests(SmallPod(uid)) == Amount(1.0, 0.0)
  {
    var cs := SmallPod(uid).containers;
    assert cs[..0] == [];
  }
}
