/** The scheduler on the stored pods: one pass over a pod, and the conditional write that binds it. */
module SchedulerObject {
  import opened Wrappers
  import opened Scheduler
  import opened SchedulerRuns

  /** A node's score for a pod, from the stored pods. */
  ghost function Standing(pods: seq<Pod>, pod: Pod, preferred: Node -> real, node: Node): real {
    Score(node, UsedOn(pods, node.name), Requests(pod), preferred(node))
  }

  ghost predicate NoneBetter(number: Numbers, nodes: seq<Node>, pods: seq<Pod>, pod: Pod, preferred: Node -> real,
      best: Node) {
    forall other | other in nodes && ChosenFor(number, pods, pod, other) ::
      Standing(pods, pod, preferred, other) <= Standing(pods, pod, preferred, best)
  }

  /** What the search has behind it is as it was; where it meets the pod, the write is one update. */
  lemma LookBack(pods: seq<Pod>, uid: nat, nodeName: string, n: nat)
    requires 0 < n <= |pods|
    ensures var pod := pods[n - 1];
            SchedulerRuns.BindPod(pods[..n], uid, nodeName) + pods[n..]
            == if pod.uid == uid
               then pods[n - 1 := if pod.nodeName == "" then pod.(nodeName := nodeName) else pod]
               else SchedulerRuns.BindPod(pods[..n - 1], uid, nodeName) + pods[n - 1..]
  {
    assert pods[..n][..n - 1] == pods[..n - 1] && [pods[n - 1]] + pods[n..] == pods[n - 1..];
  }

  lemma BindNone(uid: nat, nodeName: string)
    ensures SchedulerRuns.BindPod([], uid, nodeName) == []
  {
  }

  lemma OnlyOne(pods: seq<Pod>, i: nat)
    requires Distinct(pods) && i < |pods|
    ensures forall j | 0 <= j < |pods| && j != i :: pods[j].uid != pods[i].uid
  {
    forall j | 0 <= j < |pods| && j != i ensures pods[j].uid != pods[i].uid {
      assert Differ(pods, if j < i then j else i, if j < i then i else j);
    }
  }

  class PodStore {
    var pods: seq<Pod>

    constructor ()
      ensures pods == []
    {
      pods := [];
    }

    /** Assigns the node if the pod is stored and has none yet; says whether it did. */
    method BindPod(uid: nat, nodeName: string) returns (bound: bool)
      requires nodeName != "" && Distinct(pods)
      modifies this
      ensures pods == SchedulerRuns.BindPod(old(pods), uid, nodeName)
      ensures bound <==> exists i :: 0 <= i < |old(pods)| && old(pods)[i].uid == uid && old(pods)[i].nodeName == ""
    {
      hide SchedulerRuns.BindPod, Distinct;
      var n := |pods|;
      assert pods[..n] + pods[n..] == pods && pods[..n] == pods;
      while n > 0
        invariant n <= |pods| && pods == old(pods)
        invariant forall j | n <= j < |pods| :: pods[j].uid != uid
        invariant SchedulerRuns.BindPod(pods, uid, nodeName)
                  == SchedulerRuns.BindPod(pods[..n], uid, nodeName) + pods[n..]
      {
        LookBack(pods, uid, nodeName, n);
        var pod := pods[n - 1];
        if pod.uid == uid {
          OnlyOne(pods, n - 1);
          bound := pod.nodeName == "";
          if bound { pods := pods[n - 1 := pod.(nodeName := nodeName)]; }
          return;
        }
        n := n - 1;
      }
      BindNone(uid, nodeName);
      assert pods[..0] == [] && pods[0..] == pods;
      bound := false;
    }

    /** Reads usage, filters and picks: one of the nodes that can take the pod, none of which scores higher. */
    method Choose(number: Numbers, nodes: seq<Node>, pod: Pod, preferred: Node -> real,
        before: (string, string) -> bool)
      returns (best: Option<Node>)
      requires NodesOk(nodes) && pod.nodeName == "" && pod.phase != Succeeded && pod.phase != Failed
      requires NameOrder(before)
      ensures best == None ==> forall node | node in nodes :: !ChosenFor(number, pods, pod, node)
      ensures best.Some? ==> best.value in nodes && ChosenFor(number, pods, pod, best.value)
                             && NoneBetter(number, nodes, pods, pod, preferred, best.value)
    {
      hide NameOrder, Score, Suits, Fits, UsedOn, Requests;
      var usage := UsageByNode(pods);
      var feasible := Feasible(number, pod, nodes, usage);
      forall node | node in nodes ensures node in feasible <==> ChosenFor(number, pods, pod, node) {
        assert node.name != "";
      }
      if feasible == [] { return None; }
      var requests := PodRequests(pod);
      var picked := PickBest(feasible,
          (node: Node) => Score(node, Get(usage, node.name), requests, preferred(node)), before);
      assert picked in nodes && picked.name != "";
      forall other | other in nodes && ChosenFor(number, pods, pod, other)
        ensures Standing(pods, pod, preferred, other) <= Standing(pods, pod, preferred, picked) {
        assert other in feasible && other.name != "";
      }
      best := Some(picked);
    }

    /** One pass over a stored pod: it gets a node exactly if some node could take it, and then the one chosen. */
    method SchedulePod(number: Numbers, nodes: seq<Node>, pod: Pod, preferred: Node -> real,
        before: (string, string) -> bool)
      returns (placed: Option<Node>)
      requires pod in pods && Distinct(pods) && NodesOk(nodes)
      requires NameOrder(before)
      modifies this
      ensures placed == None ==> pods == old(pods) && forall node :: !MayChoose(number, nodes, old(pods), pod.uid, node)
      ensures placed.Some? ==>
                && MayChoose(number, nodes, old(pods), pod.uid, placed.value)
                && NoneBetter(number, nodes, old(pods), pod, preferred, placed.value)
                && pods == SchedulerRuns.BindPod(old(pods), pod.uid, placed.value.name)
    {
      forall node
        ensures MayChoose(number, nodes, pods, pod.uid, node) <==> node in nodes && ChosenFor(number, pods, pod, node)
      {
        ChoiceIs(number, nodes, pods, pod, node);
      }
      if pod.nodeName != "" || pod.phase == Succeeded || pod.phase == Failed { return None; }
      placed := Choose(number, nodes, pod, preferred, before);
      if placed.Some? {
        assert placed.value.name != "";
        var bound := BindPod(pod.uid, placed.value.name);
      }
    }
  }

  lemma ChoiceIs(number: Numbers, nodes: seq<Node>, pods: seq<Pod>, pod: Pod, node: Node)
    requires pod in pods && Distinct(pods)
    ensures MayChoose(number, nodes, pods, pod.uid, node) <==> node in nodes && ChosenFor(number, pods, pod, node)
  {
    var i :| 0 <= i < |pods| && pods[i] == pod;
    forall j | 0 <= j < |pods| && pods[j].uid == pod.uid ensures pods[j] == pod {
      assert Differ(pods, i, j) && Differ(pods, j, i);
    }
  }
}
