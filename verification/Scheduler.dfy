/** The scheduler: requests, usage, the filter, the choice and the binding. Quantities are exact. */
module Scheduler {
  import opened Wrappers

  datatype Amount = Amount(cpu: real, memory: real)

  datatype Usage = Usage(cpu: real, memory: real, pods: nat)

  /** An allocatable that is missing or does not parse is no limit. */
  datatype Limit = NoLimit | Limit(most: real)

  datatype Phase = Pending | Running | Succeeded | Failed

  datatype Effect = NoSchedule | NoExecute | PreferNoSchedule

  datatype Taint = Taint(key: string, value: string, effect: Effect)

  /** An empty key tolerates every key under Exists; no effect means any effect. */
  datatype Toleration = Toleration(key: string, exists_: bool, value: string, effect: Option<Effect>)

  datatype Operator = In | NotIn | Exists | DoesNotExist | Gt | Lt | Other

  datatype Expression = Expression(key: string, operator: Operator, values: seq<string>)

  datatype Pod = Pod(
    uid: nat, nodeName: string, phase: Phase, containers: seq<Amount>, initContainers: seq<Amount>,
    selector: map<string, string>, terms: seq<seq<Expression>>, tolerations: seq<Toleration>)

  datatype Node = Node(
    name: string, ready: bool, unschedulable: bool, labels: map<string, string>, taints: seq<Taint>,
    cpu: Limit, memory: Limit, pods: Limit)

  /** How text is read as a number; None stands for not a number. */
  type Numbers = string -> Option<real>

  function MaxReal(a: real, b: real): real {
    if a >= b then a else b
  }

  // ---- requests ------------------------------------------------------------

  function SumOf(containers: seq<Amount>): Amount {
    if containers == [] then Amount(0.0, 0.0)
    else
      var n := |containers| - 1;
      var before := SumOf(containers[..n]);
      Amount(before.cpu + containers[n].cpu, before.memory + containers[n].memory)
  }

  function MaxOf(containers: seq<Amount>): Amount {
    if containers == [] then Amount(0.0, 0.0)
    else
      var n := |containers| - 1;
      var before := MaxOf(containers[..n]);
      Amount(MaxReal(before.cpu, containers[n].cpu), MaxReal(before.memory, containers[n].memory))
  }

  function Requests(pod: Pod): Amount {
    var sum, init := SumOf(pod.containers), MaxOf(pod.initContainers);
    Amount(MaxReal(sum.cpu, init.cpu), MaxReal(sum.memory, init.memory))
  }

  method PodRequests(pod: Pod) returns (r: Amount)
    ensures r == Requests(pod)
  {
    var cpu, memory := 0.0, 0.0;
    var i := 0;
    assert pod.containers[..0] == [];
    while i < |pod.containers|
      invariant i <= |pod.containers| && Amount(cpu, memory) == SumOf(pod.containers[..i])
    {
      assert pod.containers[..i + 1][..i] == pod.containers[..i];
      cpu, memory := cpu + pod.containers[i].cpu, memory + pod.containers[i].memory;
      i := i + 1;
    }
    assert pod.containers[..i] == pod.containers;
    var maxCpu, maxMemory := 0.0, 0.0;
    i := 0;
    assert pod.initContainers[..0] == [];
    while i < |pod.initContainers|
      invariant i <= |pod.initContainers| && Amount(maxCpu, maxMemory) == MaxOf(pod.initContainers[..i])
    {
      assert pod.initContainers[..i + 1][..i] == pod.initContainers[..i];
      maxCpu, maxMemory := MaxReal(maxCpu, pod.initContainers[i].cpu), MaxReal(maxMemory, pod.initContainers[i].memory);
      i := i + 1;
    }
    assert pod.initContainers[..i] == pod.initContainers;
    r := Amount(MaxReal(cpu, maxCpu), MaxReal(memory, maxMemory));
  }

  /**
   A pod never asks for less than nothing, whatever its containers say, and for no less than any single init
   container.
   */
  lemma {:induction false} RequestsBounds(pod: Pod, i: nat)
    ensures Requests(pod).cpu >= 0.0 && Requests(pod).memory >= 0.0
    ensures i < |pod.initContainers| ==>
              pod.initContainers[i].cpu <= Requests(pod).cpu && pod.initContainers[i].memory <= Requests(pod).memory
  {
    MaxBounds(pod.initContainers, i);
  }

  lemma {:induction false} MaxBounds(containers: seq<Amount>, i: nat)
    ensures MaxOf(containers).cpu >= 0.0 && MaxOf(containers).memory >= 0.0
    ensures i < |containers| ==>
              containers[i].cpu <= MaxOf(containers).cpu && containers[i].memory <= MaxOf(containers).memory
  {
    if containers != [] { MaxBounds(containers[..|containers| - 1], i); }
  }

  // ---- usage ---------------------------------------------------------------

  const Unused: Usage := Usage(0.0, 0.0, 0)

  predicate CountsOn(pod: Pod, name: string) {
    pod.nodeName == name && pod.phase != Succeeded && pod.phase != Failed
  }

  function Plus(u: Usage, a: Amount): Usage {
    Usage(u.cpu + a.cpu, u.memory + a.memory, u.pods + 1)
  }

  /** What the pods assigned to a node and not finished ask for, in all. */
  function UsedOn(pods: seq<Pod>, name: string): Usage {
    if pods == [] then Unused
    else
      var n := |pods| - 1;
      var before := UsedOn(pods[..n], name);
      if CountsOn(pods[n], name) then Plus(before, Requests(pods[n])) else before
  }

  function Get(usage: map<string, Usage>, name: string): Usage {
    if name in usage then usage[name] else Unused
  }

  method UsageByNode(pods: seq<Pod>) returns (usage: map<string, Usage>)
    ensures forall name | name != "" :: Get(usage, name) == UsedOn(pods, name)
  {
    usage := map[];
    var i := 0;
    assert pods[..0] == [];
    while i < |pods|
      invariant i <= |pods| && forall name | name != "" :: Get(usage, name) == UsedOn(pods[..i], name)
    {
      assert pods[..i + 1][..i] == pods[..i];
      var pod := pods[i];
      if pod.nodeName != "" && pod.phase != Succeeded && pod.phase != Failed {
        var requests := PodRequests(pod);
        usage := usage[pod.nodeName := Plus(Get(usage, pod.nodeName), requests)];
      }
      i := i + 1;
    }
    assert pods[..i] == pods;
  }

  // ---- the filter ----------------------------------------------------------

  predicate Blocking(taint: Taint) {
    taint.effect != PreferNoSchedule
  }

  predicate Tolerates(t: Toleration, taint: Taint) {
    && (t.effect == None || t.effect == Some(taint.effect))
    && if t.exists_ then t.key == "" || t.key == taint.key else t.key == taint.key && t.value == taint.value
  }

  predicate Tolerated(pod: Pod, taint: Taint) {
    exists i :: 0 <= i < |pod.tolerations| && Tolerates(pod.tolerations[i], taint)
  }

  /** The taint at `i` bars the pod, and none before it does. */
  ghost predicate FirstBar(pod: Pod, taints: seq<Taint>, i: int) {
    && 0 <= i < |taints| && Blocking(taints[i]) && !Tolerated(pod, taints[i])
    && forall j | 0 <= j < i :: Blocking(taints[j]) ==> Tolerated(pod, taints[j])
  }

  /** The first blocking taint no toleration covers. */
  method UntoleratedTaint(node: Node, pod: Pod) returns (found: Option<Taint>)
    ensures found == None
            <==> forall i | 0 <= i < |node.taints| :: Blocking(node.taints[i]) ==> Tolerated(pod, node.taints[i])
    ensures found.Some? ==> exists i :: FirstBar(pod, node.taints, i) && found.value == node.taints[i]
  {
    var i := 0;
    while i < |node.taints|
      invariant i <= |node.taints|
      invariant forall j | 0 <= j < i :: Blocking(node.taints[j]) ==> Tolerated(pod, node.taints[j])
    {
      var taint := node.taints[i];
      if Blocking(taint) && !Tolerated(pod, taint) {
        assert FirstBar(pod, node.taints, i);
        return Some(taint);
      }
      i := i + 1;
    }
    found := None;
  }

  predicate MatchesSelector(labels: map<string, string>, selector: map<string, string>) {
    forall key | key in selector :: (if key in labels then labels[key] else "undefined") == selector[key]
  }

  predicate Compares(number: Numbers, value: Option<string>, values: seq<string>, greater: bool) {
    && value.Some? && values != []
    && var a, b := number(value.value), number(values[0]);
       a.Some? && b.Some? && if greater then a.value > b.value else a.value < b.value
  }

  predicate MatchesExpression(number: Numbers, labels: map<string, string>, e: Expression) {
    var value := if e.key in labels then Some(labels[e.key]) else None;
    var text := if value.Some? then value.value else "undefined";
    match e.operator
    case In => text in e.values
    case NotIn => text !in e.values
    case Exists => value.Some?
    case DoesNotExist => value == None
    case Gt => Compares(number, value, e.values, true)
    case Lt => Compares(number, value, e.values, false)
    case Other => false
  }

  /** Terms are alternatives; the expressions of a term all have to hold. */
  predicate MatchesAffinity(number: Numbers, labels: map<string, string>, terms: seq<seq<Expression>>) {
    terms == [] || exists i :: 0 <= i < |terms| && MatchesTerm(number, labels, terms[i])
  }

  predicate MatchesTerm(number: Numbers, labels: map<string, string>, term: seq<Expression>) {
    forall j | 0 <= j < |term| :: MatchesExpression(number, labels, term[j])
  }

  predicate Over(amount: real, limit: Limit) {
    limit.Limit? && amount > limit.most
  }

  datatype Reason =
    | NotReady
    | Unschedulable
    | Untolerated(taint: Taint)
    | NoMatch
    | TooManyPods
    | InsufficientCpu
    | InsufficientMemory

  /** A reason applies by itself, whatever else is wrong. */
  ghost predicate Applies(number: Numbers, pod: Pod, node: Node, used: Usage, reason: Reason) {
    var after := Plus(used, Requests(pod));
    match reason
    case NotReady => !node.ready
    case Unschedulable => node.unschedulable
    case Untolerated(taint) => exists i :: FirstBar(pod, node.taints, i) && taint == node.taints[i]
    case NoMatch => !MatchesSelector(node.labels, pod.selector) || !MatchesAffinity(number, node.labels, pod.terms)
    case TooManyPods => Over(after.pods as real, node.pods)
    case InsufficientCpu => Over(after.cpu, node.cpu)
    case InsufficientMemory => Over(after.memory, node.memory)
  }

  /** The order in which reasons are looked for. */
  function Rank(reason: Reason): nat {
    match reason
    case NotReady => 0
    case Unschedulable => 1
    case Untolerated(_) => 2
    case NoMatch => 3
    case TooManyPods => 4
    case InsufficientCpu => 5
    case InsufficientMemory => 6
  }

  /** Why a node cannot run a pod: the first reason that applies, and none if and only if it can. */
  method WhyNot(number: Numbers, pod: Pod, node: Node, used: Usage) returns (reason: Option<Reason>)
    ensures reason == None <==> Suits(number, pod, node) && Fits(node, Plus(used, Requests(pod)))
    ensures reason.Some? ==> Applies(number, pod, node, used, reason.value)
    ensures forall r | Applies(number, pod, node, used, r) :: reason.Some? && Rank(reason.value) <= Rank(r)
  {
    if !node.ready { return Some(NotReady); }
    if node.unschedulable { return Some(Unschedulable); }
    var taint := UntoleratedTaint(node, pod);
    if taint.Some? { return Some(Untolerated(taint.value)); }
    if !MatchesSelector(node.labels, pod.selector) { return Some(NoMatch); }
    if !MatchesAffinity(number, node.labels, pod.terms) { return Some(NoMatch); }
    var requests := PodRequests(pod);
    if Over(used.pods as real + 1.0, node.pods) { return Some(TooManyPods); }
    if Over(used.cpu + requests.cpu, node.cpu) { return Some(InsufficientCpu); }
    if Over(used.memory + requests.memory, node.memory) { return Some(InsufficientMemory); }
    reason := None;
  }

  /** Ready, open, every blocking taint tolerated, selector and required affinity met. */
  ghost predicate Suits(number: Numbers, pod: Pod, node: Node) {
    && node.ready && !node.unschedulable
    && (forall i | 0 <= i < |node.taints| :: Blocking(node.taints[i]) ==> Tolerated(pod, node.taints[i]))
    && MatchesSelector(node.labels, pod.selector) && MatchesAffinity(number, node.labels, pod.terms)
  }

  /** A node's usage is within what it can allocate. */
  ghost predicate Fits(node: Node, used: Usage) {
    !Over(used.pods as real, node.pods) && !Over(used.cpu, node.cpu) && !Over(used.memory, node.memory)
  }

  ghost predicate Takes(number: Numbers, pod: Pod, node: Node, usage: map<string, Usage>) {
    Suits(number, pod, node) && Fits(node, Plus(Get(usage, node.name), Requests(pod)))
  }

  /** The nodes that can run the pod, in the order they are listed. */
  ghost function Takers(number: Numbers, pod: Pod, nodes: seq<Node>, usage: map<string, Usage>): seq<Node> {
    if nodes == [] then []
    else
      var n := |nodes| - 1;
      Takers(number, pod, nodes[..n], usage) + if Takes(number, pod, nodes[n], usage) then [nodes[n]] else []
  }

  method Feasible(number: Numbers, pod: Pod, nodes: seq<Node>, usage: map<string, Usage>) returns (feasible: seq<Node>)
    ensures feasible == Takers(number, pod, nodes, usage)
    ensures forall node :: node in feasible <==> node in nodes && Takes(number, pod, node, usage)
  {
    feasible := [];
    var i := 0;
    while i < |nodes|
      invariant i <= |nodes|
      invariant feasible == Takers(number, pod, nodes[..i], usage)
      invariant forall node :: node in feasible <==> node in nodes[..i] && Takes(number, pod, node, usage)
    {
      var reason := WhyNot(number, pod, nodes[i], Get(usage, nodes[i].name));
      assert nodes[..i + 1] == nodes[..i] + [nodes[i]] && nodes[..i + 1][..i] == nodes[..i];
      if reason == None { feasible := feasible + [nodes[i]]; }
      i := i + 1;
    }
    assert nodes[..i] == nodes;
  }

  // ---- the choice ----------------------------------------------------------

  function Fraction(free: real, total: Limit): real {
    if total.Limit? && total.most > 0.0 then MaxReal(0.0, free) / total.most else 1.0
  }

  function Left(limit: Limit, used: real): real {
    if limit.Limit? then limit.most - used else 0.0
  }

  /** The share of a node that stays free, of 100, plus what preferred affinity adds. */
  function Score(node: Node, used: Usage, requests: Amount, preferred: real): real {
    var cpu := Fraction(Left(node.cpu, used.cpu + requests.cpu), node.cpu);
    var memory := Fraction(Left(node.memory, used.memory + requests.memory), node.memory);
    (cpu + memory) / 2.0 * 100.0 + preferred
  }

  /** Without preferences a feasible node scores between 0 and 100. */
  lemma ScoreRange(node: Node, used: Usage, requests: Amount)
    requires used.cpu + requests.cpu >= 0.0 && used.memory + requests.memory >= 0.0
    ensures 0.0 <= Score(node, used, requests, 0.0) <= 100.0
  {
    ShareRange(node.cpu, used.cpu + requests.cpu);
    ShareRange(node.memory, used.memory + requests.memory);
  }

  lemma ShareRange(limit: Limit, used: real)
    requires used >= 0.0
    ensures 0.0 <= Fraction(Left(limit, used), limit) <= 1.0
  {
    if limit.Limit? && limit.most > 0.0 {
      var free := MaxReal(0.0, limit.most - used);
      DivRange(free, limit.most);
    }
  }

  lemma DivRange(x: real, y: real)
    requires 0.0 <= x <= y && y > 0.0
    ensures 0.0 <= x / y <= 1.0
  {
    var q := x / y;
    assert q * y == x;
    assert (q - 1.0) * y == x - y;
  }

  /** A strict total order on names, as the locale's comparison is taken to be. */
  ghost predicate NameOrder(before: (string, string) -> bool) {
    && (forall a, b, c :: before(a, b) && before(b, c) ==> before(a, c))
    && (forall a, b :: a == b || before(a, b) || before(b, a))
    && forall a :: !before(a, a)
  }

  /** The first of the best: no other scores higher, and none that scores the same comes before it by name. */
  method PickBest(feasible: seq<Node>, score: Node -> real, before: (string, string) -> bool) returns (best: Node)
    requires feasible != []
    requires NameOrder(before)
    ensures best in feasible
    ensures forall node | node in feasible ::
              score(node) < score(best) || (score(node) == score(best) && !before(node.name, best.name))
  {
    best := feasible[0];
    var i := 1;
    while i < |feasible|
      invariant 1 <= i <= |feasible| && best in feasible[..i]
      invariant forall node | node in feasible[..i] ::
                  score(node) < score(best) || (score(node) == score(best) && !before(node.name, best.name))
    {
      var node := feasible[i];
      assert feasible[..i + 1] == feasible[..i] + [node];
      if score(node) > score(best) || (score(node) == score(best) && before(node.name, best.name)) { best := node; }
      i := i + 1;
    }
    assert feasible[..i] == feasible;
  }
}
