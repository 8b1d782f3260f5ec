/** Does the allocation fit the group: nodes listed against pods, and pods assigned to nodes. */
module Assignment {
  import opened Allocation
  import opened Fluxion
  import opened GoInt

  function Sum(ns: seq<int>): int {
    if ns == [] then 0 else ns[0] + Sum(ns[1..])
  }

  function TasksOf(answer: seq<NodeAlloc>): seq<int> {
    seq(|answer|, i requires 0 <= i < |answer| => answer[i].tasks)
  }

  /** What Fluxion is trusted with: `count` slots of `cpu` cores, each slot inside one compute node, each
      listed compute node holding at least one, compute nodes not nested and no core outside them. */
  ghost predicate HoldsSlots(t: Tree, slots: seq<int>, cpu: int, count: int) {
    NotNested(t) && Outside(t) == 0 && InSlots(ComputeNodes(t), slots, cpu, count)
  }

  /** The cores held on the nodes listed make up `count` slots, slots[i] of them on node i. */
  ghost predicate InSlots(nodes: seq<NodeCores>, slots: seq<int>, cpu: int, count: int) {
    && |nodes| == |slots|
    && (forall i :: 0 <= i < |slots| ==> slots[i] >= 1 && nodes[i].coreCount == slots[i] * cpu)
    && Sum(slots) == count
  }

  lemma {:induction false} AtLeastOneEach(ns: seq<int>)
    requires forall i :: 0 <= i < |ns| ==> ns[i] >= 1
    ensures Sum(ns) >= |ns|
    ensures Sum(ns) == |ns| <==> forall i :: 0 <= i < |ns| ==> ns[i] == 1
  {
    if ns != [] {
      AtLeastOneEach(ns[1..]);
      assert forall i :: 1 <= i < |ns| ==> ns[i] == ns[1..][i - 1];
    }
  }

  /** Every write `pods[i]` of the assignment loop is in range: the nodes listed number at most the
      slots asked for, which are MinMember, which PreFilter has checked against the pods. */
  lemma NodesFitPods(t: Tree, slots: seq<int>, cpu: int, minMember: int, pods: seq<string>)
    requires cpu != 0 && HoldsSlots(t, slots, cpu, minMember)
    requires |pods| >= minMember
    ensures |Answer(t, cpu)| == |slots| <= minMember <= |pods|
  {
    DecodesCoveredTree(t);
    AtLeastOneEach(slots);
  }

  lemma {:induction false} SumLeOfParts(ns: seq<int>, i: nat)
    requires i < |ns| && forall k :: 0 <= k < |ns| ==> ns[k] >= 1
    ensures ns[i] <= Sum(ns)
  {
    AtLeastOneEach(ns[1..]);
    if i > 0 {
      SumLeOfParts(ns[1..], i - 1);
    }
  }

  lemma {:induction false} SumBelow(a: seq<int>, b: seq<int>)
    requires |a| == |b| && forall i :: 0 <= i < |a| ==> a[i] <= b[i]
    ensures Sum(a) <= Sum(b)
    ensures Sum(a) == Sum(b) <==> a == b
  {
    if a != [] {
      SumBelow(a[1..], b[1..]);
      assert a == [a[0]] + a[1..] && b == [b[0]] + b[1..];
    }
  }

  lemma TaskAgainstSlot(slots: int, cpu: int)
    requires 1 <= slots <= INT32_MAX && 1 <= cpu <= INT32_MAX
    ensures var tasks := ToInt32(Quot(ToInt32(slots * cpu), cpu));
            tasks <= slots && (tasks == slots <==> slots * cpu <= INT32_MAX)
  {
    MulMonotone(1, slots, cpu);
    TasksFitCores(slots * cpu, cpu);
    TasksAreSlotsExactly(slots, cpu);
    var tasks := ToInt32(Quot(ToInt32(slots * cpu), cpu));
    if tasks > slots {
      MulMonotone(slots + 1, tasks, cpu);
    }
  }

  /** The tasks total MinMember exactly when no node holds more cores than int32 can count. */
  lemma TasksTotalExactly(t: Tree, slots: seq<int>, cpu: int, minMember: int)
    requires 1 <= cpu <= INT32_MAX && minMember <= INT32_MAX
    requires HoldsSlots(t, slots, cpu, minMember)
    ensures Sum(TasksOf(Answer(t, cpu))) == minMember <==> forall i :: 0 <= i < |slots| ==> slots[i] * cpu <= INT32_MAX
    ensures Sum(TasksOf(Answer(t, cpu))) == minMember ==> TasksOf(Answer(t, cpu)) == slots
  {
    DecodesCoveredTree(t);
    var tasks := TasksOf(Answer(t, cpu));
    forall i | 0 <= i < |slots|
      ensures tasks[i] <= slots[i] && (tasks[i] == slots[i] <==> slots[i] * cpu <= INT32_MAX)
    {
      SumLeOfParts(slots, i);
      TaskAgainstSlot(slots[i], cpu);
    }
    SumBelow(tasks, slots);
  }

  /** Past that, the count of tasks misleads: five slots of 2^30 cores read as one task. */
  lemma TasksCanWrap()
    ensures ToInt32(Quot(ToInt32(5 * 0x4000_0000), 0x4000_0000)) == 1
  {
  }

  /** Pigeonhole: the answer has as many nodes as there are pods, which is what keeps the job, exactly
      when the pods are MinMember and every node holds one slot. */
  lemma AnswerFitsExactly(t: Tree, slots: seq<int>, cpu: int, minMember: int, pods: seq<string>)
    requires cpu != 0 && HoldsSlots(t, slots, cpu, minMember)
    requires |pods| >= minMember
    ensures |Answer(t, cpu)| == |pods| <==>
            |pods| == minMember && forall i :: 0 <= i < |slots| ==> slots[i] == 1
  {
    NodesFitPods(t, slots, cpu, minMember, pods);
    AtLeastOneEach(slots);
  }

  /** The same read off the response: pods are MinMember and every node has Tasks == 1. */
  lemma AnswerFitsByTasks(t: Tree, slots: seq<int>, cpu: int, minMember: int, pods: seq<string>)
    requires 1 <= cpu <= INT32_MAX && minMember <= INT32_MAX
    requires HoldsSlots(t, slots, cpu, minMember)
    requires Sum(TasksOf(Answer(t, cpu))) == minMember
    requires |pods| >= minMember
    ensures |Answer(t, cpu)| == |pods| <==>
            |pods| == minMember && forall i :: 0 <= i < |Answer(t, cpu)| ==> Answer(t, cpu)[i].tasks == 1
  {
    TasksTotalExactly(t, slots, cpu, minMember);
    AnswerFitsExactly(t, slots, cpu, minMember, pods);
    NodesFitPods(t, slots, cpu, minMember, pods);
    assert forall i :: 0 <= i < |slots| ==> Answer(t, cpu)[i].tasks == TasksOf(Answer(t, cpu))[i];
  }

  /** A zone label asks for all slots under one node, so only a group of one pod can fit. */
  lemma ZoneFitsOnlyOnePod(t: Tree, slots: seq<int>, cpu: int, minMember: int, pods: seq<string>)
    requires cpu != 0 && HoldsSlots(t, slots, cpu, minMember) && |slots| == 1
    requires |pods| >= minMember
    ensures |Answer(t, cpu)| == |pods| <==> |pods| == 1
    ensures |Answer(t, cpu)| == |pods| ==> minMember == 1
  {
    NodesFitPods(t, slots, cpu, minMember, pods);
    AtLeastOneEach(slots);
  }

  // ---- Writing the assignment ----

  /** The lookup after the first k nodes have been written to the first k pods. */
  function Assigned(podToNode: map<string, string>, pods: seq<string>, nodes: seq<string>): map<string, string>
    requires |nodes| <= |pods|
  {
    if nodes == [] then podToNode
    else
      var n := |nodes| - 1;
      Assigned(podToNode, pods, nodes[..n])[pods[n] := nodes[n]]
  }

  ghost predicate AllDifferent(names: seq<string>) {
    forall i, j :: 0 <= i < j < |names| ==> names[i] != names[j]
  }

  /** Pods with distinct names get the node at their position; everyone else keeps theirs. */
  lemma {:induction false} AssignedAt(podToNode: map<string, string>, pods: seq<string>, nodes: seq<string>)
    requires |nodes| <= |pods| && AllDifferent(pods)
    ensures var m := Assigned(podToNode, pods, nodes);
            && (forall i :: 0 <= i < |nodes| ==> pods[i] in m && m[pods[i]] == nodes[i])
            && (forall p :: p !in pods[..|nodes|] ==> (p in m <==> p in podToNode) && (p in m ==> m[p] == podToNode[p]))
  {
    if nodes != [] {
      var n := |nodes| - 1;
      AssignedAt(podToNode, pods, nodes[..n]);
      assert pods[..|nodes|] == pods[..n] + [pods[n]];
    }
  }

  /** When there are as many nodes as pods, every pod has a node, and no two pods share one if and only if
      the nodes are distinct. */
  lemma KeptGroupSpreadsOut(podToNode: map<string, string>, pods: seq<string>, nodes: seq<string>)
    requires |pods| == |nodes| && AllDifferent(pods)
    requires forall i :: 0 <= i < |nodes| ==> pods[i] in podToNode && podToNode[pods[i]] == nodes[i]
    ensures forall p :: p in pods ==> p in podToNode && podToNode[p] in nodes
    ensures (forall p, q :: p in pods && q in pods && p != q ==> podToNode[p] != podToNode[q]) <==> AllDifferent(nodes)
  {
    forall p, q | AllDifferent(nodes) && p in pods && q in pods && p != q ensures podToNode[p] != podToNode[q] {
      var i :| 0 <= i < |pods| && pods[i] == p;
      var j :| 0 <= j < |pods| && pods[j] == q;
      assert podToNode[pods[i]] == nodes[i] && podToNode[pods[j]] == nodes[j];
    }
    if !AllDifferent(nodes) {
      var i, j :| 0 <= i < j < |nodes| && nodes[i] == nodes[j];
      assert pods[i] in pods && pods[j] in pods && podToNode[pods[i]] == podToNode[pods[j]];
    }
  }

  /** The lookup of a pod's node; a missing entry reads as the empty string. */
  function NodeOf(podToNode: map<string, string>, pod: string): string {
    if pod in podToNode then podToNode[pod] else ""
  }

  /** A pod that got no node in the writes finds what it found before. */
  lemma {:induction false} OthersKeepTheirs(podToNode: map<string, string>, pods: seq<string>, nodes: seq<string>,
                                            pod: string)
    requires |nodes| <= |pods| && pod !in pods[..|nodes|]
    ensures NodeOf(Assigned(podToNode, pods, nodes), pod) == NodeOf(podToNode, pod)
  {
    if nodes != [] {
      var n := |nodes| - 1;
      assert pods[n] == pods[..|nodes|][n] && pods[..n] <= pods[..|nodes|];
      OthersKeepTheirs(podToNode, pods, nodes[..n], pod);
    }
  }
}
