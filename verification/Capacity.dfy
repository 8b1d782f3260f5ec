/** From allocatable cpu to running tasks: no node that holds a task is promised more than it has. */
module Capacity {
  import opened Allocation
  import opened Cluster
  import opened ClusterPaths
  import opened ClusterShape
  import opened Decimal
  import opened Fluxion
  import opened GoInt
  import opened Jgf

  // ---- The core vertices of a node ----

  /** Position of the compute node's vertex for list entry i. */
  function NodeVertex(nodes: seq<KubeNode>, skipLabel: string, i: nat): nat
    requires i < |nodes|
  {
    |Plan(nodes[..i], skipLabel)| + 1
  }

  /** The ids of the core vertices directly under a vertex of the layout. */
  ghost function CoresUnder(items: seq<Item>, p: nat): set<nat> {
    set k: nat | k < |items| && items[k].rtype == CORE_TYPE && items[k].parent == p
  }

  ghost function CoreIds(nodes: seq<KubeNode>, skipLabel: string, i: nat): set<nat>
    requires i < |nodes|
  {
    CoresUnder(Plan(nodes, skipLabel), NodeVertex(nodes, skipLabel, i))
  }

  ghost predicate InRun(start: nat, n: nat, k: nat) {
    start <= k < start + n
  }

  ghost function Range(start: nat, n: nat): set<nat> {
    set k: nat | k < start + n && InRun(start, n, k)
  }

  lemma {:induction false} RangeSize(start: nat, n: nat)
    ensures |Range(start, n)| == n
  {
    if n > 0 {
      RangeSize(start, n - 1);
      assert Range(start, n) == Range(start, n - 1) + {start + n - 1};
    }
  }

  /** In a block, the cores sit in one run behind the gpus, under the compute node. */
  lemma BlockCores(node: KubeNode, subnet: nat, pos: nat, at: nat, k: nat)
    requires k < |Block(node, subnet, pos, at)|
    ensures var it := Block(node, subnet, pos, at)[k];
            && (it.rtype == CORE_TYPE <==> 2 + Gpus(node) <= k < 2 + Gpus(node) + Cores(node))
            && (it.rtype == CORE_TYPE ==> it.parent == at + 1)
  {
  }

  lemma {:induction false} CoreIdsAreARun(nodes: seq<KubeNode>, skipLabel: string, i: nat)
    requires i < |nodes| && Included(nodes[i], skipLabel)
    ensures CoreIds(nodes, skipLabel, i)
         == Range(NodeVertex(nodes, skipLabel, i) + 1 + Gpus(nodes[i]), Cores(nodes[i]))
    decreases |nodes|
  {
    hide Included, Block, CoresUnder, WellLaid;
    var n := |nodes| - 1;
    var before := Plan(nodes[..n], skipLabel);
    var p := NodeVertex(nodes, skipLabel, i);
    var all := Plan(nodes, skipLabel);
    PlanWellLaid(nodes[..n], skipLabel);
    if i < n {
      assert nodes[..n][..i] == nodes[..i];
      CoreIdsAreARun(nodes[..n], skipLabel, i);
      NodeVertexInside(nodes[..n], skipLabel, i);
      assert CoresUnder(all, p) == CoresUnder(before, p) by {
        if Included(nodes[n], skipLabel) {
          LaterBlockElsewhere(before, nodes[n], Subnets(nodes[..n], skipLabel), n, p);
        }
      }
    } else {
      OwnBlockCores(before, nodes[n], Subnets(nodes[..n], skipLabel), n);
    }
  }

  lemma NodeVertexInside(nodes: seq<KubeNode>, skipLabel: string, i: nat)
    requires i < |nodes| && Included(nodes[i], skipLabel)
    ensures NodeVertex(nodes, skipLabel, i) < |Plan(nodes, skipLabel)|
    ensures Plan(nodes, skipLabel)[NodeVertex(nodes, skipLabel, i)].rtype == NODE_TYPE
    ensures Plan(nodes, skipLabel)[NodeVertex(nodes, skipLabel, i)].basename == nodes[i].name
    ensures Plan(nodes, skipLabel)[NodeVertex(nodes, skipLabel, i)].index == i
  {
    hide Plan, Included, Zone, Digits;
    BlockInPlan(nodes, skipLabel, i);
  }

  lemma LaterBlockElsewhere(before: seq<Item>, node: KubeNode, subnet: nat, pos: nat, p: nat)
    requires p < |before|
    ensures CoresUnder(before + Block(node, subnet, pos, |before|), p) == CoresUnder(before, p)
  {
  }

  lemma OwnBlockCores(before: seq<Item>, node: KubeNode, subnet: nat, pos: nat)
    requires WellLaid(before)
    ensures CoresUnder(before + Block(node, subnet, pos, |before|), |before| + 1)
         == Range(|before| + 2 + Gpus(node), Cores(node))
  {
    var all := before + Block(node, subnet, pos, |before|);
    var r := Range(|before| + 2 + Gpus(node), Cores(node));
    assert |Block(node, subnet, pos, |before|)| == 2 + Gpus(node) + Cores(node) + MemoryVertices(node);
    forall k: nat ensures k in CoresUnder(all, |before| + 1) <==> k in r {
      if |before| <= k < |all| {
        BlockCores(node, subnet, pos, |before|, k - |before|);
      } else if 1 <= k < |before| {
        assert Hangs(before, k);
      }
    }
  }

  /** A node has as many core vertices as whole cores are free on it. */
  lemma CoreIdsCount(nodes: seq<KubeNode>, skipLabel: string, i: nat)
    requires i < |nodes| && Included(nodes[i], skipLabel)
    ensures |CoreIds(nodes, skipLabel, i)| == Cores(nodes[i])
  {
    CoreIdsAreARun(nodes, skipLabel, i);
    RangeSize(NodeVertex(nodes, skipLabel, i) + 1 + Gpus(nodes[i]), Cores(nodes[i]));
  }

  // ---- Jobs and the cores they hold ----

  type JobId = int

  /** What a live job holds, and the pod it was requested for. */
  datatype Grant = Grant(cores: set<nat>, pod: seq<Container>)

  ghost predicate Exclusive(live: map<JobId, Grant>) {
    forall a, b :: a in live && b in live && a != b ==> live[a].cores !! live[b].cores
  }

  function TasksAt(answer: seq<NodeAlloc>, name: string): int {
    if answer == [] then 0
    else (if answer[0].nodeId == name then answer[0].tasks else 0) + TasksAt(answer[1..], name)
  }

  /** The tree lists the held cores: each of them under one compute node, no compute node twice, and
      every compute node with exactly the held cores that are its own. */
  ghost predicate Lists(t: Tree, nodes: seq<KubeNode>, skipLabel: string, held: set<nat>) {
    && NotNested(t) && Outside(t) == 0
    && (forall k, l :: 0 <= k < l < |ComputeNodes(t)| ==> ComputeNodes(t)[k].basename != ComputeNodes(t)[l].basename)
    && (forall k, i :: 0 <= k < |ComputeNodes(t)| && 0 <= i < |nodes| && Included(nodes[i], skipLabel)
          && ComputeNodes(t)[k].basename == nodes[i].name
          ==> ComputeNodes(t)[k].coreCount == |held * CoreIds(nodes, skipLabel, i)|)
  }

  lemma {:induction false} NoTasksElsewhere(answer: seq<NodeAlloc>, name: string)
    requires forall k :: 0 <= k < |answer| ==> answer[k].nodeId != name
    ensures TasksAt(answer, name) == 0
  {
    if answer != [] {
      NoTasksElsewhere(answer[1..], name);
    }
  }

  lemma {:induction false} TasksAtOnlyEntry(answer: seq<NodeAlloc>, k: nat)
    requires k < |answer|
    requires forall l :: 0 <= l < |answer| && l != k ==> answer[l].nodeId != answer[k].nodeId
    ensures TasksAt(answer, answer[k].nodeId) == answer[k].tasks
  {
    if k == 0 {
      NoTasksElsewhere(answer[1..], answer[0].nodeId);
    } else {
      TasksAtOnlyEntry(answer[1..], k - 1);
    }
  }

  /** The tasks a job counts on a node need no more cores than it holds there. */
  lemma TasksFitHeldCores(t: Tree, cpu: int, nodes: seq<KubeNode>, skipLabel: string, held: set<nat>, i: nat)
    requires 1 <= cpu <= INT32_MAX && i < |nodes| && Included(nodes[i], skipLabel)
    requires Lists(t, nodes, skipLabel, held)
    ensures TasksAt(Answer(t, cpu), nodes[i].name) * cpu <= |held * CoreIds(nodes, skipLabel, i)|
  {
    hide CoreIds, Included, ComputeNodes;
    DecodesCoveredTree(t);
    var listed := ComputeNodes(t);
    var answer := Answer(t, cpu);
    if k :| 0 <= k < |listed| && listed[k].basename == nodes[i].name {
      assert answer[k].nodeId == nodes[i].name;
      TasksAtOnlyEntry(answer, k);
      TasksFitCores(listed[k].coreCount, cpu);
    } else {
      NoTasksElsewhere(answer, nodes[i].name);
    }
  }

  predicate AllIn(jobs: seq<JobId>, known: set<JobId>) {
    forall k :: 0 <= k < |jobs| ==> jobs[k] in known
  }

  function HeldSum(jobs: seq<JobId>, live: map<JobId, Grant>, ids: set<nat>): nat
    requires AllIn(jobs, live.Keys)
  {
    if jobs == [] then 0 else |live[jobs[0]].cores * ids| + HeldSum(jobs[1..], live, ids)
  }

  ghost predicate NoRepeats(jobs: seq<JobId>) {
    forall a, b :: 0 <= a < b < |jobs| ==> jobs[a] != jobs[b]
  }

  /** Jobs that hold disjoint cores hold at most as many as there are. */
  lemma {:induction false} HeldFits(jobs: seq<JobId>, live: map<JobId, Grant>, ids: set<nat>)
    requires AllIn(jobs, live.Keys) && Exclusive(live) && NoRepeats(jobs)
    ensures HeldSum(jobs, live, ids) <= |ids|
    decreases |jobs|
  {
    if jobs != [] {
      var mine := live[jobs[0]].cores;
      HeldFits(jobs[1..], live, ids - mine);
      HeldElsewhere(jobs[1..], live, ids, mine);
      assert |ids| == |ids - mine| + |mine * ids| by {
        assert ids == (ids - mine) + mine * ids;
      }
    }
  }

  lemma {:induction false} HeldElsewhere(jobs: seq<JobId>, live: map<JobId, Grant>, ids: set<nat>, taken: set<nat>)
    requires AllIn(jobs, live.Keys) && forall k :: 0 <= k < |jobs| ==> live[jobs[k]].cores !! taken
    ensures HeldSum(jobs, live, ids) == HeldSum(jobs, live, ids - taken)
  {
    if jobs != [] {
      HeldElsewhere(jobs[1..], live, ids, taken);
      assert live[jobs[0]].cores * ids == live[jobs[0]].cores * (ids - taken);
    }
  }

  /** A pod Fluence can size: requests are not negative and the rounded-up sum fits in int32. */
  ghost predicate Sized(pod: seq<Container>) {
    NonNegativeCpu(pod) && |pod| < TWO_TO_32 && RoundedCpu(pod) <= INT32_MAX
  }

  /** Milli-cpu requested by the tasks that the listed jobs count on a node; a count that wrapped below zero
      is no task. */
  function Load(jobs: seq<JobId>, live: map<JobId, Grant>, trees: map<JobId, Tree>, name: string): int
    requires AllIn(jobs, live.Keys) && AllIn(jobs, trees.Keys)
  {
    if jobs == [] then 0
    else
      var pod := live[jobs[0]].pod;
      MilliCpu(pod) * Trips(TasksAt(Answer(trees[jobs[0]], JobCpu(pod)), name)) + Load(jobs[1..], live, trees, name)
  }

  ghost predicate Placed(nodes: seq<KubeNode>, skipLabel: string, live: map<JobId, Grant>, trees: map<JobId, Tree>) {
    && live.Keys <= trees.Keys
    && forall j :: j in live ==>
      && Sized(live[j].pod) && JobCpu(live[j].pod) >= 1
      && Lists(trees[j], nodes, skipLabel, live[j].cores)
  }

  lemma OneJobLoad(milli: int, cpu: int, tasks: int, cores: nat)
    requires 0 <= milli <= 1000 * cpu && tasks * cpu <= cores && cpu >= 1
    ensures milli * Trips(tasks) <= 1000 * cores
  {
    if tasks >= 0 {
      MulMonotone(milli, 1000 * cpu, tasks);
      assert 1000 * cpu * tasks == 1000 * (tasks * cpu);
    }
  }

  lemma {:induction false} LoadFitsHeld(jobs: seq<JobId>, nodes: seq<KubeNode>, skipLabel: string,
                                        live: map<JobId, Grant>, trees: map<JobId, Tree>, i: nat)
    requires AllIn(jobs, live.Keys) && AllIn(jobs, trees.Keys) && Placed(nodes, skipLabel, live, trees)
    requires i < |nodes| && Included(nodes[i], skipLabel)
    ensures Load(jobs, live, trees, nodes[i].name) <= 1000 * HeldSum(jobs, live, CoreIds(nodes, skipLabel, i))
  {
    hide Lists, Included, CoreIds, Answer;
    if jobs != [] {
      LoadFitsHeld(jobs[1..], nodes, skipLabel, live, trees, i);
      var j := jobs[0];
      var pod := live[j].pod;
      JobCpuCoversExactly(pod);
      RoundingBounds(pod);
      TasksFitHeldCores(trees[j], JobCpu(pod), nodes, skipLabel, live[j].cores, i);
      OneJobLoad(MilliCpu(pod), JobCpu(pod), TasksAt(Answer(trees[j], JobCpu(pod)), nodes[i].name),
                 |live[j].cores * CoreIds(nodes, skipLabel, i)|);
    }
  }

  lemma {:induction false} SomeoneHolds(jobs: seq<JobId>, live: map<JobId, Grant>, ids: set<nat>, j: JobId)
    requires AllIn(jobs, live.Keys) && j in jobs
    ensures HeldSum(jobs, live, ids) >= |live[j].cores * ids|
  {
    if jobs[0] != j {
      SomeoneHolds(jobs[1..], live, ids, j);
    }
  }

  /** End to end: on a node that holds a task, the requests of the pods that were there when the graph was
      built and the requests of all the tasks live jobs count there stay within the allocatable milli-cpu. */
  lemma NodeNotOvercommitted(nodes: seq<KubeNode>, skipLabel: string, i: nat,
                             live: map<JobId, Grant>, trees: map<JobId, Tree>, jobs: seq<JobId>, j: JobId)
    requires i < |nodes| && Included(nodes[i], skipLabel)
    requires Exclusive(live) && Placed(nodes, skipLabel, live, trees)
    requires AllIn(jobs, live.Keys) && (forall k :: k in live ==> k in jobs) && NoRepeats(jobs)
    requires j in live && TasksAt(Answer(trees[j], JobCpu(live[j].pod)), nodes[i].name) >= 1
    ensures TotalRequest(nodes[i].pods, CPU) + Load(jobs, live, trees, nodes[i].name) <= nodes[i].cpu
  {
    hide Lists, Included, CoreIds, Answer, TotalRequest, NoRepeats, Exclusive;
    var ids := CoreIds(nodes, skipLabel, i);
    var cpu := JobCpu(live[j].pod);
    TasksFitHeldCores(trees[j], cpu, nodes, skipLabel, live[j].cores, i);
    MulMonotone(1, TasksAt(Answer(trees[j], cpu), nodes[i].name), cpu);
    SomeoneHolds(jobs, live, ids, j);
    LoadFitsHeld(jobs, nodes, skipLabel, live, trees, i);
    HeldFits(jobs, live, ids);
    CoreIdsCount(nodes, skipLabel, i);
    FreeCpu(nodes[i]);
  }

  lemma FreeCpu(node: KubeNode)
    requires Cores(node) >= 1
    ensures TotalRequest(node.pods, CPU) + 1000 * Cores(node) <= node.cpu
  {
  }

  // ---- The tree of an allocation, cut out of the graph ----

  function CoreLeaves(held: set<nat>, start: nat, n: nat): seq<Tree>
    decreases n
  {
    if n == 0 then []
    else
      (if start in held then [Tree(CORE_TYPE, CORE_TYPE, [])] else []) + CoreLeaves(held, start + 1, n - 1)
  }

  lemma {:induction false} CoreLeavesCount(held: set<nat>, start: nat, n: nat)
    ensures var ts := CoreLeaves(held, start, n);
            ForestCores(ts) == |held * Range(start, n)| && !AnyHasNode(ts)
    decreases n
  {
    hide Range;
    if n == 0 {
      NoneHeld(held, start);
    } else {
      CoreLeavesCount(held, start + 1, n - 1);
      FirstHeld(held, start, n);
      var rest := CoreLeaves(held, start + 1, n - 1);
      if start in held {
        var leaf := Tree(CORE_TYPE, CORE_TYPE, []);
        assert ([leaf] + rest)[1..] == rest;
        assert TreeCores(leaf) == 1 && !HasNode(leaf);
      } else {
        assert [] + rest == rest;
      }
    }
  }

  lemma NoneHeld(held: set<nat>, start: nat)
    ensures held * Range(start, 0) == {}
  {
  }

  lemma FirstHeld(held: set<nat>, start: nat, n: nat)
    requires n > 0
    ensures |held * Range(start, n)| == (if start in held then 1 else 0) + |held * Range(start + 1, n - 1)|
  {
    var rest := held * Range(start + 1, n - 1);
    if start in held {
      assert held * Range(start, n) == {start} + rest;
    } else {
      assert held * Range(start, n) == rest;
    }
  }

  ghost function HeldOn(nodes: seq<KubeNode>, skipLabel: string, held: set<nat>, i: nat): nat
    requires i < |nodes|
  {
    |held * CoreIds(nodes, skipLabel, i)|
  }

  ghost function SubnetTree(nodes: seq<KubeNode>, skipLabel: string, held: set<nat>, i: nat): Tree
    requires i < |nodes|
  {
    var cores := CoreLeaves(held, NodeVertex(nodes, skipLabel, i) + 1 + Gpus(nodes[i]), Cores(nodes[i]));
    Tree(SUBNET_TYPE, Zone(nodes[i]), [Tree(NODE_TYPE, nodes[i].name, cores)])
  }

  /** Subnet, compute node and held cores, for each included node from i on where some core is held. */
  ghost function SubnetTrees(nodes: seq<KubeNode>, skipLabel: string, held: set<nat>, i: nat): seq<Tree>
    requires i <= |nodes|
    decreases |nodes| - i
  {
    if i == |nodes| then []
    else
      (if Included(nodes[i], skipLabel) && HeldOn(nodes, skipLabel, held, i) > 0
       then [SubnetTree(nodes, skipLabel, held, i)] else [])
      + SubnetTrees(nodes, skipLabel, held, i + 1)
  }

  ghost function JobTree(nodes: seq<KubeNode>, skipLabel: string, held: set<nat>): Tree {
    Tree(CLUSTER_TYPE, CLUSTER_NAME, SubnetTrees(nodes, skipLabel, held, 0))
  }

  lemma SubnetTreeDecodes(nodes: seq<KubeNode>, skipLabel: string, held: set<nat>, i: nat)
    requires i < |nodes| && Included(nodes[i], skipLabel)
    ensures var t := SubnetTree(nodes, skipLabel, held, i);
            && NotNested(t) && Outside(t) == 0
            && ComputeNodes(t) == [NodeCores(NODE_TYPE, nodes[i].name, HeldOn(nodes, skipLabel, held, i))]
  {
    hide Included, Zone, CoreLeaves;
    var start := NodeVertex(nodes, skipLabel, i) + 1 + Gpus(nodes[i]);
    CoreIdsAreARun(nodes, skipLabel, i);
    CoreLeavesCount(held, start, Cores(nodes[i]));
    CompactDecodes(Zone(nodes[i]), nodes[i].name, CoreLeaves(held, start, Cores(nodes[i])));
  }

  lemma CompactDecodes(zone: string, name: string, leaves: seq<Tree>)
    requires !AnyHasNode(leaves)
    ensures var t := Tree(SUBNET_TYPE, zone, [Tree(NODE_TYPE, name, leaves)]);
            NotNested(t) && Outside(t) == 0 && ComputeNodes(t) == [NodeCores(NODE_TYPE, name, ForestCores(leaves))]
  {
    var node := Tree(NODE_TYPE, name, leaves);
    NoNodesNone(leaves);
    assert [node][1..] == [];
    assert ComputeNodes(node) == [NodeCores(NODE_TYPE, name, ForestCores(leaves))];
    assert ComputeNodesOf([node]) == ComputeNodes(node) + ComputeNodesOf([node][1..]);
    assert NoneNested([node]);
    assert OutsideAll([node]) == 0;
  }

  ghost predicate EntryOf(e: NodeCores, nodes: seq<KubeNode>, skipLabel: string, held: set<nat>, i: nat) {
    i < |nodes| && Included(nodes[i], skipLabel)
    && e == NodeCores(NODE_TYPE, nodes[i].name, HeldOn(nodes, skipLabel, held, i))
  }

  /** The entries come from included nodes, in list order, starting at i. */
  ghost predicate EntriesFrom(es: seq<NodeCores>, nodes: seq<KubeNode>, skipLabel: string, held: set<nat>, i: nat)
  {
    && (forall k :: 0 <= k < |es| ==> EntryFrom(es[k], nodes, skipLabel, held, i))
    && (forall k, l :: 0 <= k < l < |es| ==> es[k].basename != es[l].basename)
  }

  ghost predicate EntryFrom(e: NodeCores, nodes: seq<KubeNode>, skipLabel: string, held: set<nat>, i: nat) {
    exists x: nat :: x >= i && EntryOf(e, nodes, skipLabel, held, x)
  }

  ghost predicate NamesDiffer(nodes: seq<KubeNode>) {
    forall i, j :: 0 <= i < j < |nodes| ==> nodes[i].name != nodes[j].name
  }

  lemma {:induction false} SubnetTreesDecode(nodes: seq<KubeNode>, skipLabel: string, held: set<nat>, i: nat)
    requires i <= |nodes| && NamesDiffer(nodes)
    ensures var ts := SubnetTrees(nodes, skipLabel, held, i);
            && NoneNested(ts) && OutsideAll(ts) == 0
            && EntriesFrom(ComputeNodesOf(ts), nodes, skipLabel, held, i)
    decreases |nodes| - i
  {
    hide Included, HeldOn, SubnetTree;
    if i < |nodes| {
      SubnetTreesDecode(nodes, skipLabel, held, i + 1);
      var rest := SubnetTrees(nodes, skipLabel, held, i + 1);
      if Included(nodes[i], skipLabel) && HeldOn(nodes, skipLabel, held, i) > 0 {
        var t := SubnetTree(nodes, skipLabel, held, i);
        SubnetTreeDecodes(nodes, skipLabel, held, i);
        assert ([t] + rest)[1..] == rest;
        var e := NodeCores(NODE_TYPE, nodes[i].name, HeldOn(nodes, skipLabel, held, i));
        assert EntryOf(e, nodes, skipLabel, held, i);
        EntriesPrepend(e, ComputeNodesOf(rest), nodes, skipLabel, held, i);
      } else {
        assert [] + rest == rest;
        EntriesEarlier(ComputeNodesOf(rest), nodes, skipLabel, held, i);
      }
    }
  }

  lemma EntriesEarlier(es: seq<NodeCores>, nodes: seq<KubeNode>, skipLabel: string, held: set<nat>, i: nat)
    requires EntriesFrom(es, nodes, skipLabel, held, i + 1)
    ensures EntriesFrom(es, nodes, skipLabel, held, i)
  {
    forall k | 0 <= k < |es| ensures EntryFrom(es[k], nodes, skipLabel, held, i) {
      assert EntryFrom(es[k], nodes, skipLabel, held, i + 1);
    }
  }

  lemma EntriesPrepend(e: NodeCores, es: seq<NodeCores>, nodes: seq<KubeNode>, skipLabel: string,
                       held: set<nat>, i: nat)
    requires NamesDiffer(nodes)
    requires EntryOf(e, nodes, skipLabel, held, i) && EntriesFrom(es, nodes, skipLabel, held, i + 1)
    ensures EntriesFrom([e] + es, nodes, skipLabel, held, i)
  {
    hide HeldOn, Included;
    EntriesEarlier(es, nodes, skipLabel, held, i);
    assert EntryFrom(e, nodes, skipLabel, held, i);
    forall k | 0 <= k < |es| ensures es[k].basename != e.basename {
      assert EntryFrom(es[k], nodes, skipLabel, held, i + 1);
    }
  }

  /** The subtree of the graph above a set of held cores lists them as the decoder needs. */
  lemma JobTreeLists(nodes: seq<KubeNode>, skipLabel: string, held: set<nat>)
    requires NamesDiffer(nodes)
    ensures Lists(JobTree(nodes, skipLabel, held), nodes, skipLabel, held)
  {
    hide Included, CoreIds, SubnetTrees;
    var t := JobTree(nodes, skipLabel, held);
    SubnetTreesDecode(nodes, skipLabel, held, 0);
    var es := ComputeNodes(t);
    assert es == ComputeNodesOf(t.kids);
    forall k, i | 0 <= k < |es| && 0 <= i < |nodes| && Included(nodes[i], skipLabel) && es[k].basename == nodes[i].name
      ensures es[k].coreCount == |held * CoreIds(nodes, skipLabel, i)|
    {
      assert EntryFrom(es[k], nodes, skipLabel, held, 0);
      var x: nat :| EntryOf(es[k], nodes, skipLabel, held, x);
      assert x == i;
    }
  }
}
