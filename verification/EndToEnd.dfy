/** Across the parts: the capacity promise over every run, and admission fed by the match's own answer. */
module EndToEnd {
  import opened Allocation
  import opened Assignment
  import opened Capacity
  import opened Cluster
  import opened ClusterCounts
  import opened Fluxion
  import opened GoInt
  import Jgf
  import opened Ledger
  import opened Manager
  import opened Wrappers

  /** The allocation tree of each live job: the part of the graph above the cores it holds. */
  ghost function LiveTrees(nodes: seq<KubeNode>, skipLabel: string, live: map<JobId, Grant>): map<JobId, Tree> {
    map j | j in live :: JobTree(nodes, skipLabel, live[j].cores)
  }

  ghost predicate AllSized(live: map<JobId, Grant>) {
    forall j :: j in live ==> Sized(live[j].pod)
  }

  lemma LiveTreesPlaced(nodes: seq<KubeNode>, skipLabel: string, live: map<JobId, Grant>)
    requires NamesDiffer(nodes) && AllSized(live)
    ensures Placed(nodes, skipLabel, live, LiveTrees(nodes, skipLabel, live))
  {
    hide JobTree, Lists;
    forall j | j in live
      ensures JobCpu(live[j].pod) >= 1
      ensures Lists(LiveTrees(nodes, skipLabel, live)[j], nodes, skipLabel, live[j].cores)
    {
      JobCpuCoversExactly(live[j].pod);
      JobTreeLists(nodes, skipLabel, live[j].cores);
    }
  }

  /** In every state any interleaving reaches, on every node that holds a task: the requests of the pods
      present when the graph was built, plus those of all tasks that live jobs count on the node, stay
      within its allocatable milli-cpu. */
  lemma NeverOvercommitted(steps: seq<Step>, nodes: seq<KubeNode>, skipLabel: string, i: nat,
                           jobs: seq<JobId>, j: JobId)
    requires Possible(steps) && AllSized(Run(steps).live)
    requires NamesDiffer(nodes) && i < |nodes| && Included(nodes[i], skipLabel)
    requires AllIn(jobs, Run(steps).live.Keys) && NoRepeats(jobs) && forall k :: k in Run(steps).live ==> k in jobs
    requires j in Run(steps).live
    requires TasksAt(Answer(JobTree(nodes, skipLabel, Run(steps).live[j].cores), JobCpu(Run(steps).live[j].pod)),
                     nodes[i].name) >= 1
    ensures Placed(nodes, skipLabel, Run(steps).live, LiveTrees(nodes, skipLabel, Run(steps).live))
    ensures TotalRequest(nodes[i].pods, CPU)
            + Load(jobs, Run(steps).live, LiveTrees(nodes, skipLabel, Run(steps).live), nodes[i].name)
            <= nodes[i].cpu
  {
    hide Exclusive, JobTree, Lists, Answer, Included, Possible, Run;
    LedgerIsSafe(steps);
    var live := Run(steps).live;
    LiveTreesPlaced(nodes, skipLabel, live);
    NodeNotOvercommitted(nodes, skipLabel, i, live, LiveTrees(nodes, skipLabel, live), jobs, j);
  }

  // ---- The promise is sharp ----

  /** Different nodes have different core vertices. */
  lemma CoreIdsApart(nodes: seq<KubeNode>, skipLabel: string, i: nat, j: nat)
    requires NamesDiffer(nodes) && i < |nodes| && j < |nodes| && i != j
    requires Included(nodes[i], skipLabel) && Included(nodes[j], skipLabel)
    ensures CoreIds(nodes, skipLabel, i) * CoreIds(nodes, skipLabel, j) == {}
  {
    hide Included, NodeVertex, Plan;
    NodeVertexInside(nodes, skipLabel, i);
    NodeVertexInside(nodes, skipLabel, j);
  }

  lemma OwnCoresHeld(nodes: seq<KubeNode>, skipLabel: string, i: nat, j: nat)
    requires NamesDiffer(nodes) && i < |nodes| && j < |nodes|
    requires Included(nodes[i], skipLabel) && Included(nodes[j], skipLabel)
    ensures HeldOn(nodes, skipLabel, CoreIds(nodes, skipLabel, i), j) == if i == j then Cores(nodes[i]) else 0
  {
    hide Included, CoreIds, Cores, NamesDiffer;
    if i == j {
      CoreIdsCount(nodes, skipLabel, i);
      assert CoreIds(nodes, skipLabel, i) * CoreIds(nodes, skipLabel, i) == CoreIds(nodes, skipLabel, i);
    } else {
      CoreIdsApart(nodes, skipLabel, i, j);
    }
  }

  /** A job that holds all cores of one node lists that node alone. */
  lemma {:induction false} OwnNodeListed(nodes: seq<KubeNode>, skipLabel: string, i: nat, from: nat)
    requires NamesDiffer(nodes) && i < |nodes| && Included(nodes[i], skipLabel) && Cores(nodes[i]) >= 1
    requires from <= |nodes|
    ensures ComputeNodesOf(SubnetTrees(nodes, skipLabel, CoreIds(nodes, skipLabel, i), from))
         == if from <= i then [NodeCores(Jgf.NODE_TYPE, nodes[i].name, Cores(nodes[i]))] else []
    decreases |nodes| - from
  {
    hide Included, HeldOn, SubnetTree, CoreIds, Cores, NamesDiffer, ComputeNodes;
    var held := CoreIds(nodes, skipLabel, i);
    if from < |nodes| {
      OwnNodeListed(nodes, skipLabel, i, from + 1);
      var rest := SubnetTrees(nodes, skipLabel, held, from + 1);
      if Included(nodes[from], skipLabel) {
        OwnCoresHeld(nodes, skipLabel, i, from);
      }
      if from == i {
        var t := SubnetTree(nodes, skipLabel, held, i);
        SubnetTreeDecodes(nodes, skipLabel, held, i);
        assert ([t] + rest)[1..] == rest;
      } else {
        assert [] + rest == rest;
      }
    }
  }

  lemma OwnTreeLists(nodes: seq<KubeNode>, skipLabel: string, i: nat)
    requires NamesDiffer(nodes) && i < |nodes| && Included(nodes[i], skipLabel) && Cores(nodes[i]) >= 1
    ensures ComputeNodes(JobTree(nodes, skipLabel, CoreIds(nodes, skipLabel, i)))
         == [NodeCores(Jgf.NODE_TYPE, nodes[i].name, Cores(nodes[i]))]
  {
    hide Included, CoreIds, SubnetTrees, Cores, NamesDiffer;
    OwnNodeListed(nodes, skipLabel, i, 0);
  }

  /** A job for pods of one core that holds all cores of a node counts as many tasks there. */
  lemma AllCoresAllTasks(nodes: seq<KubeNode>, skipLabel: string, i: nat)
    requires NamesDiffer(nodes) && i < |nodes| && Included(nodes[i], skipLabel)
    requires 1 <= Cores(nodes[i]) <= INT32_MAX
    ensures Answer(JobTree(nodes, skipLabel, CoreIds(nodes, skipLabel, i)), 1)
         == [NodeAlloc(nodes[i].name, Cores(nodes[i]))]
    ensures TasksAt(Answer(JobTree(nodes, skipLabel, CoreIds(nodes, skipLabel, i)), 1), nodes[i].name) == Cores(nodes[i])
  {
    hide Included, CoreIds, JobTree, ComputeNodes, Cores, NamesDiffer;
    var t := JobTree(nodes, skipLabel, CoreIds(nodes, skipLabel, i));
    OwnTreeLists(nodes, skipLabel, i);
    JobTreeLists(nodes, skipLabel, CoreIds(nodes, skipLabel, i));
    DecodesCoveredTree(t);
    TasksAreSlotsExactly(Cores(nodes[i]), 1);
    TasksAtOnlyEntry(Answer(t, 1), 0);
  }

  /** A pod of one core. */
  const ONE_CORE := [Container(1000, 0, 0, 0)]

  lemma OneCoreAsked()
    ensures Sized(ONE_CORE) && JobCpu(ONE_CORE) == 1 && MilliCpu(ONE_CORE) == 1000
  {
    assert ONE_CORE[..0] == [];
  }

  lemma LoadOfOneJob(live: map<JobId, Grant>, trees: map<JobId, Tree>, name: string)
    requires 1 in live && 1 in trees && live[1].pod == ONE_CORE
    requires JobCpu(ONE_CORE) == 1 && MilliCpu(ONE_CORE) == 1000
    ensures Load([1], live, trees, name) == 1000 * Trips(TasksAt(Answer(trees[1], 1), name))
  {
    hide Answer, TasksAt, JobCpu, MilliCpu, ONE_CORE;
    assert Load([1][1..], live, trees, name) == 0;
  }

  /** Some run fills any node up: less than one core of what it has is left unpromised. */
  lemma PromiseIsSharp(nodes: seq<KubeNode>, skipLabel: string, i: nat) returns (steps: seq<Step>)
    requires NamesDiffer(nodes) && i < |nodes| && Included(nodes[i], skipLabel)
    requires 1 <= Cores(nodes[i]) <= INT32_MAX
    ensures Possible(steps) && Run(steps).live.Keys == {1} && AllSized(Run(steps).live)
    ensures JobCpu(Run(steps).live[1].pod) == 1
    ensures TasksAt(Answer(JobTree(nodes, skipLabel, Run(steps).live[1].cores), 1), nodes[i].name) >= 1
    ensures TotalRequest(nodes[i].pods, CPU)
            + Load([1], Run(steps).live, LiveTrees(nodes, skipLabel, Run(steps).live), nodes[i].name)
            > nodes[i].cpu - 1000
  {
    hide Run, Possible, JobTree, Answer, TasksAt, Load, Included, CoreIds, Cores, TotalRequest, Sized, JobCpu, MilliCpu,
         ONE_CORE, FullName;
    var grant := Grant(CoreIds(nodes, skipLabel, i), ONE_CORE);
    steps := AdmittedRun(FullName("ns", "group"), "ns", "group", grant);
    OneCoreAsked();
    AllCoresAllTasks(nodes, skipLabel, i);
    LoadOfOneJob(Run(steps).live, LiveTrees(nodes, skipLabel, Run(steps).live), nodes[i].name);
    CoresUnderReport(nodes[i]);
  }

  // ---- Admission ----

  function NodeIds(answer: seq<NodeAlloc>): seq<string> {
    seq(|answer|, i requires 0 <= i < |answer| => answer[i].nodeId)
  }

  /** An answer never lists a node twice. */
  lemma AnswerNodesDiffer(nodes: seq<KubeNode>, skipLabel: string, held: set<nat>, cpu: int)
    requires NamesDiffer(nodes) && cpu != 0
    ensures AllDifferent(NodeIds(Answer(JobTree(nodes, skipLabel, held), cpu)))
  {
    hide JobTree;
    JobTreeLists(nodes, skipLabel, held);
    DecodesCoveredTree(JobTree(nodes, skipLabel, held));
  }

  /** The cores of a job, node by node, make up `count` slots of the size its pod asks for. */
  ghost predicate GrantInSlots(nodes: seq<KubeNode>, skipLabel: string, grant: Grant, slots: seq<int>, count: int) {
    InSlots(ComputeNodes(JobTree(nodes, skipLabel, grant.cores)), slots, JobCpu(grant.pod), count)
  }

  /** The reply carries the nodes Match reads off the job's cores. */
  ghost predicate Reported(nodes: seq<KubeNode>, skipLabel: string, answer: MatchReply) {
    answer.Matched?
    && answer.nodes == NodeIds(Answer(JobTree(nodes, skipLabel, answer.grant.cores), JobCpu(answer.grant.pod)))
  }

  /** What an allocation in slots means for the answer read off it. */
  lemma SlotsReported(nodes: seq<KubeNode>, skipLabel: string, answer: MatchReply, slots: seq<int>, minMember: int,
                      pods: seq<string>)
    requires NamesDiffer(nodes) && Reported(nodes, skipLabel, answer)
    requires GrantInSlots(nodes, skipLabel, answer.grant, slots, minMember) && |pods| >= minMember
    ensures |answer.nodes| <= |pods| && AllDifferent(answer.nodes)
    ensures |answer.nodes| == |pods| <==> |pods| == minMember && forall i :: 0 <= i < |slots| ==> slots[i] == 1
  {
    hide JobTree, Answer, ComputeNodes, InSlots, JobCpu;
    var t, cpu := JobTree(nodes, skipLabel, answer.grant.cores), JobCpu(answer.grant.pod);
    JobTreeLists(nodes, skipLabel, answer.grant.cores);
    NodesFitPods(t, slots, cpu, minMember, pods);
    AnswerFitsExactly(t, slots, cpu, minMember, pods);
    AnswerNodesDiffer(nodes, skipLabel, answer.grant.cores, cpu);
  }

  /** PreFilter on the answer Match reads off an allocation of MinMember slots in the graph: no pod index is
      out of range, and with the cancel accepted and no pod event in between, the group keeps its job exactly
      when it has MinMember pods and every node got one slot; then its pods have nodes of their own. */
  method AdmitGroup(m: PodGroupManager, ns: string, groupLabel: string, minMember: int, pods: seq<string>, w: World,
                    ghost nodes: seq<KubeNode>, ghost skipLabel: string, ghost slots: seq<int>)
    returns (r: Result<()>)
    requires m.Valid() && Run(m.trace).pc.Idle? && groupLabel != "" && FullName(ns, groupLabel) !in m.permitted
    requires |pods| >= 1 && |pods| >= minMember
    requires FreshReply(m.trace, ns, groupLabel, w)
    requires NamesDiffer(nodes) && Reported(nodes, skipLabel, w.answer)
    requires GrantInSlots(nodes, skipLabel, w.answer.grant, slots, minMember)
    requires w.beforeSize == [] && w.newReply == Accepted
    modifies m
    ensures m.Valid() && Run(m.trace).pc.Idle? && r.Ok?
    ensures m.trace == PreFilterTrace(old(m.trace), ns, groupLabel, pods, w)
    ensures FullName(ns, groupLabel) in m.groupToJobId <==>
            |pods| == minMember && forall i :: 0 <= i < |slots| ==> slots[i] == 1
    ensures |w.answer.nodes| <= |pods| && (Quiet(w) ==> m.podToNode == Assigned(old(m.podToNode), pods, w.answer.nodes))
    ensures FullName(ns, groupLabel) in m.groupToJobId && AllDifferent(pods) ==>
            && (forall p :: p in pods ==> p in m.podToNode)
            && (forall p, q :: p in pods && q in pods && p != q ==> m.podToNode[p] != m.podToNode[q])
  {
    hide Reported, GrantInSlots, Run, PreFilterTrace, FullName, FreshReply, Quiet, NamesDiffer, Assigned;
    SlotsReported(nodes, skipLabel, w.answer, slots, minMember, pods);
    AnswerMatched(nodes, skipLabel, w.answer);
    r := m.PreFilter(ns, groupLabel, minMember, pods, w);
    if FullName(ns, groupLabel) in m.groupToJobId && AllDifferent(pods) {
      KeptGroupSpreadsOut(m.podToNode, pods, w.answer.nodes);
    }
  }

  lemma AnswerMatched(nodes: seq<KubeNode>, skipLabel: string, answer: MatchReply)
    requires Reported(nodes, skipLabel, answer)
    ensures answer.Matched?
  {
  }

  // ---- Pods placed after their job was cancelled ----

  /** Fluxion accepts every cancel, and nobody else runs. */
  function QuietWorld(answer: MatchReply): World {
    World([], [], [], [], [], Accepted, Accepted, {}, {}, answer)
  }

  /** All cores of a node with just one are one slot for pods of one core, and the answer names the node. */
  lemma OneSlot(nodes: seq<KubeNode>, skipLabel: string, i: nat, job: JobId)
    requires NamesDiffer(nodes) && i < |nodes| && Included(nodes[i], skipLabel) && Cores(nodes[i]) == 1
    ensures var grant := Grant(CoreIds(nodes, skipLabel, i), ONE_CORE);
            GrantInSlots(nodes, skipLabel, grant, [1], 1)
            && Reported(nodes, skipLabel, Matched(job, grant, [nodes[i].name]))
  {
    hide Included, CoreIds, JobTree, ComputeNodes, Cores, NamesDiffer, Answer, ONE_CORE, JobCpu;
    OneCoreAsked();
    OwnTreeLists(nodes, skipLabel, i);
    AllCoresAllTasks(nodes, skipLabel, i);
    assert Sum([1]) == 1 by { assert [1][1..] == []; }
  }

  /** Two groups admitted one after the other can both have a pod on a node's only free core: the first
      asked for one pod but has two, so its job is cancelled, its first pod is placed all the same, and
      Fluxion gives the core out again. The two pods ask for more than the node has left. */
  method PlacedWithoutBacking(cores: set<nat>, node: string, ghost nodes: seq<KubeNode>, ghost skipLabel: string,
                              ghost i: nat)
    returns (m: PodGroupManager)
    requires NamesDiffer(nodes) && i < |nodes| && Included(nodes[i], skipLabel) && Cores(nodes[i]) == 1
    requires cores == CoreIds(nodes, skipLabel, i) && node == nodes[i].name
    ensures fresh(m) && m.Valid() && m.podToNode == map["a" := node, "c" := node]
    ensures Run(m.trace).live == map[2 := Grant(cores, ONE_CORE)]
    ensures TotalRequest(nodes[i].pods, CPU) + 2 * MilliCpu(ONE_CORE) > nodes[i].cpu
  {
    hide NamesDiffer, Included, Cores, CoreIds, Run, PreFilterTrace, FullName, FreshReply, Reported, GrantInSlots,
         MilliCpu, ONE_CORE, TotalRequest, Possible, Assigned, Admission;
    var grant := Grant(cores, ONE_CORE);
    m := new PodGroupManager();
    StartRun();
    OneCoreAsked();
    CoresUnderReport(nodes[i]);
    TwoNames();

    var first := QuietWorld(Matched(1, grant, [node]));
    OneSlot(nodes, skipLabel, i, 1);
    QuietReply([], "ns", "g", ["a", "b"], first);
    var _ := AdmitGroup(m, "ns", "g", 1, ["a", "b"], first, nodes, skipLabel, [1]);
    ghost var t := m.trace;

    var second := QuietWorld(Matched(2, grant, [node]));
    OneSlot(nodes, skipLabel, i, 2);
    QuietReply(t, "ns", "h", ["c"], second);
    var _ := AdmitGroup(m, "ns", "h", 1, ["c"], second, nodes, skipLabel, [1]);
    TwoAssigned(node);
  }

  lemma TwoNames()
    ensures FullName("ns", "g") != FullName("ns", "h")
  {
    assert FullName("ns", "g")[3] == 'g' && FullName("ns", "h")[3] == 'h';
  }

  lemma TwoAssigned(node: string)
    ensures Assigned(Assigned(map[], ["a", "b"], [node]), ["c"], [node]) == map["a" := node, "c" := node]
  {
    assert [node][..0] == [];
  }

  /** An undisturbed PreFilter of a group without a job: its answer is fresh, and what it leaves behind. */
  lemma QuietReply(t: seq<Step>, ns: string, groupLabel: string, pods: seq<string>, w: World)
    requires Possible(t) && Run(t).pc.Idle? && groupLabel != "" && Quiet(w) && w.answer.Matched? && w.newReply == Accepted
    requires FullName(ns, groupLabel) !in Run(t).jobOf && FullName(ns, groupLabel) !in Run(t).permitted
    requires w.answer.job !in Run(t).used && Run(t).live == map[]
    ensures FreshReply(t, ns, groupLabel, w)
    ensures Run(PreFilterTrace(t, ns, groupLabel, pods, w))
         == Admitted(Run(t), FullName(ns, groupLabel), w.answer.job, w.answer.grant, |w.answer.nodes| == |pods|)
  {
    hide Run, Possible, FullName, PreFilterTrace, BeforeMatch;
    QuietPreFilter(t, ns, groupLabel, pods, w);
    AdmissionRun(t, ns, groupLabel, w.answer.job, w.answer.grant, |w.answer.nodes| == |pods|);
  }
}
