/** Building the resource graph from the cluster's node list. */
module Cluster {
  import opened Decimal
  import opened GoInt
  import opened Jgf
  import opened Wrappers

  const CONTROL_PLANE_LABEL := "node-role.kubernetes.io/control-plane"
  const ZONE_LABEL := "topology.kubernetes.io/zone"
  const CLUSTER_NAME := "k8scluster"
  const ROOT := "k8scluster0"
  const CPU := "cpu"
  const MEMORY := "memory"

  type Requests = map<string, Quantity>

  /** What the API reports of a node, with the requests of the unfinished pods bound to it. */
  datatype KubeNode = KubeNode(
    name: string,
    labels: map<string, string>,
    unschedulable: bool,
    cpu: Quantity,
    memory: Quantity,
    gpu: Option<Quantity>,
    pods: seq<Requests>)

  predicate Included(node: KubeNode, skipLabel: string) {
    && CONTROL_PLANE_LABEL !in node.labels
    && (skipLabel != "" ==> skipLabel !in node.labels)
    && !node.unschedulable
  }

  function Zone(node: KubeNode): string {
    if ZONE_LABEL in node.labels then node.labels[ZONE_LABEL] else ""
  }

  // ---- Requests of the pods already there ----

  function RequestOf(pod: Requests, name: string): Quantity {
    if name in pod then pod[name] else 0
  }

  function TotalRequest(pods: seq<Requests>, name: string): Quantity {
    if pods == [] then 0
    else TotalRequest(pods[..|pods| - 1], name) + RequestOf(pods[|pods| - 1], name)
  }

  /** Per resource name, the sum over the pods; names are exactly those some pod requests. */
  method ComputeTotalRequests(pods: seq<Requests>) returns (total: map<string, Quantity>)
    ensures forall name :: name in total <==> exists pod :: pod in pods && name in pod
    ensures forall name :: RequestOf(total, name) == TotalRequest(pods, name)
  {
    total := map[];
    for i := 0 to |pods|
      invariant forall name :: name in total <==> exists pod :: pod in pods[..i] && name in pod
      invariant forall name :: RequestOf(total, name) == TotalRequest(pods[..i], name)
    {
      ghost var before := total;
      assert pods[..i + 1][..i] == pods[..i];
      var names := pods[i].Keys;
      while names != {}
        invariant names <= pods[i].Keys
        invariant forall name :: name in total <==> name in before || name in pods[i].Keys - names
        invariant forall name :: RequestOf(total, name) ==
                                 RequestOf(before, name) + (if name in names then 0 else RequestOf(pods[i], name))
        decreases |names|
      {
        var name :| name in names;
        if name !in total {
          total := total[name := pods[i][name]];
        } else {
          total := total[name := total[name] + pods[i][name]];
        }
        names := names - {name};
      }
      assert forall pod :: pod in pods[..i + 1] <==> pod in pods[..i] || pod == pods[i];
    }
    assert pods[..|pods|] == pods;
  }

  /** The totals do not depend on the order in which the pods are listed. */
  lemma {:induction false} TotalRequestAnyOrder(p: seq<Requests>, q: seq<Requests>, name: string)
    requires multiset(p) == multiset(q)
    ensures TotalRequest(p, name) == TotalRequest(q, name)
    decreases |p|
  {
    if p == [] {
      assert |q| == |multiset(q)| == |multiset(p)| == 0;
    } else {
      var n := |p| - 1;
      assert p == p[..n] + [p[n]];
      assert p[n] in multiset(q);
      var i :| 0 <= i < |q| && q[i] == p[n];
      var rest := q[..i] + q[i + 1..];
      assert q == q[..i] + [q[i]] + q[i + 1..];
      assert multiset(q) == multiset(rest + [q[i]]);
      assert multiset(rest) == multiset(q) - multiset{p[n]} == multiset(p) - multiset{p[n]} == multiset(p[..n]);
      TotalRequestAnyOrder(p[..n], rest, name);
      TotalRequestConcat(q[..i] + [q[i]], q[i + 1..], name);
      TotalRequestConcat(q[..i], [q[i]], name);
      TotalRequestConcat(q[..i], q[i + 1..], name);
    }
  }

  lemma {:induction false} TotalRequestConcat(p: seq<Requests>, q: seq<Requests>, name: string)
    ensures TotalRequest(p + q, name) == TotalRequest(p, name) + TotalRequest(q, name)
  {
    if q == [] {
      assert p + q == p;
    } else {
      var n := |q| - 1;
      assert (p + q)[..|p + q| - 1] == p + q[..n];
      TotalRequestConcat(p, q[..n], name);
    }
  }

  /** Each pod adds what it requests of a resource. */
  lemma EachPodAdds(pods: seq<Requests>, pod: Requests, name: string)
    ensures TotalRequest(pods + [pod], name) == TotalRequest(pods, name) + (if name in pod then pod[name] else 0)
    ensures TotalRequest([], name) == 0
  {
    assert (pods + [pod])[..|pods|] == pods;
  }

  // ---- What a node contributes ----

  /** Whole cores left after the requests, truncated toward zero as Go divides. */
  function AvailCpu(node: KubeNode): int {
    Quot(node.cpu - TotalRequest(node.pods, CPU), 1000)
  }

  function AvailMem(node: KubeNode): int {
    Value(node.memory) - Value(TotalRequest(node.pods, MEMORY))
  }

  function Gpus(node: KubeNode): nat {
    match node.gpu
    case None => 0
    case Some(q) => Trips(Value(q))
  }

  function Cores(node: KubeNode): nat {
    Trips(AvailCpu(node))
  }

  /** One memory vertex per whole GiB; Go's `>> 30` rounds down. */
  function MemoryVertices(node: KubeNode): nat {
    Trips(AvailMem(node) / 0x4000_0000)
  }

  // ---- The layout of the graph, stated on its own ----

  /** A vertex by position: what it is, the position of its parent, and its path below the root. */
  datatype Item = Item(
    rtype: string,
    basename: string,
    index: nat,
    parent: nat,
    segments: seq<string>,
    unit: string,
    size: int)

  function Join(segments: seq<string>): string {
    if segments == [] then ""
    else if |segments| == 1 then segments[0]
    else segments[0] + "/" + Join(segments[1..])
  }

  function ItemName(it: Item): string {
    it.basename + Print(it.index)
  }

  const CLUSTER_ITEM := Item(CLUSTER_TYPE, CLUSTER_NAME, 0, 0, [], DEFAULT_UNIT, DEFAULT_SIZE)

  function SubnetItem(node: KubeNode, subnet: nat): Item {
    Item(SUBNET_TYPE, Zone(node), subnet, 0, [Zone(node) + Digits(subnet)], DEFAULT_UNIT, DEFAULT_SIZE)
  }

  function NodeItem(node: KubeNode, subnet: nat, pos: nat, at: nat): Item {
    Item(NODE_TYPE, node.name, pos, at, [Zone(node) + Digits(subnet), node.name + Digits(pos)],
         DEFAULT_UNIT, DEFAULT_SIZE)
  }

  function LeafItem(rtype: string, basename: string, i: nat, parent: Item, at: nat, unit: string, size: int): Item {
    Item(rtype, basename, i, at, parent.segments + [basename + Digits(i)], unit, size)
  }

  function Leaves(rtype: string, basename: string, n: nat, parent: Item, at: nat, unit: string, size: int)
    : (s: seq<Item>)
    ensures |s| == n
  {
    seq(n, i requires 0 <= i => LeafItem(rtype, basename, i, parent, at, unit, size))
  }

  function GpuItems(n: nat, parent: Item, at: nat): seq<Item> {
    Leaves(GPU_TYPE, NVIDIA_GPU, n, parent, at, DEFAULT_UNIT, 1)
  }

  function CoreItems(n: nat, parent: Item, at: nat): seq<Item> {
    Leaves(CORE_TYPE, CORE_TYPE, n, parent, at, DEFAULT_UNIT, DEFAULT_SIZE)
  }

  function MemoryItems(n: nat, parent: Item, at: nat): seq<Item> {
    Leaves(MEMORY_TYPE, MEMORY_TYPE, n, parent, at, "MB", 1024)
  }

  /** The vertices of one included node, when `at` vertices are already there. */
  function Block(node: KubeNode, subnet: nat, pos: nat, at: nat): seq<Item> {
    var compute := NodeItem(node, subnet, pos, at);
    [SubnetItem(node, subnet), compute]
    + GpuItems(Gpus(node), compute, at + 1)
    + CoreItems(Cores(node), compute, at + 1)
    + MemoryItems(MemoryVertices(node), compute, at + 1)
  }

  /** Each included node brings a subnet of its own: the lookup of known subnets is never filled. */
  function Subnets(nodes: seq<KubeNode>, skipLabel: string): nat {
    if nodes == [] then 0
    else Subnets(nodes[..|nodes| - 1], skipLabel) + (if Included(nodes[|nodes| - 1], skipLabel) then 1 else 0)
  }

  function Plan(nodes: seq<KubeNode>, skipLabel: string): (s: seq<Item>)
    ensures |s| >= 1 && s[0] == CLUSTER_ITEM
  {
    if nodes == [] then [CLUSTER_ITEM]
    else
      var n := |nodes| - 1;
      var before := Plan(nodes[..n], skipLabel);
      if Included(nodes[n], skipLabel)
      then before + Block(nodes[n], Subnets(nodes[..n], skipLabel), n, |before|)
      else before
  }

  function TotalCpu(nodes: seq<KubeNode>, skipLabel: string): int {
    if nodes == [] then 0
    else
      var n := |nodes| - 1;
      TotalCpu(nodes[..n], skipLabel) + (if Included(nodes[n], skipLabel) then AvailCpu(nodes[n]) else 0)
  }

  /** Both directions of the edge between each vertex and its parent, in creation order. */
  function EdgesOf(items: seq<Item>): seq<Edge> {
    if |items| <= 1 then []
    else
      var k := |items| - 1;
      EdgesOf(items[..k])
      + [Edge(Digits(items[k].parent), Digits(k)), Edge(Digits(k), Digits(items[k].parent))]
  }

  function ItemVertex(it: Item, k: nat): Vertex {
    Vertex(Digits(k), it.rtype, it.basename, ItemName(it), it.index, k, DEFAULT_RANK, false, it.unit, it.size,
           NodePath(ROOT, Join(it.segments)))
  }

  /** The graph is laid out as the items say, and its counters agree with it. */
  ghost predicate Realizes(g: Graph, items: seq<Item>) {
    && g.root == ROOT
    && |g.vertices| == |items|
    && (forall k :: 0 <= k < |items| ==> g.vertices[k] == ItemVertex(items[k], k))
    && g.edges == EdgesOf(items)
    && Agreement(g)
  }

  /** One more vertex with its pair of edges. */
  function GrowGraph(g: Graph, it: Item): Graph {
    AddEdges(AddVertex(g, it.rtype, it.basename, it.index, Join(it.segments), it.unit, it.size),
             Digits(it.parent), Digits(g.elements))
  }

  function GraphOf(items: seq<Item>): Graph
    requires items != []
  {
    if |items| == 1 then Apply(EMPTY, CallInitCluster(CLUSTER_NAME))
    else GrowGraph(GraphOf(items[..|items| - 1]), items[|items| - 1])
  }

  lemma GraphOfGrows(items: seq<Item>, it: Item)
    requires items != []
    ensures GraphOf(items + [it]) == GrowGraph(GraphOf(items), it)
  {
  }

  lemma GrowLaysOut(g: Graph, items: seq<Item>, it: Item)
    requires Realizes(g, items) && items != []
    ensures Realizes(GrowGraph(g, it), items + [it])
  {
    AddVertexAgrees(g, it.rtype, it.basename, it.index, Join(it.segments), it.unit, it.size);
    EdgesGrow(items, it);
    var v := VertexOf(ROOT, ResourceCount(it.basename, it.rtype, |items|, it.index), Join(it.segments),
                      it.unit, it.size);
    assert v == ItemVertex(it, |items|);
  }

  lemma EdgesGrow(items: seq<Item>, it: Item)
    requires items != []
    ensures EdgesOf(items + [it])
         == EdgesOf(items) + [Edge(Digits(it.parent), Digits(|items|)), Edge(Digits(|items|), Digits(it.parent))]
  {
  }

  lemma ClusterLaidOut(it: Item)
    requires it == CLUSTER_ITEM
    ensures Realizes(GraphOf([it]), [it])
  {
    CountersAlwaysAgree([]);
    ApplyAgrees(EMPTY, CallInitCluster(CLUSTER_NAME));
    assert CLUSTER_NAME + "0" == ROOT;
  }

  lemma {:induction false} GraphOfRealizes(items: seq<Item>)
    requires items != [] && items[0] == CLUSTER_ITEM
    ensures Realizes(GraphOf(items), items)
  {
    hide Realizes, GrowGraph, Apply;
    var n := |items| - 1;
    if n == 0 {
      ClusterLaidOut(items[0]);
      assert items == [items[0]];
    } else {
      GraphOfRealizes(items[..n]);
      GrowLaysOut(GraphOf(items[..n]), items[..n], items[n]);
      assert items[..n] + [items[n]] == items;
    }
  }

  // ---- The program ----

  lemma GpusStep(items: seq<Item>, it: Item, at: nat, i: nat)
    requires items != [] && |it.segments| == 2
    ensures var g := GraphOf(items + GpuItems(i, it, at));
            Apply(Apply(g, CallGPU(NVIDIA_GPU, it.segments[0] + "/" + it.segments[1], 1, i)), CallEdges(Digits(at), Digits(g.elements)))
            == GraphOf(items + GpuItems(i + 1, it, at))
  {
    hide GraphOf, Digits, Join, AddVertex, AddEdges;
    var sofar := items + GpuItems(i, it, at);
    var leaf := LeafItem(GPU_TYPE, NVIDIA_GPU, i, it, at, DEFAULT_UNIT, 1);
    JoinLeaf(it, NVIDIA_GPU + Digits(i));
    GraphOfGrows(sofar, leaf);
    assert sofar + [leaf] == items + GpuItems(i + 1, it, at);
  }

  method AddGpus(g: FluxJGF, subnet: Vertex, compute: Vertex, count: int, ghost items: seq<Item>, ghost it: Item)
    requires items != [] && g.View() == GraphOf(items)
    requires HoldsNode(subnet, compute, it)
    modifies g
    ensures g.View() == GraphOf(items + GpuItems(Trips(count), it, compute.uniqId))
  {
    hide GraphOf, Apply;
    var index := 0;
    assert items + GpuItems(0, it, compute.uniqId) == items;
    while index < count
      invariant 0 <= index <= Trips(count)
      invariant g.View() == GraphOf(items + GpuItems(index, it, compute.uniqId))
    {
      GpusStep(items, it, compute.uniqId, index);
      var subpath := subnet.name + "/" + compute.name;
      var v := g.MakeGPU(NVIDIA_GPU, subpath, 1, index);
      g.MakeBidirectionalEdge(compute.id, v.id);
      index := index + 1;
    }
  }

  lemma CoresStep(items: seq<Item>, it: Item, at: nat, i: nat)
    requires items != [] && |it.segments| == 2
    ensures var g := GraphOf(items + CoreItems(i, it, at));
            Apply(Apply(g, CallCore(CORE_TYPE, it.segments[0] + "/" + it.segments[1], i)), CallEdges(Digits(at), Digits(g.elements)))
            == GraphOf(items + CoreItems(i + 1, it, at))
  {
    hide GraphOf, Digits, Join, AddVertex, AddEdges;
    var sofar := items + CoreItems(i, it, at);
    var leaf := LeafItem(CORE_TYPE, CORE_TYPE, i, it, at, DEFAULT_UNIT, DEFAULT_SIZE);
    JoinLeaf(it, CORE_TYPE + Digits(i));
    GraphOfGrows(sofar, leaf);
    assert sofar + [leaf] == items + CoreItems(i + 1, it, at);
  }

  method AddCores(g: FluxJGF, subnet: Vertex, compute: Vertex, count: int, ghost items: seq<Item>, ghost it: Item)
    requires items != [] && g.View() == GraphOf(items)
    requires HoldsNode(subnet, compute, it)
    modifies g
    ensures g.View() == GraphOf(items + CoreItems(Trips(count), it, compute.uniqId))
  {
    hide GraphOf, Apply;
    var index := 0;
    assert items + CoreItems(0, it, compute.uniqId) == items;
    while index < count
      invariant 0 <= index <= Trips(count)
      invariant g.View() == GraphOf(items + CoreItems(index, it, compute.uniqId))
    {
      CoresStep(items, it, compute.uniqId, index);
      var subpath := subnet.name + "/" + compute.name;
      var v := g.MakeCore(CORE_TYPE, subpath, index);
      g.MakeBidirectionalEdge(compute.id, v.id);
      index := index + 1;
    }
  }

  lemma MemoryStep(items: seq<Item>, it: Item, at: nat, i: nat)
    requires items != [] && |it.segments| == 2
    ensures var g := GraphOf(items + MemoryItems(i, it, at));
            Apply(Apply(g, CallMemory(MEMORY_TYPE, it.segments[0] + "/" + it.segments[1], 1024, i)), CallEdges(Digits(at), Digits(g.elements)))
            == GraphOf(items + MemoryItems(i + 1, it, at))
  {
    hide GraphOf, Digits, Join, AddVertex, AddEdges;
    var sofar := items + MemoryItems(i, it, at);
    var leaf := LeafItem(MEMORY_TYPE, MEMORY_TYPE, i, it, at, "MB", 1024);
    JoinLeaf(it, MEMORY_TYPE + Digits(i));
    GraphOfGrows(sofar, leaf);
    assert sofar + [leaf] == items + MemoryItems(i + 1, it, at);
  }

  method AddMemory(g: FluxJGF, subnet: Vertex, compute: Vertex, count: int, ghost items: seq<Item>, ghost it: Item)
    requires items != [] && g.View() == GraphOf(items)
    requires HoldsNode(subnet, compute, it)
    modifies g
    ensures g.View() == GraphOf(items + MemoryItems(Trips(count), it, compute.uniqId))
  {
    hide GraphOf, Apply;
    var index := 0;
    assert items + MemoryItems(0, it, compute.uniqId) == items;
    while index < count
      invariant 0 <= index <= Trips(count)
      invariant g.View() == GraphOf(items + MemoryItems(index, it, compute.uniqId))
    {
      MemoryStep(items, it, compute.uniqId, index);
      var subpath := subnet.name + "/" + compute.name;
      var v := g.MakeMemory(MEMORY_TYPE, subpath, 1024, index);
      g.MakeBidirectionalEdge(compute.id, v.id);
      index := index + 1;
    }
  }

  /** `compute` is the vertex of item `it`, directly under `subnet`. */
  ghost predicate HoldsNode(subnet: Vertex, compute: Vertex, it: Item) {
    it.segments == [subnet.name, compute.name] && compute.id == Digits(compute.uniqId)
  }

  lemma JoinLeaf(it: Item, name: string)
    requires |it.segments| == 2
    ensures Join(it.segments + [name]) == Under(it.segments[0] + "/" + it.segments[1], name)
  {
    assert (it.segments + [name])[1..] == [it.segments[1], name];
    assert [it.segments[1], name][1..] == [name];
    assert Join([it.segments[1], name]) == it.segments[1] + "/" + name;
  }

  /** The subnet and the compute node of one pass, each linked to its parent. */
  method LinkNode(g: FluxJGF, clusterId: string, node: KubeNode, subnetCounter: nat, nodeCount: nat,
                  ghost items: seq<Item>)
    returns (subnetNode: Vertex, computeNode: Vertex)
    requires items != [] && g.View() == GraphOf(items) && clusterId == Digits(0)
    modifies g
    ensures var ni := NodeItem(node, subnetCounter, nodeCount, |items|);
            && HoldsNode(subnetNode, computeNode, ni) && computeNode.uniqId == |items| + 1
            && g.View() == GraphOf(items + [SubnetItem(node, subnetCounter)] + [ni])
  {
    hide GraphOf, Apply, Digits, Zone;
    ghost var si := SubnetItem(node, subnetCounter);
    ghost var ni := NodeItem(node, subnetCounter, nodeCount, |items|);
    GraphOfSize(items);
    SubnetCall(g.View(), Zone(node), subnetCounter, si);
    GraphOfGrows(items, si);
    subnetNode := g.MakeSubnet(Zone(node), subnetCounter);
    g.MakeBidirectionalEdge(clusterId, subnetNode.id);

    GraphOfSize(items + [si]);
    NodeCall(g.View(), subnetNode.name, node.name, nodeCount, |items|, ni);
    GraphOfGrows(items + [si], ni);
    computeNode := g.MakeNode(node.name, subnetNode.name, nodeCount);
    g.MakeBidirectionalEdge(subnetNode.id, computeNode.id);
  }

  /** Allocatable minus the requests of the pods already there. */
  method Available(node: KubeNode) returns (availCpu: int, availMem: int)
    ensures availCpu == AvailCpu(node) && availMem == AvailMem(node)
  {
    var reqs := ComputeTotalRequests(node.pods);
    var cpuReqs := RequestOf(reqs, CPU);
    var memReqs := RequestOf(reqs, MEMORY);
    availCpu := Quot(node.cpu - cpuReqs, 1000);
    availMem := Value(node.memory) - Value(memReqs);
  }

  /** One pass of the loop over the nodes, for a node that is not skipped. */
  method AddNode(g: FluxJGF, clusterId: string, node: KubeNode, subnetCounter: nat, nodeCount: nat,
                 ghost items: seq<Item>)
    returns (availCpu: int)
    requires items != [] && g.View() == GraphOf(items) && clusterId == Digits(0)
    modifies g
    ensures availCpu == AvailCpu(node)
    ensures g.View() == GraphOf(items + Block(node, subnetCounter, nodeCount, |items|))
  {
    hide GraphOf, GpuItems, CoreItems, MemoryItems, HoldsNode, AvailCpu, AvailMem, NodeItem, SubnetItem;
    ghost var at := |items| + 1;
    ghost var si := SubnetItem(node, subnetCounter);
    ghost var ni := NodeItem(node, subnetCounter, nodeCount, |items|);
    var subnetNode, computeNode := LinkNode(g, clusterId, node, subnetCounter, nodeCount, items);
    var availMem;
    availCpu, availMem := Available(node);
    ghost var sofar := items + [si] + [ni];
    if node.gpu.Some? {
      AddGpus(g, subnetNode, computeNode, Value(node.gpu.value), sofar, ni);
    } else {
      NoGpus(sofar, ni, at);
    }
    sofar := sofar + GpuItems(Gpus(node), ni, at);
    AddCores(g, subnetNode, computeNode, availCpu, sofar, ni);
    sofar := sofar + CoreItems(Cores(node), ni, at);
    AddMemory(g, subnetNode, computeNode, availMem / 0x4000_0000, sofar, ni);
    assert items + Block(node, subnetCounter, nodeCount, |items|)
        == sofar + MemoryItems(MemoryVertices(node), ni, at);
  }

  lemma NoGpus(items: seq<Item>, it: Item, at: nat)
    ensures items + GpuItems(0, it, at) == items
  {
  }

  lemma {:induction false} GraphOfSize(items: seq<Item>)
    requires items != []
    ensures GraphOf(items).elements == |items| && GraphOf(items).root == ROOT
  {
    if |items| > 1 {
      GraphOfSize(items[..|items| - 1]);
    }
  }

  /** Making and linking a subnet is growing the graph by its item. */
  lemma SubnetCall(g: Graph, zone: string, subnet: nat, it: Item)
    requires it == Item(SUBNET_TYPE, zone, subnet, 0, [zone + Digits(subnet)], DEFAULT_UNIT, DEFAULT_SIZE)
    ensures Apply(Apply(g, CallSubnet(zone, subnet)), CallEdges(Digits(0), Digits(g.elements))) == GrowGraph(g, it)
  {
  }

  lemma NodeCall(g: Graph, subnetName: string, name: string, pos: nat, at: nat, it: Item)
    requires it == Item(NODE_TYPE, name, pos, at, [subnetName, name + Digits(pos)], DEFAULT_UNIT, DEFAULT_SIZE)
    ensures Apply(Apply(g, CallNode(name, subnetName, pos)), CallEdges(Digits(at), Digits(g.elements)))
         == GrowGraph(g, it)
  {
    hide Digits, Join, AddVertex, AddEdges;
    JoinNode(subnetName, name + Digits(pos));
  }

  lemma JoinNode(a: string, b: string)
    ensures Join([a, b]) == Under(a, b)
  {
  }

  lemma PlanStart(skipLabel: string)
    ensures GraphOf(Plan([], skipLabel)) == Apply(EMPTY, CallInitCluster(CLUSTER_NAME))
    ensures Subnets([], skipLabel) == 0 && TotalCpu([], skipLabel) == 0
  {
    hide Apply;
  }

  lemma PlanStep(nodes: seq<KubeNode>, skipLabel: string, i: nat)
    requires i < |nodes|
    ensures var before, node := nodes[..i], nodes[i];
            var items, s := Plan(before, skipLabel), Subnets(before, skipLabel);
            if Included(node, skipLabel) then
              && Plan(nodes[..i + 1], skipLabel) == items + Block(node, s, i, |items|)
              && Subnets(nodes[..i + 1], skipLabel) == s + 1
              && TotalCpu(nodes[..i + 1], skipLabel) == TotalCpu(before, skipLabel) + AvailCpu(node)
            else
              && Plan(nodes[..i + 1], skipLabel) == items && Subnets(nodes[..i + 1], skipLabel) == s
              && TotalCpu(nodes[..i + 1], skipLabel) == TotalCpu(before, skipLabel)
  {
    hide Block, Included, AvailCpu;
    assert nodes[..i + 1][..i] == nodes[..i];
  }

  /** The whole build: the graph laid out as planned, and the cpu total that is printed. */
  method CreateInClusterJGF(nodes: seq<KubeNode>, skipLabel: string)
    returns (g: FluxJGF, totalAllocCpu: int)
    ensures fresh(g)
    ensures g.View() == GraphOf(Plan(nodes, skipLabel)) && Realizes(g.View(), Plan(nodes, skipLabel))
    ensures totalAllocCpu == TotalCpu(nodes, skipLabel)
  {
    hide Apply, Block, Realizes, AvailCpu, Plan, GraphOf, Subnets, TotalCpu;
    PlanStart(skipLabel);
    g := new FluxJGF();
    var clusterNode := g.InitCluster(CLUSTER_NAME);
    totalAllocCpu := 0;
    var subnetCounter := 0;
    for nodeCount := 0 to |nodes|
      invariant g.View() == GraphOf(Plan(nodes[..nodeCount], skipLabel))
      invariant subnetCounter == Subnets(nodes[..nodeCount], skipLabel)
      invariant totalAllocCpu == TotalCpu(nodes[..nodeCount], skipLabel)
    {
      var node := nodes[nodeCount];
      PlanStep(nodes, skipLabel, nodeCount);
      if CONTROL_PLANE_LABEL in node.labels {
        continue;
      }
      if skipLabel != "" && skipLabel in node.labels {
        continue;
      }
      if node.unschedulable {
        continue;
      }
      var availCpu := AddNode(g, clusterNode.value.id, node, subnetCounter, nodeCount,
                              Plan(nodes[..nodeCount], skipLabel));
      subnetCounter := subnetCounter + 1;
      totalAllocCpu := totalAllocCpu + availCpu;
    }
    assert nodes[..|nodes|] == nodes;
    GraphOfRealizes(Plan(nodes, skipLabel));
  }
}
