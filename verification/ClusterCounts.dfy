/** How many vertices, edges, cores and memory vertices the built graph has, and how that compares with the nodes. */
module ClusterCounts {
  import opened Cluster
  import opened GoInt
  import opened Jgf

  /** Vertices of one kind among the items. */
  function OfType(items: seq<Item>, rtype: string): nat {
    if items == [] then 0
    else OfType(items[..|items| - 1], rtype) + (if items[|items| - 1].rtype == rtype then 1 else 0)
  }

  lemma {:induction false} OfTypeConcat(a: seq<Item>, b: seq<Item>, rtype: string)
    ensures OfType(a + b, rtype) == OfType(a, rtype) + OfType(b, rtype)
  {
    if b == [] {
      assert a + b == a;
    } else {
      var n := |b| - 1;
      assert (a + b)[..|a + b| - 1] == a + b[..n];
      OfTypeConcat(a, b[..n], rtype);
    }
  }

  lemma {:induction false} OfTypeUniform(items: seq<Item>, own: string, rtype: string)
    requires forall k :: 0 <= k < |items| ==> items[k].rtype == own
    ensures OfType(items, rtype) == if own == rtype then |items| else 0
  {
    if items != [] {
      OfTypeUniform(items[..|items| - 1], own, rtype);
    }
  }

  /** How many vertices of a type an included node brings. */
  function Brings(node: KubeNode, rtype: string): nat {
    if rtype == SUBNET_TYPE || rtype == NODE_TYPE then 1
    else if rtype == CORE_TYPE then Cores(node)
    else if rtype == MEMORY_TYPE then MemoryVertices(node)
    else if rtype == GPU_TYPE then Gpus(node)
    else 0
  }

  lemma BlockCounts(node: KubeNode, subnet: nat, pos: nat, at: nat, rtype: string)
    ensures OfType(Block(node, subnet, pos, at), rtype) == Brings(node, rtype)
    ensures |Block(node, subnet, pos, at)| == 2 + Gpus(node) + Cores(node) + MemoryVertices(node)
  {
    hide OfType, Zone, Gpus, Cores, MemoryVertices;
    var ni := NodeItem(node, subnet, pos, at);
    var h := [SubnetItem(node, subnet), ni];
    var g := GpuItems(Gpus(node), ni, at + 1);
    var c := CoreItems(Cores(node), ni, at + 1);
    var m := MemoryItems(MemoryVertices(node), ni, at + 1);
    BlockCount(h, g, c, m, rtype);
  }

  lemma BlockCount(h: seq<Item>, g: seq<Item>, c: seq<Item>, m: seq<Item>, rtype: string)
    requires |h| == 2 && h[0].rtype == SUBNET_TYPE && h[1].rtype == NODE_TYPE
    requires forall k :: 0 <= k < |g| ==> g[k].rtype == GPU_TYPE
    requires forall k :: 0 <= k < |c| ==> c[k].rtype == CORE_TYPE
    requires forall k :: 0 <= k < |m| ==> m[k].rtype == MEMORY_TYPE
    ensures OfType(h + g + c + m, rtype)
         == if rtype == SUBNET_TYPE || rtype == NODE_TYPE then 1
            else if rtype == CORE_TYPE then |c| else if rtype == MEMORY_TYPE then |m|
            else if rtype == GPU_TYPE then |g| else 0
  {
    OfTypeConcat(h + g + c, m, rtype);
    OfTypeConcat(h + g, c, rtype);
    OfTypeConcat(h, g, rtype);
    OfTypeUniform(g, GPU_TYPE, rtype);
    OfTypeUniform(c, CORE_TYPE, rtype);
    OfTypeUniform(m, MEMORY_TYPE, rtype);
    assert h == [h[0]] + [h[1]];
    OfTypeConcat([h[0]], [h[1]], rtype);
    OneItem(h[0], rtype);
    OneItem(h[1], rtype);
  }

  /** The closed form: a root, and for each included node a subnet, the node and its leaves. */
  function ExpectedVertices(nodes: seq<KubeNode>, skipLabel: string): nat {
    if nodes == [] then 1
    else
      var node := nodes[|nodes| - 1];
      ExpectedVertices(nodes[..|nodes| - 1], skipLabel)
      + if Included(node, skipLabel) then 2 + Gpus(node) + Cores(node) + MemoryVertices(node) else 0
  }

  /** Vertices of one type, over the included nodes. */
  function ExpectedOf(nodes: seq<KubeNode>, skipLabel: string, rtype: string): nat {
    if nodes == [] then 0
    else
      var node := nodes[|nodes| - 1];
      ExpectedOf(nodes[..|nodes| - 1], skipLabel, rtype) + if Included(node, skipLabel) then Brings(node, rtype) else 0
  }

  lemma {:induction false} PlanCounts(nodes: seq<KubeNode>, skipLabel: string, rtype: string)
    requires rtype != CLUSTER_TYPE
    ensures |Plan(nodes, skipLabel)| == ExpectedVertices(nodes, skipLabel)
    ensures OfType(Plan(nodes, skipLabel), rtype) == ExpectedOf(nodes, skipLabel, rtype)
  {
    hide Block, Included, Brings;
    if nodes == [] {
      OneItem(CLUSTER_ITEM, rtype);
    } else {
      var n := |nodes| - 1;
      PlanCounts(nodes[..n], skipLabel, rtype);
      var before := Plan(nodes[..n], skipLabel);
      var s := Subnets(nodes[..n], skipLabel);
      BlockCounts(nodes[n], s, n, |before|, rtype);
      OfTypeConcat(before, Block(nodes[n], s, n, |before|), rtype);
    }
  }

  lemma OneItem(it: Item, rtype: string)
    ensures OfType([it], rtype) == if it.rtype == rtype then 1 else 0
  {
  }

  lemma {:induction false} EdgeCount(items: seq<Item>)
    requires items != []
    ensures |EdgesOf(items)| == 2 * (|items| - 1)
  {
    if |items| > 1 {
      EdgeCount(items[..|items| - 1]);
    }
  }

  function VerticesOf(vs: seq<Vertex>, rtype: string): nat {
    if vs == [] then 0
    else VerticesOf(vs[..|vs| - 1], rtype) + (if vs[|vs| - 1].vtype == rtype then 1 else 0)
  }

  lemma {:induction false} VerticesAreItems(vs: seq<Vertex>, items: seq<Item>, rtype: string)
    requires |vs| == |items| && forall k :: 0 <= k < |items| ==> vs[k].vtype == items[k].rtype
    ensures VerticesOf(vs, rtype) == OfType(items, rtype)
  {
    if vs != [] {
      VerticesAreItems(vs[..|vs| - 1], items[..|items| - 1], rtype);
    }
  }

  /** Vertices and edges of the built graph in closed form, and the vertices of each type below the root. */
  lemma GraphCounts(nodes: seq<KubeNode>, skipLabel: string, rtype: string)
    requires rtype != CLUSTER_TYPE
    ensures
      var g := GraphOf(Plan(nodes, skipLabel));
      && |g.vertices| == ExpectedVertices(nodes, skipLabel)
      && |g.edges| == 2 * (|g.vertices| - 1)
      && VerticesOf(g.vertices, rtype) == ExpectedOf(nodes, skipLabel, rtype)
  {
    hide Plan, GraphOf, Agreement;
    var items := Plan(nodes, skipLabel);
    GraphOfRealizes(items);
    PlanCounts(nodes, skipLabel, rtype);
    EdgeCount(items);
    VerticesAreItems(GraphOf(items).vertices, items, rtype);
  }

  ghost predicate NoneNegative(nodes: seq<KubeNode>, skipLabel: string) {
    forall i :: 0 <= i < |nodes| && Included(nodes[i], skipLabel) ==> AvailCpu(nodes[i]) >= 0
  }

  lemma {:induction false} TotalAgainstCores(nodes: seq<KubeNode>, skipLabel: string)
    ensures TotalCpu(nodes, skipLabel) <= ExpectedOf(nodes, skipLabel, CORE_TYPE)
    ensures TotalCpu(nodes, skipLabel) == ExpectedOf(nodes, skipLabel, CORE_TYPE) <==> NoneNegative(nodes, skipLabel)
  {
    if nodes != [] {
      hide Included, AvailCpu;
      var n := |nodes| - 1;
      TotalAgainstCores(nodes[..n], skipLabel);
      assert NoneNegative(nodes, skipLabel) <==>
             NoneNegative(nodes[..n], skipLabel) && (Included(nodes[n], skipLabel) ==> AvailCpu(nodes[n]) >= 0);
    }
  }

  /** The cpu total that is printed never promises more than the core vertices made, and is exact
      just when no included node is overcommitted by a whole core or more. */
  lemma PrintedTotalAgainstGraph(nodes: seq<KubeNode>, skipLabel: string)
    ensures
      var cores := VerticesOf(GraphOf(Plan(nodes, skipLabel)).vertices, CORE_TYPE);
      && TotalCpu(nodes, skipLabel) <= cores
      && (TotalCpu(nodes, skipLabel) == cores <==>
          forall i :: 0 <= i < |nodes| && Included(nodes[i], skipLabel)
            ==> nodes[i].cpu - TotalRequest(nodes[i].pods, CPU) > -1000)
  {
    hide GraphOf, Plan, Included, TotalRequest;
    GraphCounts(nodes, skipLabel, CORE_TYPE);
    TotalAgainstCores(nodes, skipLabel);
    forall i | 0 <= i < |nodes|
      ensures AvailCpu(nodes[i]) >= 0 <==> nodes[i].cpu - TotalRequest(nodes[i].pods, CPU) > -1000
    {
      TruncatedSign(nodes[i].cpu - TotalRequest(nodes[i].pods, CPU));
    }
  }

  lemma TruncatedSign(x: int)
    ensures Quot(x, 1000) >= 0 <==> x > -1000
  {
  }

  /** Cores never overstate a node: what is truncated away is less than one core. */
  lemma CoresUnderReport(node: KubeNode)
    ensures var left := node.cpu - TotalRequest(node.pods, CPU);
            && (left >= 0 ==> 0 <= left - 1000 * Cores(node) < 1000)
            && (left < 0 ==> Cores(node) == 0)
  {
    hide TotalRequest;
  }

  /** Memory vertices under-report what the requests leave of a node's memory by less than a GiB; none is made
      when they leave nothing. */
  lemma MemoryUnderReports(node: KubeNode)
    ensures var left := Value(node.memory) - Value(TotalRequest(node.pods, MEMORY));
            && (left >= 0 ==> 0 <= left - 0x4000_0000 * MemoryVertices(node) < 0x4000_0000)
            && (left < 0 ==> MemoryVertices(node) == 0)
  {
    hide TotalRequest, Value;
  }

  /** One gpu vertex for each allocatable gpu, a fraction counting as one; requests are not looked at. */
  lemma GpusAllReported(node: KubeNode)
    ensures node.gpu.None? ==> Gpus(node) == 0
    ensures node.gpu.Some? && node.gpu.value >= 0 ==> LeastCover(Gpus(node), node.gpu.value)
    ensures node.gpu.Some? && node.gpu.value < 0 ==> Gpus(node) == 0
  {
  }

  /** What the printed total adds for a node is its free cpu in whole cores, truncated toward zero. */
  lemma AvailCpuTruncates(node: KubeNode)
    ensures var left := node.cpu - TotalRequest(node.pods, CPU);
            if left >= 0 then 0 <= left - 1000 * AvailCpu(node) < 1000 else -1000 < left - 1000 * AvailCpu(node) <= 0
  {
    hide TotalRequest;
  }
}
