/** The JSON graph format builder: vertices, edges, the id map and the resource counters. */
module Jgf {
  import opened Decimal
  import opened Wrappers

  const CLUSTER_TYPE := "cluster"
  const NODE_TYPE := "node"
  const CORE_TYPE := "core"
  const SUBNET_TYPE := "subnet"
  const MEMORY_TYPE := "memory"
  const NVIDIA_GPU := "nvidiagpu"
  const GPU_TYPE := "gpu"

  const DEFAULT_RANK := -1
  const DEFAULT_SIZE := 1
  const DEFAULT_UNIT := ""

  datatype Vertex = Vertex(
    id: string,
    vtype: string,
    basename: string,
    name: string,
    index: int,
    uniqId: nat,
    rank: int,
    exclusive: bool,
    unit: string,
    size: int,
    path: string)

  /** An edge carries no relation: `MakeEdge` drops its third argument. */
  datatype Edge = Edge(source: string, target: string)

  datatype ResourceCount = ResourceCount(name: string, rtype: string, elementId: nat, index: int)

  /** The value of a `FluxJGF` object. */
  datatype Graph = Graph(
    vertices: seq<Vertex>,
    edges: seq<Edge>,
    nodeMap: map<string, Vertex>,
    counts: map<string, int>,
    elements: nat,
    root: string)

  function CountOf(counts: map<string, int>, name: string): int {
    if name in counts then counts[name] else 0
  }

  function NodePath(root: string, subpath: string): string {
    if subpath == "" then "/" + root else "/" + root + "/" + subpath
  }

  function Under(subpath: string, name: string): string {
    subpath + "/" + name
  }

  function NameWithIndex(rc: ResourceCount): string {
    rc.name + Print(rc.index)
  }

  function VertexOf(root: string, rc: ResourceCount, subpath: string, unit: string, size: int): Vertex {
    Vertex(Digits(rc.elementId), rc.rtype, rc.name, NameWithIndex(rc), rc.index, rc.elementId,
           DEFAULT_RANK, false, unit, size, NodePath(root, subpath))
  }

  const EMPTY := Graph([], [], map[], map["cluster" := 1], 0, "")

  /** What one vertex-making call leaves behind. */
  function AddVertex(g: Graph, rtype: string, name: string, index: int, subpath: string, unit: string, size: int)
    : Graph
  {
    var v := VertexOf(g.root, ResourceCount(name, rtype, g.elements, index), subpath, unit, size);
    g.(vertices := g.vertices + [v],
       nodeMap := g.nodeMap[v.id := v],
       counts := g.counts[name := CountOf(g.counts, name) + 1],
       elements := g.elements + 1)
  }

  function AddEdges(g: Graph, parent: string, child: string): Graph {
    g.(edges := g.edges + [Edge(parent, child), Edge(child, parent)])
  }

  /** The graph object itself, updated in place. */
  class FluxJGF {
    var vertices: seq<Vertex>
    var edges: seq<Edge>
    var nodeMap: map<string, Vertex>
    var counts: map<string, int>
    var elements: nat
    var root: string

    function View(): Graph
      reads this
    {
      Graph(vertices, edges, nodeMap, counts, elements, root)
    }

    constructor ()
      ensures View() == EMPTY
    {
      vertices, edges, nodeMap := [], [], map[];
      counts, elements, root := map["cluster" := 1], 0, "";
    }

    method NextIndex() returns (next: nat)
      modifies this`elements
      ensures next == old(elements) && elements == next + 1
    {
      next := elements;
      elements := next + 1;
    }

    method NextResourceIndex(name: string) returns (next: int)
      modifies this`counts
      ensures next == CountOf(old(counts), name)
      ensures counts == old(counts)[name := next + 1]
    {
      next := 0;
      if name in counts {
        next := counts[name];
      }
      counts := counts[name := next + 1];
    }

    method GetCounter(name: string, rtype: string) returns (rc: ResourceCount)
      modifies this`counts, this`elements
      ensures rc == ResourceCount(name, rtype, old(elements), CountOf(old(counts), name))
      ensures counts == old(counts)[name := rc.index + 1] && elements == old(elements) + 1
    {
      var index := NextResourceIndex(name);
      var elementId := NextIndex();
      rc := ResourceCount(name, rtype, elementId, index);
    }

    method MakeNewNode(rc: ResourceCount, subpath: string, unit: string, size: int) returns (v: Vertex)
      modifies this`vertices, this`nodeMap
      ensures v == VertexOf(root, rc, subpath, unit, size)
      ensures vertices == old(vertices) + [v] && nodeMap == old(nodeMap)[v.id := v]
    {
      v := Vertex(Digits(rc.elementId), rc.rtype, rc.name, rc.name + Print(rc.index), rc.index, rc.elementId,
                  DEFAULT_RANK, false, unit, size, NodePath(root, subpath));
      vertices := vertices + [v];
      nodeMap := nodeMap[v.id := v];
    }

    /** Only the first call succeeds; the root name always ends in 0, whatever the counter says. */
    method InitCluster(name: string) returns (r: Result<Vertex>)
      modifies this
      ensures View() == Apply(old(View()), CallInitCluster(name))
      ensures r.Ok? <==> old(elements) == 0
      ensures r.Err? ==> View() == old(View())
      ensures r.Ok? ==> r.value.id == Digits(0) && vertices == old(vertices) + [r.value]
    {
      if elements > 0 {
        return Err("init can only be called for a new cluster");
      }
      root := name + "0";
      var rc := GetCounter(name, CLUSTER_TYPE);
      var v := MakeNewNode(rc, "", DEFAULT_UNIT, DEFAULT_SIZE);
      r := Ok(v);
    }

    method MakeSubnet(name: string, index: int) returns (v: Vertex)
      modifies this
      ensures View() == Apply(old(View()), CallSubnet(name, index))
      ensures vertices == old(vertices) + [v] && v.uniqId == old(elements)
      ensures v.id == Digits(v.uniqId) && v.name == name + Print(index)
    {
      var rc := GetCounter(name, SUBNET_TYPE);
      rc := rc.(index := index);
      v := MakeNewNode(rc, rc.name + Print(rc.index), DEFAULT_UNIT, DEFAULT_SIZE);
    }

    method MakeNode(name: string, subpath: string, index: int) returns (v: Vertex)
      modifies this
      ensures View() == Apply(old(View()), CallNode(name, subpath, index))
      ensures vertices == old(vertices) + [v] && v.uniqId == old(elements)
      ensures v.id == Digits(v.uniqId) && v.name == name + Print(index)
    {
      var rc := GetCounter(name, NODE_TYPE);
      rc := rc.(index := index);
      v := MakeNewNode(rc, subpath + "/" + (rc.name + Print(rc.index)), DEFAULT_UNIT, DEFAULT_SIZE);
    }

    method MakeCore(name: string, subpath: string, index: int) returns (v: Vertex)
      modifies this
      ensures View() == Apply(old(View()), CallCore(name, subpath, index))
      ensures vertices == old(vertices) + [v] && v.uniqId == old(elements)
      ensures v.id == Digits(v.uniqId) && v.name == name + Print(index)
    {
      var rc := GetCounter(name, CORE_TYPE);
      rc := rc.(index := index);
      v := MakeNewNode(rc, subpath + "/" + (rc.name + Print(rc.index)), DEFAULT_UNIT, DEFAULT_SIZE);
    }

    method MakeMemory(name: string, subpath: string, size: int, index: int) returns (v: Vertex)
      modifies this
      ensures View() == Apply(old(View()), CallMemory(name, subpath, size, index))
      ensures vertices == old(vertices) + [v] && v.uniqId == old(elements)
      ensures v.id == Digits(v.uniqId) && v.name == name + Print(index)
    {
      var rc := GetCounter(name, MEMORY_TYPE);
      rc := rc.(index := index);
      v := MakeNewNode(rc, subpath + "/" + (rc.name + Print(rc.index)), "MB", size);
    }

    method MakeGPU(name: string, subpath: string, size: int, index: int) returns (v: Vertex)
      modifies this
      ensures View() == Apply(old(View()), CallGPU(name, subpath, size, index))
      ensures vertices == old(vertices) + [v] && v.uniqId == old(elements)
      ensures v.id == Digits(v.uniqId) && v.name == name + Print(index)
    {
      var rc := GetCounter(name, GPU_TYPE);
      rc := rc.(index := index);
      v := MakeNewNode(rc, subpath + "/" + (rc.name + Print(rc.index)), DEFAULT_UNIT, size);
    }

    method MakeEdge(source: string, target: string, relation: string)
      modifies this`edges
      ensures edges == old(edges) + [Edge(source, target)]
    {
      edges := edges + [Edge(source, target)];
    }

    method MakeBidirectionalEdge(parent: string, child: string)
      modifies this`edges
      ensures View() == Apply(old(View()), CallEdges(parent, child))
    {
      MakeEdge(parent, child, "contains");
      MakeEdge(child, parent, "in");
    }
  }

  // ---- Any sequence of graph calls ----

  datatype Call =
    | CallInitCluster(name: string)
    | CallSubnet(name: string, index: int)
    | CallNode(name: string, subpath: string, index: int)
    | CallCore(name: string, subpath: string, index: int)
    | CallMemory(name: string, subpath: string, size: int, index: int)
    | CallGPU(name: string, subpath: string, size: int, index: int)
    | CallEdges(parent: string, child: string)

  function Apply(g: Graph, c: Call): Graph {
    match c
    case CallInitCluster(name) =>
      if g.elements > 0 then g
      else
        AddVertex(g.(root := name + "0"), CLUSTER_TYPE, name, CountOf(g.counts, name), "", DEFAULT_UNIT, DEFAULT_SIZE)
    case CallSubnet(name, i) =>
      AddVertex(g, SUBNET_TYPE, name, i, name + Print(i), DEFAULT_UNIT, DEFAULT_SIZE)
    case CallNode(name, sub, i) =>
      AddVertex(g, NODE_TYPE, name, i, Under(sub, name + Print(i)), DEFAULT_UNIT, DEFAULT_SIZE)
    case CallCore(name, sub, i) =>
      AddVertex(g, CORE_TYPE, name, i, Under(sub, name + Print(i)), DEFAULT_UNIT, DEFAULT_SIZE)
    case CallMemory(name, sub, size, i) =>
      AddVertex(g, MEMORY_TYPE, name, i, Under(sub, name + Print(i)), "MB", size)
    case CallGPU(name, sub, size, i) =>
      AddVertex(g, GPU_TYPE, name, i, Under(sub, name + Print(i)), DEFAULT_UNIT, size)
    case CallEdges(parent, child) =>
      AddEdges(g, parent, child)
  }

  function Run(calls: seq<Call>): Graph {
    if calls == [] then EMPTY else Apply(Run(calls[..|calls| - 1]), calls[|calls| - 1])
  }

  /** How many vertices carry a base name. */
  function Named(vs: seq<Vertex>, name: string): nat {
    if vs == [] then 0
    else Named(vs[..|vs| - 1], name) + (if vs[|vs| - 1].basename == name then 1 else 0)
  }

  ghost function Sum(m: map<string, int>): int
    decreases |m|
  {
    if m == map[] then 0
    else
      var k :| k in m;
      m[k] + Sum(m - {k})
  }

  /** Vertex i has global id i, and the id map holds exactly the printed ids with their vertices. */
  ghost predicate IdsAgree(vs: seq<Vertex>, nodeMap: map<string, Vertex>) {
    && (forall i :: 0 <= i < |vs| ==> vs[i].uniqId == i && vs[i].id == Digits(i))
    && (forall i :: 0 <= i < |vs| ==> vs[i].id in nodeMap && nodeMap[vs[i].id] == vs[i])
    && (forall key :: key in nodeMap ==> nodeMap[key] in vs && nodeMap[key].id == key)
  }

  /** Each per-name counter is the number of vertices of that base name, one more for "cluster". */
  ghost predicate CountsAgree(vs: seq<Vertex>, counts: map<string, int>) {
    forall name :: CountOf(counts, name) == Named(vs, name) + (if name == "cluster" then 1 else 0)
  }

  /** Counters, ids, the id map and the vertex list all tell the same story. */
  ghost predicate Agreement(g: Graph) {
    && g.elements == |g.vertices|
    && IdsAgree(g.vertices, g.nodeMap)
    && CountsAgree(g.vertices, g.counts)
    && Sum(g.counts) == g.elements + 1
  }

  lemma {:induction false} SumRemove(m: map<string, int>, k: string)
    requires k in m
    ensures Sum(m) == m[k] + Sum(m - {k})
    decreases |m|
  {
    var c :| c in m && Sum(m) == m[c] + Sum(m - {c});
    if c != k {
      SumRemove(m - {c}, k);
      SumRemove(m - {k}, c);
      assert m - {c} - {k} == m - {k} - {c};
    }
  }

  lemma SumUpdate(m: map<string, int>, k: string, v: int)
    ensures Sum(m[k := v]) == Sum(m) - CountOf(m, k) + v
  {
    var n := m[k := v];
    SumRemove(n, k);
    if k in m {
      SumRemove(m, k);
      assert n - {k} == m - {k};
    } else {
      assert n - {k} == m;
    }
  }

  lemma AddVertexAgrees(g: Graph, rtype: string, name: string, index: int, subpath: string, unit: string, size: int)
    requires Agreement(g)
    ensures Agreement(AddVertex(g, rtype, name, index, subpath, unit, size))
  {
    var v := VertexOf(g.root, ResourceCount(name, rtype, g.elements, index), subpath, unit, size);
    IdsGrow(g.vertices, g.nodeMap, v);
    CountsGrow(g.vertices, g.counts, v);
    SumUpdate(g.counts, name, CountOf(g.counts, name) + 1);
  }

  lemma IdsGrow(vs: seq<Vertex>, nodeMap: map<string, Vertex>, v: Vertex)
    requires IdsAgree(vs, nodeMap)
    requires v.uniqId == |vs| && v.id == Digits(|vs|)
    ensures IdsAgree(vs + [v], nodeMap[v.id := v])
  {
    forall i | 0 <= i < |vs| ensures vs[i].id != v.id {
      if vs[i].id == v.id {
        DigitsInjective(i, |vs|);
      }
    }
  }

  lemma CountsGrow(vs: seq<Vertex>, counts: map<string, int>, v: Vertex)
    requires CountsAgree(vs, counts)
    ensures CountsAgree(vs + [v], counts[v.basename := CountOf(counts, v.basename) + 1])
  {
    var now := counts[v.basename := CountOf(counts, v.basename) + 1];
    assert (vs + [v])[..|vs|] == vs;
    forall name ensures CountOf(now, name) == Named(vs + [v], name) + (if name == "cluster" then 1 else 0) {
      assert CountOf(counts, name) == Named(vs, name) + (if name == "cluster" then 1 else 0);
    }
  }

  lemma ApplyAgrees(g: Graph, c: Call)
    requires Agreement(g)
    ensures Agreement(Apply(g, c))
  {
    hide AddVertex, Digits, Print;
    match c
    case CallInitCluster(name) =>
      AddVertexAgrees(g.(root := name + "0"), CLUSTER_TYPE, name, CountOf(g.counts, name), "",
                      DEFAULT_UNIT, DEFAULT_SIZE);
    case CallSubnet(name, i) =>
      AddVertexAgrees(g, SUBNET_TYPE, name, i, name + Print(i), DEFAULT_UNIT, DEFAULT_SIZE);
    case CallNode(name, sub, i) =>
      AddVertexAgrees(g, NODE_TYPE, name, i, Under(sub, name + Print(i)), DEFAULT_UNIT, DEFAULT_SIZE);
    case CallCore(name, sub, i) =>
      AddVertexAgrees(g, CORE_TYPE, name, i, Under(sub, name + Print(i)), DEFAULT_UNIT, DEFAULT_SIZE);
    case CallMemory(name, sub, size, i) =>
      AddVertexAgrees(g, MEMORY_TYPE, name, i, Under(sub, name + Print(i)), "MB", size);
    case CallGPU(name, sub, size, i) =>
      AddVertexAgrees(g, GPU_TYPE, name, i, Under(sub, name + Print(i)), DEFAULT_UNIT, size);
    case CallEdges(_, _) =>
  }

  /** After any sequence of graph calls the counters and indices agree. */
  lemma {:induction false} CountersAlwaysAgree(calls: seq<Call>)
    ensures Agreement(Run(calls))
  {
    if calls == [] {
      SumRemove(EMPTY.counts, "cluster");
      assert EMPTY.counts - {"cluster"} == map[];
    } else {
      CountersAlwaysAgree(calls[..|calls| - 1]);
      ApplyAgrees(Run(calls[..|calls| - 1]), calls[|calls| - 1]);
    }
  }

  /** The root path and the cluster vertex's own name agree unless the cluster is called "cluster". */
  lemma ClusterNameMatchesRoot(name: string)
    ensures Apply(EMPTY, CallInitCluster(name)).vertices[0].name == Apply(EMPTY, CallInitCluster(name)).root
        <==> name != "cluster"
  {
    assert Print(0) == "0" && Print(1) == "1";
    assert (name + "0")[|name|] == '0' && (name + "1")[|name|] == '1';
  }
}
