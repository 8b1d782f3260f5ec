/** What the built graph looks like, for every node list: a tree, with distinct paths and exact counts. */
module ClusterShape {
  import opened Cluster
  import opened Decimal
  import opened Jgf

  // ---- The layout is a tree ----

  function ParentType(rtype: string): string {
    if rtype == SUBNET_TYPE then CLUSTER_TYPE
    else if rtype == NODE_TYPE then SUBNET_TYPE
    else NODE_TYPE
  }

  /** Item k hangs below an earlier item of the right type, one path segment deeper. */
  ghost predicate Hangs(items: seq<Item>, k: nat)
    requires k < |items|
  {
    var p := items[k].parent;
    && p < k
    && items[p].rtype == ParentType(items[k].rtype)
    && items[k].segments == items[p].segments + [ItemName(items[k])]
    && |items[k].segments| <= 3
  }

  ghost predicate WellLaid(items: seq<Item>) {
    && items != [] && items[0] == CLUSTER_ITEM
    && forall k :: 1 <= k < |items| ==> Hangs(items, k)
  }

  lemma HangsLater(items: seq<Item>, more: seq<Item>, k: nat)
    requires k < |items| && Hangs(items, k)
    ensures Hangs(items + more, k)
  {
  }

  /** Leaves of one kind keep the layout. */
  lemma LeavesWellLaid(items: seq<Item>, rtype: string, basename: string, n: nat, at: nat, unit: string, size: int)
    requires WellLaid(items) && at < |items|
    requires items[at].rtype == NODE_TYPE && |items[at].segments| == 2
    requires rtype != SUBNET_TYPE && rtype != NODE_TYPE
    ensures WellLaid(items + Leaves(rtype, basename, n, items[at], at, unit, size))
  {
    var leaves := Leaves(rtype, basename, n, items[at], at, unit, size);
    var all := items + leaves;
    forall k | 1 <= k < |all| ensures Hangs(all, k) {
      if k < |items| {
        HangsLater(items, leaves, k);
      } else {
        assert all[k] == LeafItem(rtype, basename, k - |items|, items[at], at, unit, size);
        assert all[at] == items[at];
      }
    }
  }

  /** A subnet with its compute node keeps the layout. */
  lemma HeadWellLaid(items: seq<Item>, node: KubeNode, subnet: nat, pos: nat)
    requires WellLaid(items)
    ensures WellLaid(items + [SubnetItem(node, subnet), NodeItem(node, subnet, pos, |items|)])
  {
    var head := [SubnetItem(node, subnet), NodeItem(node, subnet, pos, |items|)];
    forall k | 1 <= k < |items| + 2 ensures Hangs(items + head, k) {
      if k < |items| {
        HangsLater(items, head, k);
      } else {
        assert (items + head)[|items|] == head[0] && (items + head)[|items| + 1] == head[1];
      }
    }
  }

  lemma BlockWellLaid(items: seq<Item>, node: KubeNode, subnet: nat, pos: nat)
    requires WellLaid(items)
    ensures WellLaid(items + Block(node, subnet, pos, |items|))
  {
    hide WellLaid, Leaves;
    var at := |items| + 1;
    var ni := NodeItem(node, subnet, pos, |items|);
    var a := items + [SubnetItem(node, subnet), ni];
    HeadWellLaid(items, node, subnet, pos);
    assert a[at] == ni;
    LeavesWellLaid(a, GPU_TYPE, NVIDIA_GPU, Gpus(node), at, DEFAULT_UNIT, 1);
    var b := a + GpuItems(Gpus(node), ni, at);
    assert b[at] == ni;
    LeavesWellLaid(b, CORE_TYPE, CORE_TYPE, Cores(node), at, DEFAULT_UNIT, DEFAULT_SIZE);
    var c := b + CoreItems(Cores(node), ni, at);
    assert c[at] == ni;
    LeavesWellLaid(c, MEMORY_TYPE, MEMORY_TYPE, MemoryVertices(node), at, "MB", 1024);
    assert items + Block(node, subnet, pos, |items|) == c + MemoryItems(MemoryVertices(node), ni, at);
  }

  lemma {:induction false} PlanWellLaid(nodes: seq<KubeNode>, skipLabel: string)
    ensures WellLaid(Plan(nodes, skipLabel))
  {
    if nodes != [] {
      var n := |nodes| - 1;
      PlanWellLaid(nodes[..n], skipLabel);
      BlockWellLaid(Plan(nodes[..n], skipLabel), nodes[n], Subnets(nodes[..n], skipLabel), n);
    }
  }

  /** Between which positions the edge list holds an edge: parent and child, both ways, and nothing else. */
  ghost predicate Linked(items: seq<Item>, a: nat, b: nat) {
    || (1 <= b < |items| && items[b].parent == a)
    || (1 <= a < |items| && items[a].parent == b)
  }

  ghost predicate ParentsFirst(items: seq<Item>) {
    forall k :: 1 <= k < |items| ==> items[k].parent < k
  }

  lemma WellLaidParentsFirst(items: seq<Item>)
    requires WellLaid(items)
    ensures ParentsFirst(items)
  {
    forall k | 1 <= k < |items| ensures items[k].parent < k {
      assert Hangs(items, k);
    }
  }

  lemma {:induction false} EdgesAreLinks(items: seq<Item>, a: nat, b: nat)
    requires ParentsFirst(items)
    ensures Edge(Digits(a), Digits(b)) in EdgesOf(items) <==> Linked(items, a, b)
  {
    if |items| > 1 {
      var k := |items| - 1;
      EdgesAreLinks(items[..k], a, b);
      LastEdge(a, b, items[k].parent, k);
      LastEdge(a, b, k, items[k].parent);
    }
  }

  lemma LastEdge(a: nat, b: nat, c: nat, d: nat)
    ensures Edge(Digits(a), Digits(b)) == Edge(Digits(c), Digits(d)) <==> a == c && b == d
  {
    if Digits(a) == Digits(c) {
      DigitsInjective(a, c);
    }
    if Digits(b) == Digits(d) {
      DigitsInjective(b, d);
    }
  }

  /** Symmetry, on the edge list itself. */
  lemma {:induction false} EdgesSymmetric(items: seq<Item>, e: Edge)
    ensures e in EdgesOf(items) <==> Edge(e.target, e.source) in EdgesOf(items)
  {
    if |items| > 1 {
      EdgesSymmetric(items[..|items| - 1], e);
    }
  }

  /** From the root, d edges lead to v, each to a larger id. */
  ghost predicate Reaches(edges: seq<Edge>, v: nat, d: nat) {
    if d == 0 then v == 0
    else exists u: nat :: u < v && Edge(Digits(u), Digits(v)) in edges && Reaches(edges, u, d - 1)
  }

  lemma {:induction false} ReachesAtDepth(items: seq<Item>, k: nat)
    requires WellLaid(items) && k < |items|
    ensures Reaches(EdgesOf(items), k, |items[k].segments|)
  {
    if k > 0 {
      assert Hangs(items, k);
      var p := items[k].parent;
      ReachesAtDepth(items, p);
      WellLaidParentsFirst(items);
      EdgesAreLinks(items, p, k);
      assert Edge(Digits(p), Digits(k)) in EdgesOf(items);
    }
  }

  lemma {:induction false} JoinAppend(segments: seq<string>, name: string)
    ensures Join(segments + [name]) == (if segments == [] then name else Join(segments) + "/" + name)
  {
    if |segments| >= 1 {
      assert (segments + [name])[1..] == segments[1..] + [name];
      JoinAppend(segments[1..], name);
    }
  }

  lemma PathBelowParent(root: string, segments: seq<string>, name: string)
    requires segments != [] ==> segments[0] != ""
    requires name != ""
    ensures NodePath(root, Join(segments + [name])) == NodePath(root, Join(segments)) + "/" + name
  {
    JoinAppend(segments, name);
    if segments != [] {
      JoinNonempty(segments);
      hide Join;
      var top := "/" + root + "/";
      assert top + (Join(segments) + "/" + name) == top + Join(segments) + "/" + name;
    }
  }

  lemma JoinNonempty(segments: seq<string>)
    requires segments != [] && segments[0] != ""
    ensures Join(segments) != ""
  {
  }

  lemma {:induction false} SegmentsNonempty(items: seq<Item>, k: nat)
    requires WellLaid(items) && k < |items|
    ensures forall i :: 0 <= i < |items[k].segments| ==> items[k].segments[i] != ""
  {
    if k > 0 {
      assert Hangs(items, k);
      SegmentsNonempty(items, items[k].parent);
    }
  }

  /** p is the one vertex of smaller id that k has an edge with; its type and path are those of a parent. */
  ghost predicate OnlyParent(g: Graph, p: nat, k: nat)
    requires p < k < |g.vertices|
  {
    var v, w := g.vertices[p], g.vertices[k];
    && Edge(v.id, w.id) in g.edges
    && (forall q: nat | q < k :: Edge(g.vertices[q].id, w.id) in g.edges ==> q == p)
    && v.vtype == ParentType(w.vtype)
    && w.path == v.path + "/" + w.name
  }

  ghost predicate HasOnlyParent(g: Graph, k: nat)
    requires k < |g.vertices|
  {
    exists p: nat :: p < k && OnlyParent(g, p, k)
  }

  ghost predicate WithinDepth(g: Graph, k: nat, depth: nat) {
    exists d: nat :: d <= depth && Reaches(g.edges, k, d)
  }

  lemma ParentIsOnly(g: Graph, items: seq<Item>, k: nat)
    requires Realizes(g, items) && WellLaid(items) && 1 <= k < |items|
    ensures HasOnlyParent(g, k)
  {
    hide Agreement, Join;
    assert Hangs(items, k);
    var p := items[k].parent;
    WellLaidParentsFirst(items);
    EdgesAreLinks(items, p, k);
    forall q: nat | q < k ensures Edge(g.vertices[q].id, g.vertices[k].id) in g.edges ==> q == p {
      EdgesAreLinks(items, q, k);
    }
    SegmentsNonempty(items, p);
    PathBelowParent(ROOT, items[p].segments, ItemName(items[k]));
    assert OnlyParent(g, p, k);
  }

  lemma WithinThree(g: Graph, items: seq<Item>, k: nat)
    requires Realizes(g, items) && WellLaid(items) && k < |items|
    ensures WithinDepth(g, k, 3)
  {
    hide Agreement;
    ReachesAtDepth(items, k);
    assert k >= 1 ==> Hangs(items, k);
  }

  /** For every node list the graph is a tree of depth at most 3 rooted at the cluster, with symmetric edges.
      The edges are unlabelled, yet the parent can be told: it is the neighbour with the smaller id. */
  lemma GraphIsTree(nodes: seq<KubeNode>, skipLabel: string)
    ensures
      var g := GraphOf(Plan(nodes, skipLabel));
      && g.vertices != [] && g.vertices[0].vtype == CLUSTER_TYPE
      && (forall k :: 1 <= k < |g.vertices| ==> HasOnlyParent(g, k))
      && (forall k :: 0 <= k < |g.vertices| ==> WithinDepth(g, k, 3))
      && (forall e :: e in g.edges <==> Edge(e.target, e.source) in g.edges)
  {
    hide HasOnlyParent, WithinDepth, WellLaid, Agreement, Plan, GraphOf, EdgesOf;
    var items := Plan(nodes, skipLabel);
    var g := GraphOf(items);
    GraphOfRealizes(items);
    PlanWellLaid(nodes, skipLabel);
    forall k | 1 <= k < |g.vertices| ensures HasOnlyParent(g, k) {
      ParentIsOnly(g, items, k);
    }
    forall k | 0 <= k < |g.vertices| ensures WithinDepth(g, k, 3) {
      WithinThree(g, items, k);
    }
    forall e ensures e in g.edges <==> Edge(e.target, e.source) in g.edges {
      EdgesSymmetric(items, e);
    }
  }
}
