/** What the vertices of the built graph say: which nodes are in it, under which zone, and with what fields. */
module ClusterContents {
  import opened Capacity
  import opened Cluster
  import opened ClusterShape
  import opened Decimal
  import opened Jgf

  // ---- Which nodes are there ----

  /** A node that takes pods: not of the control plane, not labelled to be skipped, and schedulable. */
  predicate TakesPods(node: KubeNode, skipLabel: string) {
    !node.unschedulable && CONTROL_PLANE_LABEL !in node.labels && (skipLabel == "" || skipLabel !in node.labels)
  }

  /** The earlier entries that take pods. */
  ghost function Earlier(nodes: seq<KubeNode>, skipLabel: string, i: nat): set<nat>
    requires i <= |nodes|
  {
    set j: nat | j < i && TakesPods(nodes[j], skipLabel)
  }

  lemma TakesPodsIncluded(node: KubeNode, skipLabel: string)
    ensures TakesPods(node, skipLabel) <==> Included(node, skipLabel)
  {
  }

  lemma {:induction false} SubnetsCountEarlier(nodes: seq<KubeNode>, skipLabel: string, i: nat)
    requires i <= |nodes|
    ensures Subnets(nodes[..i], skipLabel) == |Earlier(nodes, skipLabel, i)|
  {
    if i > 0 {
      SubnetsCountEarlier(nodes, skipLabel, i - 1);
      assert nodes[..i][..i - 1] == nodes[..i - 1];
      hide TakesPods, Included;
      TakesPodsIncluded(nodes[i - 1], skipLabel);
      if Included(nodes[i - 1], skipLabel) {
        assert Earlier(nodes, skipLabel, i) == Earlier(nodes, skipLabel, i - 1) + {i - 1};
      } else {
        assert Earlier(nodes, skipLabel, i) == Earlier(nodes, skipLabel, i - 1);
      }
    }
  }

  /** Vertex k is the compute node of list entry i, behind a subnet vertex of the entry's zone, numbered by
      the entries before it that take pods. */
  ghost predicate StandsFor(vs: seq<Vertex>, k: nat, nodes: seq<KubeNode>, skipLabel: string, i: nat) {
    && 1 <= k < |vs| && i < |nodes|
    && vs[k].vtype == NODE_TYPE && vs[k].basename == nodes[i].name && vs[k].index == i
    && vs[k - 1].vtype == SUBNET_TYPE
    && vs[k - 1].basename == (if ZONE_LABEL in nodes[i].labels then nodes[i].labels[ZONE_LABEL] else "")
    && vs[k - 1].index == |Earlier(nodes, skipLabel, i)|
  }

  lemma NodeInBlock(node: KubeNode, subnet: nat, pos: nat, at: nat, k: nat)
    requires k < |Block(node, subnet, pos, at)|
    ensures Block(node, subnet, pos, at)[k].rtype == NODE_TYPE <==> k == 1
    ensures Block(node, subnet, pos, at)[0] == SubnetItem(node, subnet)
    ensures Block(node, subnet, pos, at)[1] == NodeItem(node, subnet, pos, at)
  {
    hide Gpus, Cores, MemoryVertices, Zone, Digits;
  }

  lemma {:induction false} NodeItemsComeFrom(nodes: seq<KubeNode>, skipLabel: string, k: nat)
    requires k < |Plan(nodes, skipLabel)| && Plan(nodes, skipLabel)[k].rtype == NODE_TYPE
    ensures var items := Plan(nodes, skipLabel);
            var i := items[k].index;
            && i < |nodes| && Included(nodes[i], skipLabel) && k >= 1
            && items[k].basename == nodes[i].name
            && items[k - 1].rtype == SUBNET_TYPE && items[k - 1].basename == Zone(nodes[i])
            && items[k - 1].index == Subnets(nodes[..i], skipLabel)
    decreases |nodes|
  {
    hide Block, Included, Zone, Digits;
    if nodes != [] {
      var n := |nodes| - 1;
      var before := Plan(nodes[..n], skipLabel);
      if k < |before| {
        NodeItemsComeFrom(nodes[..n], skipLabel, k);
        assert nodes[..n][..before[k].index] == nodes[..before[k].index];
      } else {
        NodeInBlock(nodes[n], Subnets(nodes[..n], skipLabel), n, |before|, k - |before|);
      }
    }
  }

  /** Each compute node vertex stands for a node that takes pods, and each such node has its vertex. */
  lemma NodeVerticesExactly(nodes: seq<KubeNode>, skipLabel: string, i: nat)
    requires i < |nodes|
    ensures var vs := GraphOf(Plan(nodes, skipLabel)).vertices;
            && (TakesPods(nodes[i], skipLabel) <==> exists k: nat :: StandsFor(vs, k, nodes, skipLabel, i))
            && (forall k: nat :: k < |vs| && vs[k].vtype == NODE_TYPE ==>
                  0 <= vs[k].index && StandsFor(vs, k, nodes, skipLabel, vs[k].index))
  {
    hide Plan, GraphOf, Agreement, Digits, NodeVertex, Subnets, Earlier;
    var items := Plan(nodes, skipLabel);
    var vs := GraphOf(items).vertices;
    GraphOfRealizes(items);
    assert Included(nodes[i], skipLabel) <==> TakesPods(nodes[i], skipLabel);
    forall k: nat | k < |vs| && vs[k].vtype == NODE_TYPE
      ensures 0 <= vs[k].index && StandsFor(vs, k, nodes, skipLabel, vs[k].index) && Included(nodes[vs[k].index], skipLabel)
    {
      NodeItemsComeFrom(nodes, skipLabel, k);
      SubnetsCountEarlier(nodes, skipLabel, vs[k].index);
    }
    if Included(nodes[i], skipLabel) {
      NodeVertexInside(nodes, skipLabel, i);
      assert StandsFor(vs, NodeVertex(nodes, skipLabel, i), nodes, skipLabel, i);
    }
  }

  // ---- The fields of a vertex ----

  /** Base name, unit and size by type; nodes and subnets carry names of the cluster's own. */
  predicate FieldsOf(rtype: string, basename: string, unit: string, size: int) {
    if rtype == MEMORY_TYPE then basename == "memory" && unit == "MB" && size == 1024
    else
      && unit == "" && size == 1
      && (rtype == CORE_TYPE ==> basename == "core")
      && (rtype == GPU_TYPE ==> basename == "nvidiagpu")
  }

  ghost predicate AllFields(items: seq<Item>) {
    forall k :: 0 <= k < |items| ==> FieldsOf(items[k].rtype, items[k].basename, items[k].unit, items[k].size)
  }

  lemma BlockFields(node: KubeNode, subnet: nat, pos: nat, at: nat)
    ensures AllFields(Block(node, subnet, pos, at))
  {
    hide Gpus, Cores, MemoryVertices, Zone, Digits;
  }

  lemma {:induction false} PlanFields(nodes: seq<KubeNode>, skipLabel: string)
    ensures AllFields(Plan(nodes, skipLabel))
  {
    hide Block, Included, FieldsOf;
    if nodes == [] {
      ClusterFields();
    } else {
      var n := |nodes| - 1;
      PlanFields(nodes[..n], skipLabel);
      BlockFields(nodes[n], Subnets(nodes[..n], skipLabel), n, |Plan(nodes[..n], skipLabel)|);
    }
  }

  lemma ClusterFields()
    ensures AllFields([CLUSTER_ITEM])
  {
  }

  /** Every vertex is named after its base name and index, has the unit and size of its type, no rank and is
      not exclusive; the root is the cluster itself. */
  lemma VertexFields(nodes: seq<KubeNode>, skipLabel: string, k: nat)
    requires k < |GraphOf(Plan(nodes, skipLabel)).vertices|
    ensures var v := GraphOf(Plan(nodes, skipLabel)).vertices[k];
            && v.name == v.basename + Print(v.index) && v.rank == -1 && !v.exclusive
            && FieldsOf(v.vtype, v.basename, v.unit, v.size)
            && (k == 0 ==> v.vtype == CLUSTER_TYPE && v.name == "k8scluster0" && v.path == "/k8scluster0")
  {
    hide Plan, GraphOf, Agreement, FieldsOf, Digits;
    var items := Plan(nodes, skipLabel);
    GraphOfRealizes(items);
    PlanFields(nodes, skipLabel);
    if k == 0 {
      RootFields();
    }
  }

  lemma RootFields()
    ensures ItemName(CLUSTER_ITEM) == "k8scluster0" && NodePath(ROOT, Join(CLUSTER_ITEM.segments)) == "/k8scluster0"
  {
  }
}
