/** When the containment paths of the graph tell all its vertices apart. */
module ClusterPaths {
  import opened Cluster
  import opened ClusterShape
  import opened Decimal
  import opened Jgf
  import opened Wrappers

  ghost predicate Plain(s: string) {
    '/' !in s
  }

  ghost predicate AllPlain(segments: seq<string>) {
    forall i :: 0 <= i < |segments| ==> Plain(segments[i]) && segments[i] != ""
  }

  // ---- Joined segments can be read back ----

  lemma FirstSegment(a: string, x: string, b: string, y: string)
    requires Plain(a) && Plain(b)
    requires a + "/" + x == b + "/" + y
    ensures a == b && x == y
  {
    if |a| < |b| {
      SlashInside(a, x, b, y);
    } else if |b| < |a| {
      SlashInside(b, y, a, x);
    } else {
      var s := a + "/" + x;
      assert a == s[..|a|] == b;
      assert x == s[|a| + 1..] == y;
    }
  }

  lemma SlashInside(a: string, x: string, b: string, y: string)
    requires a + "/" + x == b + "/" + y && |a| < |b|
    ensures !Plain(b)
  {
    assert (a + "/" + x)[|a|] == '/' && (b + "/" + y)[|a|] == b[|a|];
  }

  lemma LoneSegment(a: string, b: string, y: string)
    requires Plain(a)
    ensures a != b + "/" + y
  {
  }

  lemma {:induction false} JoinInjective(a: seq<string>, b: seq<string>)
    requires AllPlain(a) && AllPlain(b)
    requires Join(a) == Join(b)
    ensures a == b
  {
    if a == [] || b == [] {
      if a != [] {
        JoinNonempty(a);
      } else if b != [] {
        JoinNonempty(b);
      }
    } else if |a| == 1 && |b| == 1 {
      assert a == [a[0]] && b == [b[0]];
    } else if |a| == 1 {
      LoneSegment(a[0], b[0], Join(b[1..]));
    } else if |b| == 1 {
      LoneSegment(b[0], a[0], Join(a[1..]));
    } else {
      FirstSegment(a[0], Join(a[1..]), b[0], Join(b[1..]));
      JoinInjective(a[1..], b[1..]);
      assert a == [a[0]] + a[1..] && b == [b[0]] + b[1..];
    }
  }

  lemma NodePathInjective(a: seq<string>, b: seq<string>)
    requires AllPlain(a) && AllPlain(b)
    requires NodePath(ROOT, Join(a)) == NodePath(ROOT, Join(b))
    ensures a == b
  {
    hide Join;
    var top := "/" + ROOT;
    assert (top + "/" + Join(a))[|top|..] == "/" + Join(a);
    assert (top + "/" + Join(b))[|top|..] == "/" + Join(b);
    assert top[|top|..] == "";
    assert ("/" + Join(a))[1..] == Join(a) && ("/" + Join(b))[1..] == Join(b);
    assert Join(a) == Join(b);
    JoinInjective(a, b);
  }

  // ---- Segments of the planned items ----

  ghost predicate Apart(a: seq<Item>, b: seq<Item>) {
    forall i, j :: 0 <= i < |a| && 0 <= j < |b| ==> a[i].segments != b[j].segments
  }

  ghost predicate Distinct(items: seq<Item>) {
    forall i, j :: 0 <= i < j < |items| ==> items[i].segments != items[j].segments
  }

  lemma DistinctConcat(a: seq<Item>, b: seq<Item>)
    requires Distinct(a) && Distinct(b) && Apart(a, b)
    ensures Distinct(a + b)
  {
  }

  ghost predicate NamedLeaves(items: seq<Item>, parent: seq<string>, c: char) {
    forall i :: 0 <= i < |items| ==>
      |items[i].segments| == |parent| + 1 && items[i].segments[|parent|] != "" && items[i].segments[|parent|][0] == c
  }

  lemma LeavesDistinct(rtype: string, basename: string, n: nat, parent: Item, at: nat, unit: string, size: int)
    requires basename != ""
    ensures Distinct(Leaves(rtype, basename, n, parent, at, unit, size))
    ensures NamedLeaves(Leaves(rtype, basename, n, parent, at, unit, size), parent.segments, basename[0])
  {
    var s := Leaves(rtype, basename, n, parent, at, unit, size);
    var d := |parent.segments|;
    forall i, j | 0 <= i < j < n ensures s[i].segments != s[j].segments {
      if s[i].segments[d] == s[j].segments[d] {
        assert (basename + Digits(i))[|basename|..] == Digits(i);
        assert (basename + Digits(j))[|basename|..] == Digits(j);
        DigitsInjective(i, j);
      }
    }
  }

  lemma BlockDistinct(node: KubeNode, subnet: nat, pos: nat, at: nat)
    ensures Distinct(Block(node, subnet, pos, at))
  {
    hide Distinct, Zone, Digits, Gpus, Cores, MemoryVertices;
    var ni := NodeItem(node, subnet, pos, at);
    var g := GpuItems(Gpus(node), ni, at + 1);
    var c := CoreItems(Cores(node), ni, at + 1);
    var m := MemoryItems(MemoryVertices(node), ni, at + 1);
    LeavesDistinct(GPU_TYPE, NVIDIA_GPU, Gpus(node), ni, at + 1, DEFAULT_UNIT, 1);
    LeavesDistinct(CORE_TYPE, CORE_TYPE, Cores(node), ni, at + 1, DEFAULT_UNIT, DEFAULT_SIZE);
    LeavesDistinct(MEMORY_TYPE, MEMORY_TYPE, MemoryVertices(node), ni, at + 1, "MB", 1024);
    FourKindsDistinct([SubnetItem(node, subnet), ni], g, c, m, ni.segments);
  }

  lemma FourKindsDistinct(h: seq<Item>, g: seq<Item>, c: seq<Item>, m: seq<Item>, parent: seq<string>)
    requires |h| == 2 && |h[0].segments| == 1 && |h[1].segments| == 2 && |parent| == 2
    requires Distinct(g) && Distinct(c) && Distinct(m)
    requires NamedLeaves(g, parent, 'n') && NamedLeaves(c, parent, 'c') && NamedLeaves(m, parent, 'm')
    ensures Distinct(h + g + c + m)
  {
  }

  // ---- Between blocks: the subnet names decide ----

  ghost predicate SubnetNamed(nodes: seq<KubeNode>, skipLabel: string, i: nat, name: string) {
    i < |nodes| && Included(nodes[i], skipLabel) && name == SubnetName(nodes, skipLabel, i)
  }

  function SubnetName(nodes: seq<KubeNode>, skipLabel: string, i: nat): string
    requires i < |nodes|
  {
    Zone(nodes[i]) + Digits(Subnets(nodes[..i], skipLabel))
  }

  /** No two included nodes get the same subnet name; a condition on the node list alone. */
  ghost predicate SubnetNamesDiffer(nodes: seq<KubeNode>, skipLabel: string) {
    forall i, j :: 0 <= i < j < |nodes| && Included(nodes[i], skipLabel) && Included(nodes[j], skipLabel)
      ==> SubnetName(nodes, skipLabel, i) != SubnetName(nodes, skipLabel, j)
  }

  ghost predicate BelowSubnet(nodes: seq<KubeNode>, skipLabel: string, segments: seq<string>) {
    segments != [] && exists i: nat :: SubnetNamed(nodes, skipLabel, i, segments[0])
  }

  ghost predicate AllBelowSubnets(nodes: seq<KubeNode>, skipLabel: string, items: seq<Item>) {
    forall k :: 1 <= k < |items| ==> BelowSubnet(nodes, skipLabel, items[k].segments)
  }

  lemma BelowSubnetLater(nodes: seq<KubeNode>, skipLabel: string, n: nat, segments: seq<string>)
    requires n <= |nodes| && BelowSubnet(nodes[..n], skipLabel, segments)
    ensures BelowSubnet(nodes, skipLabel, segments)
  {
    var i: nat :| SubnetNamed(nodes[..n], skipLabel, i, segments[0]);
    assert nodes[..n][..i] == nodes[..i];
    assert SubnetNamed(nodes, skipLabel, i, segments[0]);
  }

  lemma BlockHead(node: KubeNode, subnet: nat, pos: nat, at: nat)
    ensures var b := Block(node, subnet, pos, at);
            forall k :: 0 <= k < |b| ==> b[k].segments != [] && b[k].segments[0] == Zone(node) + Digits(subnet)
  {
  }

  lemma {:induction false} PlanBelowSubnets(nodes: seq<KubeNode>, skipLabel: string)
    ensures AllBelowSubnets(nodes, skipLabel, Plan(nodes, skipLabel))
  {
    if nodes != [] {
      var n := |nodes| - 1;
      var before := Plan(nodes[..n], skipLabel);
      PlanBelowSubnets(nodes[..n], skipLabel);
      BlockHead(nodes[n], Subnets(nodes[..n], skipLabel), n, |before|);
      var all := Plan(nodes, skipLabel);
      forall k | 1 <= k < |all| ensures BelowSubnet(nodes, skipLabel, all[k].segments) {
        hide Block;
        if k < |before| {
          assert all[k] == before[k];
          BelowSubnetLater(nodes, skipLabel, n, before[k].segments);
        } else {
          assert SubnetNamed(nodes, skipLabel, n, all[k].segments[0]);
        }
      }
    }
  }

  lemma DifferEarlier(nodes: seq<KubeNode>, skipLabel: string, n: nat)
    requires n <= |nodes| && SubnetNamesDiffer(nodes, skipLabel)
    ensures SubnetNamesDiffer(nodes[..n], skipLabel)
  {
    forall i, j | 0 <= i < j < n && Included(nodes[i], skipLabel) && Included(nodes[j], skipLabel)
      ensures SubnetName(nodes[..n], skipLabel, i) != SubnetName(nodes[..n], skipLabel, j)
    {
      assert nodes[..n][..i] == nodes[..i] && nodes[..n][..j] == nodes[..j];
      assert SubnetName(nodes, skipLabel, i) != SubnetName(nodes, skipLabel, j);
    }
  }

  /** A new block is apart from everything planned before it. */
  lemma BlockApart(nodes: seq<KubeNode>, skipLabel: string)
    requires nodes != [] && SubnetNamesDiffer(nodes, skipLabel)
    requires Included(nodes[|nodes| - 1], skipLabel)
    ensures var n := |nodes| - 1;
            var before := Plan(nodes[..n], skipLabel);
            Apart(before, Block(nodes[n], Subnets(nodes[..n], skipLabel), n, |before|))
  {
    var n := |nodes| - 1;
    var before := Plan(nodes[..n], skipLabel);
    var block := Block(nodes[n], Subnets(nodes[..n], skipLabel), n, |before|);
    PlanBelowSubnets(nodes[..n], skipLabel);
    BlockHead(nodes[n], Subnets(nodes[..n], skipLabel), n, |before|);
    hide Zone, Included;
    forall i, j | 0 <= i < |before| && 0 <= j < |block| ensures before[i].segments != block[j].segments {
      hide Block, Plan;
      if i >= 1 {
        BelowSubnetLater(nodes, skipLabel, n, before[i].segments);
        var m: nat :| SubnetNamed(nodes[..n], skipLabel, m, before[i].segments[0]);
        assert nodes[..n][..m] == nodes[..m];
        assert SubnetName(nodes, skipLabel, m) != SubnetName(nodes, skipLabel, n);
      }
    }
  }

  lemma {:induction false} PlanDistinct(nodes: seq<KubeNode>, skipLabel: string)
    requires SubnetNamesDiffer(nodes, skipLabel)
    ensures Distinct(Plan(nodes, skipLabel))
  {
    hide Block, Distinct, Apart, SubnetNamesDiffer;
    if nodes == [] {
      OneDistinct(Plan(nodes, skipLabel));
    } else {
      var n := |nodes| - 1;
      DifferEarlier(nodes, skipLabel, n);
      PlanDistinct(nodes[..n], skipLabel);
      if Included(nodes[n], skipLabel) {
        var before := Plan(nodes[..n], skipLabel);
        var s := Subnets(nodes[..n], skipLabel);
        BlockDistinct(nodes[n], s, n, |before|);
        BlockApart(nodes, skipLabel);
        DistinctConcat(before, Block(nodes[n], s, n, |before|));
      }
    }
  }

  lemma OneDistinct(items: seq<Item>)
    requires |items| == 1
    ensures Distinct(items)
  {
  }

  // ---- Every segment is plain ----

  ghost predicate PlainNames(nodes: seq<KubeNode>) {
    forall i :: 0 <= i < |nodes| ==> Plain(nodes[i].name) && Plain(Zone(nodes[i]))
  }

  lemma NameIndexPlain(name: string, n: nat)
    requires Plain(name)
    ensures Plain(name + Digits(n)) && name + Digits(n) != ""
  {
  }

  lemma {:induction false} SegmentsPlain(items: seq<Item>, k: nat)
    requires WellLaid(items) && k < |items|
    requires forall j :: 0 <= j < |items| ==> Plain(items[j].basename)
    ensures AllPlain(items[k].segments)
  {
    if k > 0 {
      assert Hangs(items, k);
      SegmentsPlain(items, items[k].parent);
      NameIndexPlain(items[k].basename, items[k].index);
    }
  }

  ghost predicate PlainBases(items: seq<Item>) {
    forall j :: 0 <= j < |items| ==> Plain(items[j].basename)
  }

  lemma BlockPlainBases(node: KubeNode, subnet: nat, pos: nat, at: nat)
    requires Plain(node.name) && Plain(Zone(node))
    ensures PlainBases(Block(node, subnet, pos, at))
  {
  }

  lemma {:induction false} PlanPlainBases(nodes: seq<KubeNode>, skipLabel: string)
    requires PlainNames(nodes)
    ensures PlainBases(Plan(nodes, skipLabel))
  {
    hide Block;
    if nodes == [] {
      assert Plain(CLUSTER_NAME);
    } else {
      var n := |nodes| - 1;
      PlanPlainBases(nodes[..n], skipLabel);
      if Included(nodes[n], skipLabel) {
        BlockPlainBases(nodes[n], Subnets(nodes[..n], skipLabel), n, |Plan(nodes[..n], skipLabel)|);
      }
    }
  }

  // ---- The results ----

  ghost predicate PathsDistinct(g: Graph) {
    forall i, j :: 0 <= i < j < |g.vertices| ==> g.vertices[i].path != g.vertices[j].path
  }

  lemma {:induction false} PlanGrowsBy(nodes: seq<KubeNode>, skipLabel: string, n: nat)
    requires n <= |nodes|
    ensures |Plan(nodes[..n], skipLabel)| <= |Plan(nodes, skipLabel)|
    ensures Plan(nodes[..n], skipLabel) == Plan(nodes, skipLabel)[..|Plan(nodes[..n], skipLabel)|]
    decreases |nodes|
  {
    hide Block;
    if n < |nodes| {
      var m := |nodes| - 1;
      assert nodes[..m][..n] == nodes[..n];
      PlanGrowsBy(nodes[..m], skipLabel, n);
    } else {
      assert nodes[..n] == nodes;
    }
  }

  lemma BlockStart(node: KubeNode, subnet: nat, pos: nat, at: nat)
    ensures var b := Block(node, subnet, pos, at);
            |b| >= 2 && b[0] == SubnetItem(node, subnet) && b[1] == NodeItem(node, subnet, pos, at)
  {
    hide GpuItems, CoreItems, MemoryItems, Gpus, Cores, MemoryVertices, SubnetItem, NodeItem;
  }

  /** The two items that included node i starts with, in the whole layout. */
  lemma BlockInPlan(nodes: seq<KubeNode>, skipLabel: string, i: nat)
    requires i < |nodes| && Included(nodes[i], skipLabel)
    ensures var at := |Plan(nodes[..i], skipLabel)|;
            var s := Subnets(nodes[..i], skipLabel);
            && at + 1 < |Plan(nodes[..i + 1], skipLabel)| <= |Plan(nodes, skipLabel)|
            && Plan(nodes, skipLabel)[at] == SubnetItem(nodes[i], s)
            && Plan(nodes, skipLabel)[at + 1] == NodeItem(nodes[i], s, i, at)
  {
    hide Block, Included, SubnetItem, NodeItem;
    PlanGrowsBy(nodes, skipLabel, i + 1);
    var upto := nodes[..i + 1];
    assert upto[..i] == nodes[..i] && upto[i] == nodes[i];
    BlockStart(nodes[i], Subnets(nodes[..i], skipLabel), i, |Plan(nodes[..i], skipLabel)|);
  }

  /** The subnet vertex of included node i. */
  lemma SubnetAt(nodes: seq<KubeNode>, skipLabel: string, i: nat)
    requires i < |nodes| && Included(nodes[i], skipLabel)
    ensures var at := |Plan(nodes[..i], skipLabel)|;
            && at < |Plan(nodes[..i + 1], skipLabel)| <= |Plan(nodes, skipLabel)|
            && Plan(nodes, skipLabel)[at].segments == [SubnetName(nodes, skipLabel, i)]
  {
    hide Plan, Included, Zone, Digits;
    BlockInPlan(nodes, skipLabel, i);
  }

  lemma ClashingPaths(nodes: seq<KubeNode>, skipLabel: string, i: nat, j: nat)
    requires i < j < |nodes| && Included(nodes[i], skipLabel) && Included(nodes[j], skipLabel)
    requires SubnetName(nodes, skipLabel, i) == SubnetName(nodes, skipLabel, j)
    ensures !PathsDistinct(GraphOf(Plan(nodes, skipLabel)))
  {
    hide Plan, GraphOf, Agreement, SubnetName, Included;
    var items := Plan(nodes, skipLabel);
    GraphOfRealizes(items);
    SubnetAt(nodes, skipLabel, i);
    SubnetAt(nodes, skipLabel, j);
    PlanOrder(nodes, skipLabel, i, j);
    var a, b := |Plan(nodes[..i], skipLabel)|, |Plan(nodes[..j], skipLabel)|;
    assert GraphOf(items).vertices[a].path == GraphOf(items).vertices[b].path;
  }

  lemma PlanOrder(nodes: seq<KubeNode>, skipLabel: string, i: nat, j: nat)
    requires i < j <= |nodes|
    ensures |Plan(nodes[..i + 1], skipLabel)| <= |Plan(nodes[..j], skipLabel)|
  {
    hide Plan;
    assert nodes[..j][..i + 1] == nodes[..i + 1];
    PlanGrowsBy(nodes[..j], skipLabel, i + 1);
  }

  /** Exactly when the containment paths tell all vertices apart: when the subnet names do. */
  lemma PathsDistinctExactly(nodes: seq<KubeNode>, skipLabel: string)
    requires PlainNames(nodes)
    ensures PathsDistinct(GraphOf(Plan(nodes, skipLabel))) <==> SubnetNamesDiffer(nodes, skipLabel)
  {
    hide Plan, GraphOf, Agreement, WellLaid, Join, NodePath;
    var items := Plan(nodes, skipLabel);
    var g := GraphOf(items);
    if SubnetNamesDiffer(nodes, skipLabel) {
      GraphOfRealizes(items);
      PlanWellLaid(nodes, skipLabel);
      PlanDistinct(nodes, skipLabel);
      PlanPlainBases(nodes, skipLabel);
      forall i, j | 0 <= i < j < |g.vertices| ensures g.vertices[i].path != g.vertices[j].path {
        SegmentsPlain(items, i);
        SegmentsPlain(items, j);
        if g.vertices[i].path == g.vertices[j].path {
          NodePathInjective(items[i].segments, items[j].segments);
        }
      }
    } else {
      var i, j :| 0 <= i < j < |nodes| && Included(nodes[i], skipLabel) && Included(nodes[j], skipLabel)
        && SubnetName(nodes, skipLabel, i) == SubnetName(nodes, skipLabel, j);
      ClashingPaths(nodes, skipLabel, i, j);
    }
  }

  lemma {:induction false} SubnetsGrow(nodes: seq<KubeNode>, skipLabel: string, i: nat, j: nat)
    requires i < j <= |nodes| && Included(nodes[i], skipLabel)
    ensures Subnets(nodes[..i], skipLabel) < Subnets(nodes[..j], skipLabel)
  {
    assert nodes[..j][..j - 1] == nodes[..j - 1];
    if i < j - 1 {
      SubnetsGrow(nodes, skipLabel, i, j - 1);
    }
  }

  /** Zone labels that do not end in a digit are enough; the empty label is one of them. */
  lemma ZonesWithoutTrailingDigit(nodes: seq<KubeNode>, skipLabel: string)
    requires PlainNames(nodes)
    requires forall i :: 0 <= i < |nodes| && Included(nodes[i], skipLabel) ==> !EndsInDigit(Zone(nodes[i]))
    ensures PathsDistinct(GraphOf(Plan(nodes, skipLabel)))
  {
    hide Plan, GraphOf, PathsDistinct, Zone;
    forall i, j | 0 <= i < j < |nodes| && Included(nodes[i], skipLabel) && Included(nodes[j], skipLabel)
      ensures SubnetName(nodes, skipLabel, i) != SubnetName(nodes, skipLabel, j)
    {
      SubnetsGrow(nodes, skipLabel, i, j);
      if SubnetName(nodes, skipLabel, i) == SubnetName(nodes, skipLabel, j) {
        NameIndexSplits(Zone(nodes[i]), Subnets(nodes[..i], skipLabel),
                        Zone(nodes[j]), Subnets(nodes[..j], skipLabel));
      }
    }
    PathsDistinctExactly(nodes, skipLabel);
  }

  // ---- Labels ending in a digit can clash ----

  /** Eleven nodes, the first in zone "z1" and the others in zone "z". */
  function ClashingNodes(): (nodes: seq<KubeNode>)
    ensures |nodes| == 11
  {
    seq(11, k => KubeNode("n", map[ZONE_LABEL := if k == 0 then "z1" else "z"], false, 0, 0, None, []))
  }

  lemma {:induction false} ClashingNodesCount(k: nat)
    requires k <= 11
    ensures Subnets(ClashingNodes()[..k], "") == k
  {
    if k > 0 {
      ClashingNodesCount(k - 1);
      ClashingZones(k - 1);
      assert ClashingNodes()[..k][..k - 1] == ClashingNodes()[..k - 1];
    }
  }

  lemma ClashingZones(k: nat)
    requires k < 11
    ensures Zone(ClashingNodes()[k]) == (if k == 0 then "z1" else "z") && Included(ClashingNodes()[k], "")
  {
  }

  lemma ClashingNamesPlain()
    ensures PlainNames(ClashingNodes())
  {
  }

  lemma PathsCanClash()
    ensures PlainNames(ClashingNodes()) && !PathsDistinct(GraphOf(Plan(ClashingNodes(), "")))
  {
    hide PlainNames, PathsDistinct, Plan, GraphOf, Included, ClashingNodes, Zone, Digits;
    ClashingNamesPlain();
    ClashingNodesCount(0);
    ClashingNodesCount(10);
    ClashingZones(0);
    ClashingZones(10);
    NameIndexClash();
    ClashingPaths(ClashingNodes(), "", 0, 10);
  }
}
