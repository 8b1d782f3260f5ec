/** Reading an allocation back: the listing of allocated vertices, and what it says of each compute node. */
module Allocation {
  import opened Jgf

  /** One listed vertex, as far as the decoder looks at it. */
  datatype Listed = Listed(vtype: string, basename: string)

  datatype NodeCores = NodeCores(vtype: string, basename: string, coreCount: nat)

  /** The decoder's state: the nodes found so far and the cores listed since the last one. */
  datatype Decoded = Decoded(nodes: seq<NodeCores>, open: nat)

  const NOTHING := Decoded([], 0)

  function Step(d: Decoded, x: Listed): Decoded {
    var open := if x.vtype == CORE_TYPE then d.open + 1 else d.open;
    if x.vtype == NODE_TYPE then Decoded(d.nodes + [NodeCores(x.vtype, x.basename, open)], 0)
    else Decoded(d.nodes, open)
  }

  function Fold(d: Decoded, xs: seq<Listed>): Decoded
    decreases xs
  {
    if xs == [] then d else Fold(Step(d, xs[0]), xs[1..])
  }

  method ParseAllocResult(xs: seq<Listed>) returns (result: seq<NodeCores>)
    ensures result == Fold(NOTHING, xs).nodes
  {
    result := [];
    var corecount := 0;
    for i := 0 to |xs|
      invariant Fold(NOTHING, xs) == Fold(Decoded(result, corecount), xs[i..])
    {
      var item := xs[i];
      assert xs[i..][1..] == xs[i + 1..];
      if item.vtype == CORE_TYPE {
        corecount := corecount + 1;
      }
      if item.vtype == NODE_TYPE {
        result := result + [NodeCores(item.vtype, item.basename, corecount)];
        corecount := 0;
      }
    }
  }

  lemma {:induction false} FoldConcat(d: Decoded, xs: seq<Listed>, ys: seq<Listed>)
    ensures Fold(d, xs + ys) == Fold(Fold(d, xs), ys)
    decreases xs
  {
    if xs == [] {
      assert xs + ys == ys;
    } else {
      assert (xs + ys)[1..] == xs[1..] + ys;
      FoldConcat(Step(d, xs[0]), xs[1..], ys);
    }
  }

  // ---- Conservation, for any listing at all ----

  function SumCores(nodes: seq<NodeCores>): nat {
    if nodes == [] then 0 else nodes[0].coreCount + SumCores(nodes[1..])
  }

  function CoresListed(xs: seq<Listed>): nat {
    if xs == [] then 0 else (if xs[0].vtype == CORE_TYPE then 1 else 0) + CoresListed(xs[1..])
  }

  lemma {:induction false} SumCoresConcat(a: seq<NodeCores>, b: seq<NodeCores>)
    ensures SumCores(a + b) == SumCores(a) + SumCores(b)
  {
    if a == [] {
      assert a + b == b;
    } else {
      assert (a + b)[1..] == a[1..] + b;
      SumCoresConcat(a[1..], b);
    }
  }

  lemma {:induction false} FoldConserves(d: Decoded, xs: seq<Listed>)
    ensures SumCores(Fold(d, xs).nodes) + Fold(d, xs).open == SumCores(d.nodes) + d.open + CoresListed(xs)
    decreases xs
  {
    if xs != [] {
      var e := Step(d, xs[0]);
      FoldConserves(e, xs[1..]);
      if xs[0].vtype == NODE_TYPE {
        SumCoresConcat(d.nodes, [NodeCores(NODE_TYPE, xs[0].basename, d.open)]);
      }
    }
  }

  /** Whatever is listed, in whatever order: the counts and the leftover make up the cores listed. */
  lemma DecodingConserves(xs: seq<Listed>)
    ensures SumCores(Fold(NOTHING, xs).nodes) + Fold(NOTHING, xs).open == CoresListed(xs)
  {
    FoldConserves(NOTHING, xs);
  }

  // ---- Allocation trees and their post-order listing ----

  datatype Tree = Tree(vtype: string, basename: string, kids: seq<Tree>)

  function PostOrder(t: Tree): seq<Listed>
    decreases t, 1
  {
    PostOrderAll(t.kids) + [Listed(t.vtype, t.basename)]
  }

  function PostOrderAll(ts: seq<Tree>): seq<Listed>
    decreases ts, 0
  {
    if ts == [] then [] else PostOrder(ts[0]) + PostOrderAll(ts[1..])
  }

  function OneIf(b: bool): nat {
    if b then 1 else 0
  }

  /** Cores at or below. */
  function TreeCores(t: Tree): nat
    decreases t, 1
  {
    OneIf(t.vtype == CORE_TYPE) + ForestCores(t.kids)
  }

  function ForestCores(ts: seq<Tree>): nat
    decreases ts, 0
  {
    if ts == [] then 0 else TreeCores(ts[0]) + ForestCores(ts[1..])
  }

  predicate HasNode(t: Tree)
    decreases t, 1
  {
    t.vtype == NODE_TYPE || AnyHasNode(t.kids)
  }

  predicate AnyHasNode(ts: seq<Tree>)
    decreases ts, 0
  {
    ts != [] && (HasNode(ts[0]) || AnyHasNode(ts[1..]))
  }

  /** No compute node lies below another. */
  predicate NotNested(t: Tree)
    decreases t, 1
  {
    if t.vtype == NODE_TYPE then !AnyHasNode(t.kids) else NoneNested(t.kids)
  }

  predicate NoneNested(ts: seq<Tree>)
    decreases ts, 0
  {
    ts == [] || (NotNested(ts[0]) && NoneNested(ts[1..]))
  }

  /** The reference: each compute node, in listing order, with its number of core descendants. */
  function ComputeNodes(t: Tree): seq<NodeCores>
    decreases t, 1
  {
    ComputeNodesOf(t.kids)
    + (if t.vtype == NODE_TYPE then [NodeCores(NODE_TYPE, t.basename, ForestCores(t.kids))] else [])
  }

  function ComputeNodesOf(ts: seq<Tree>): seq<NodeCores>
    decreases ts, 0
  {
    if ts == [] then [] else ComputeNodes(ts[0]) + ComputeNodesOf(ts[1..])
  }

  /** Cores below no compute node. */
  function Outside(t: Tree): nat
    decreases t, 1
  {
    if t.vtype == NODE_TYPE then 0 else OneIf(t.vtype == CORE_TYPE) + OutsideAll(t.kids)
  }

  function OutsideAll(ts: seq<Tree>): nat
    decreases ts, 0
  {
    if ts == [] then 0 else Outside(ts[0]) + OutsideAll(ts[1..])
  }

  /** No core outside every compute node stands to the left of a compute node. */
  predicate Orderly(t: Tree)
    decreases t, 1
  {
    t.vtype == NODE_TYPE || OrderlyAll(t.kids)
  }

  predicate OrderlyAll(ts: seq<Tree>)
    decreases ts, 0
  {
    ts == [] || (Orderly(ts[0]) && OrderlyAll(ts[1..]) && (Outside(ts[0]) > 0 ==> !AnyHasNode(ts[1..])))
  }

  lemma {:induction false} FoldNoNode(d: Decoded, t: Tree)
    requires !HasNode(t)
    ensures Fold(d, PostOrder(t)) == d.(open := d.open + TreeCores(t))
    decreases t, 1
  {
    FoldNoNodes(d, t.kids);
    FoldConcat(d, PostOrderAll(t.kids), [Listed(t.vtype, t.basename)]);
  }

  lemma {:induction false} FoldNoNodes(d: Decoded, ts: seq<Tree>)
    requires !AnyHasNode(ts)
    ensures Fold(d, PostOrderAll(ts)) == d.(open := d.open + ForestCores(ts))
    decreases ts, 0
  {
    if ts != [] {
      FoldNoNode(d, ts[0]);
      FoldNoNodes(Fold(d, PostOrder(ts[0])), ts[1..]);
      FoldConcat(d, PostOrder(ts[0]), PostOrderAll(ts[1..]));
    }
  }

  /** Same nodes, counted at least as high. */
  ghost predicate AtLeast(a: seq<NodeCores>, b: seq<NodeCores>) {
    && |a| == |b|
    && forall i :: 0 <= i < |a| ==> a[i].vtype == b[i].vtype && a[i].basename == b[i].basename && a[i].coreCount >= b[i].coreCount
  }

  ghost predicate Extends(d: Decoded, r: Decoded, expected: seq<NodeCores>) {
    && |d.nodes| <= |r.nodes|
    && r.nodes[..|d.nodes|] == d.nodes
    && AtLeast(r.nodes[|d.nodes|..], expected)
  }

  lemma ExtendsTwice(d: Decoded, e: Decoded, r: Decoded, a: seq<NodeCores>, b: seq<NodeCores>)
    requires Extends(d, e, a) && Extends(e, r, b)
    ensures Extends(d, r, a + b)
  {
    var n := |d.nodes|;
    assert forall i :: 0 <= i < |e.nodes| ==> r.nodes[i] == r.nodes[..|e.nodes|][i];
    assert r.nodes[..n] == e.nodes[..n];
    forall i | 0 <= i < |a + b|
      ensures var x, y := r.nodes[n..][i], (a + b)[i];
              x.vtype == y.vtype && x.basename == y.basename && x.coreCount >= y.coreCount
    {
      if i < |a| {
        assert r.nodes[n..][i] == e.nodes[n..][i];
      } else {
        assert r.nodes[n..][i] == r.nodes[|e.nodes|..][i - |a|];
      }
    }
  }

  /** Decoding a tree: it finds the right nodes, counts none too low, and leaves no more than the
      cores outside; it leaves exactly those just when none of them was charged to a node. */
  lemma {:induction false} FoldTree(d: Decoded, t: Tree)
    requires NotNested(t)
    ensures var r := Fold(d, PostOrder(t));
            && Extends(d, r, ComputeNodes(t))
            && r.open <= d.open + Outside(t)
            && (r.open == d.open + Outside(t) <==> Orderly(t) && (d.open > 0 ==> !HasNode(t)))
    decreases t, 1
  {
    var last := [Listed(t.vtype, t.basename)];
    FoldConcat(d, PostOrderAll(t.kids), last);
    var e := Fold(d, PostOrderAll(t.kids));
    if t.vtype == NODE_TYPE {
      FoldNoNodes(d, t.kids);
      NoNodesNone(t.kids);
      assert Fold(e, last).nodes[|d.nodes|..] == [NodeCores(NODE_TYPE, t.basename, d.open + ForestCores(t.kids))];
    } else {
      FoldForest(d, t.kids);
      assert Fold(e, last).nodes == e.nodes;
    }
  }

  lemma {:induction false} FoldForest(d: Decoded, ts: seq<Tree>)
    requires NoneNested(ts)
    ensures var r := Fold(d, PostOrderAll(ts));
            && Extends(d, r, ComputeNodesOf(ts))
            && r.open <= d.open + OutsideAll(ts)
            && (r.open == d.open + OutsideAll(ts) <==> OrderlyAll(ts) && (d.open > 0 ==> !AnyHasNode(ts)))
    decreases ts, 0
  {
    if ts == [] {
      assert d.nodes[..|d.nodes|] == d.nodes;
    } else {
      FoldTree(d, ts[0]);
      var e := Fold(d, PostOrder(ts[0]));
      FoldForest(e, ts[1..]);
      FoldConcat(d, PostOrder(ts[0]), PostOrderAll(ts[1..]));
      ExtendsTwice(d, e, Fold(e, PostOrderAll(ts[1..])), ComputeNodes(ts[0]), ComputeNodesOf(ts[1..]));
    }
  }

  lemma {:induction false} NoNodeNone(t: Tree)
    requires !HasNode(t)
    ensures ComputeNodes(t) == []
    decreases t, 1
  {
    NoNodesNone(t.kids);
  }

  lemma {:induction false} NoNodesNone(ts: seq<Tree>)
    requires !AnyHasNode(ts)
    ensures ComputeNodesOf(ts) == []
    decreases ts, 0
  {
    if ts != [] {
      NoNodeNone(ts[0]);
      NoNodesNone(ts[1..]);
    }
  }

  lemma {:induction false} CoresSplit(t: Tree)
    requires NotNested(t)
    ensures TreeCores(t) == SumCores(ComputeNodes(t)) + Outside(t)
    decreases t, 1
  {
    if t.vtype == NODE_TYPE {
      NoNodesNone(t.kids);
    } else {
      ForestCoresSplit(t.kids);
      assert ComputeNodes(t) == ComputeNodesOf(t.kids);
    }
  }

  lemma {:induction false} ForestCoresSplit(ts: seq<Tree>)
    requires NoneNested(ts)
    ensures ForestCores(ts) == SumCores(ComputeNodesOf(ts)) + OutsideAll(ts)
    decreases ts, 0
  {
    if ts != [] {
      CoresSplit(ts[0]);
      ForestCoresSplit(ts[1..]);
      SumCoresConcat(ComputeNodes(ts[0]), ComputeNodesOf(ts[1..]));
    }
  }

  lemma {:induction false} ListedCores(t: Tree)
    ensures CoresListed(PostOrder(t)) == TreeCores(t)
    decreases t, 1
  {
    ListedForestCores(t.kids);
    CoresListedConcat(PostOrderAll(t.kids), [Listed(t.vtype, t.basename)]);
  }

  lemma {:induction false} ListedForestCores(ts: seq<Tree>)
    ensures CoresListed(PostOrderAll(ts)) == ForestCores(ts)
    decreases ts, 0
  {
    if ts != [] {
      ListedCores(ts[0]);
      ListedForestCores(ts[1..]);
      CoresListedConcat(PostOrder(ts[0]), PostOrderAll(ts[1..]));
    }
  }

  lemma {:induction false} CoresListedConcat(a: seq<Listed>, b: seq<Listed>)
    ensures CoresListed(a + b) == CoresListed(a) + CoresListed(b)
  {
    if a == [] {
      assert a + b == b;
    } else {
      assert (a + b)[1..] == a[1..] + b;
      CoresListedConcat(a[1..], b);
    }
  }

  lemma {:induction false} AtLeastSum(a: seq<NodeCores>, b: seq<NodeCores>)
    requires AtLeast(a, b)
    ensures SumCores(a) >= SumCores(b)
    ensures SumCores(a) == SumCores(b) <==> a == b
  {
    if a != [] {
      AtLeastSum(a[1..], b[1..]);
      assert a == [a[0]] + a[1..] && b == [b[0]] + b[1..];
    }
  }

  /** Exactly when the decoder is right on a tree without nested compute nodes. */
  lemma DecodesTreeExactly(t: Tree)
    requires NotNested(t)
    ensures Fold(NOTHING, PostOrder(t)).nodes == ComputeNodes(t) <==> Orderly(t)
  {
    var r := Fold(NOTHING, PostOrder(t));
    FoldTree(NOTHING, t);
    assert r.nodes[0..] == r.nodes;
    AtLeastSum(r.nodes, ComputeNodes(t));
    DecodingConserves(PostOrder(t));
    ListedCores(t);
    CoresSplit(t);
  }

  /** With every core under exactly one compute node, nothing is left over and every count is right. */
  lemma DecodesCoveredTree(t: Tree)
    requires NotNested(t) && Outside(t) == 0
    ensures Fold(NOTHING, PostOrder(t)) == Decoded(ComputeNodes(t), 0)
  {
    CoveredOrderly(t);
    DecodesTreeExactly(t);
    DecodingConserves(PostOrder(t));
    ListedCores(t);
    CoresSplit(t);
  }

  lemma {:induction false} CoveredOrderly(t: Tree)
    requires Outside(t) == 0
    ensures Orderly(t)
    decreases t, 1
  {
    if t.vtype != NODE_TYPE {
      AllCoveredOrderly(t.kids);
    }
  }

  lemma {:induction false} AllCoveredOrderly(ts: seq<Tree>)
    requires OutsideAll(ts) == 0
    ensures OrderlyAll(ts)
    decreases ts, 0
  {
    if ts != [] {
      CoveredOrderly(ts[0]);
      AllCoveredOrderly(ts[1..]);
    }
  }

  /** The order matters: listing each node before its cores charges them to the next node. */
  lemma PreOrderMiscounts()
    ensures
      var listing := [Listed(NODE_TYPE, "a"), Listed(CORE_TYPE, "core"), Listed(NODE_TYPE, "b")];
      Fold(NOTHING, listing) == Decoded([NodeCores(NODE_TYPE, "a", 0), NodeCores(NODE_TYPE, "b", 1)], 0)
  {
    var listing := [Listed(NODE_TYPE, "a"), Listed(CORE_TYPE, "core"), Listed(NODE_TYPE, "b")];
    var d1 := Step(NOTHING, listing[0]);
    var d2 := Step(d1, listing[1]);
    assert listing[1..][1..] == [listing[2]];
    assert Fold(d2, [listing[2]]) == Step(d2, listing[2]);
    assert Fold(d1, listing[1..]) == Fold(d2, [listing[2]]);
  }
}
