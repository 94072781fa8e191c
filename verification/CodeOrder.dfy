/** The whole way from a control-flow graph to the emission order, with the tree that the code computes. */
module CodeOrder {
  import opened Cfg
  import opened DepthFirst
  import opened Semidominators
  import opened Dominance
  import opened ImmediateDominators
  import DominatorTree
  import Reducibility
  import Stackifier
  import StackifierOrder

  /** All phases.  The order is right exactly when the graph is accepted as reducible and its tree paths are clear. */
  method OrderCode(next: Graph, prev: Graph) returns (fail: int, topo: seq<int>, requests: seq<seq<int>>, ghost s: Search,
                                                      ghost semi: seq<int>)
    requires IsGraph(next) && AllReachable(next) && IsPrev(next, prev) && |next| <= INT_MAX
    ensures |topo| == |next| && forall x, y :: 0 <= x < |topo| && 0 <= y < |topo| && topo[x] == topo[y] ==> x == y
    ensures SemiOk(next, s, semi) && (StackifierOrder.OrderOk(next, topo, requests) <==> fail == 0 && AllClear(next, s, semi))
  {
    hide AllReachable, IsPrev, SemiOk, AllClear, Computed, DominatorTree.IsTree, StackifierOrder.OrderOk,
         StackifierOrder.BranchesBelow, StackifierOrder.Opens;
    var t;
    t, s, semi := ComputeDominatorTree(next, prev);
    BelowIffClear(next, s, semi, t);
    fail, topo, requests := StackifierOrder.OrderBlocks(next, prev, t);
  }

  /** In the computed tree every branch starts below its target's parent if and only if every tree path is clear. */
  lemma BelowIffClear(next: Graph, s: Search, semi: seq<int>, t: DominatorTree.Tree)
    requires IsGraph(next) && SemiOk(next, s, semi) && DominatorTree.IsTree(t) && |t.idom| == |next|
    requires forall w :: 0 <= w < |next| ==> t.idom[w] == Computed(next, s, semi, w)
    ensures StackifierOrder.BranchesBelow(next, t) <==> AllClear(next, s, semi)
  {
    hide SemiOk, Computed, Dominates, IsImmediateDominator, ClearBelow, DominatorTree.Above, DominatorTree.IsTree, IsDominatorTree,
         StackifierOrder.BranchesBelow;
    TreeRightIffClear(next, s, semi, t);
    if IsDominatorTree(next, t) { StackifierOrder.DominatorTreeBelow(next, t); }
    if StackifierOrder.BranchesBelow(next, t) {
      forall w | 0 < w < |next| ensures ClearBelow(next, s, semi, Computed(next, s, semi, w), w) {
        ImmediateDominators.ParentAbove(t, w);
        StackifierOrder.AncestorsDominate(next, t, t.idom[w], w);
        RightIffDominates(next, s, semi, w);
        RightIffClear(next, s, semi, w);
      }
    }
  }

  // ---------- where it goes wrong ----------

  /** The tree computed for the graph of `ComputedCanBeWrong`. */
  ghost predicate IsWrongTree(t: DominatorTree.Tree) {
    DominatorTree.IsTree(t) && |t.idom| == 5 && t.idom[1] == 0 && t.idom[2] == 0 && t.idom[3] == 1 && t.idom[4] == 1
  }

  lemma WrongTreeIs(t: DominatorTree.Tree)
    requires DominatorTree.IsTree(t) && |t.idom| == 5 && SemiOk(WrongGraph(), WrongSearch(), WrongSemi()) && |WrongGraph()| == 5
    requires forall w :: 0 <= w < 5 ==> t.idom[w] == Computed(WrongGraph(), WrongSearch(), WrongSemi(), w)
    ensures IsWrongTree(t)
  {
    hide DominatorTree.IsTree, SemiOk, Computed, WrongGraph, WrongSearch, WrongSemi, RelativeDominator, TopBelow, Anc, DfsTree;
    var g, s, semi := WrongGraph(), WrongSearch(), WrongSemi();
    WrongParents();
    WrongComputed();
    ComputedEntryIs(g, s, semi);
    RelativeIs(g, s, semi, 1);
    RelativeIs(g, s, semi, 2);
    RelativeIs(g, s, semi, 3);
    RelativeIs(g, s, semi, 4);
    SemiSizes(g, s, semi);
    TopOfFour(g, s);
    ComputedIs(g, s, semi, 1);
    ComputedIs(g, s, semi, 2);
    ComputedIs(g, s, semi, 3);
  }

  /** In the tree, block `a` is above block `b` only in these cases. */
  lemma WrongAbove(t: DominatorTree.Tree, a: int, b: int)
    requires IsWrongTree(t) && 0 <= b < 5
    ensures DominatorTree.Above(t, a, b) <==> a == b || a == 0 || (a == 1 && b in {3, 4})
  {
  }

  /** Along every edge of the graph the preorder number grows. */
  lemma WrongClimbs(u: int, v: int)
    requires Edge(WrongGraph(), u, v)
    ensures 0 <= u < 5 && 0 <= v < 5 && |WrongSearch().pre| == 5 && WrongSearch().pre[u] < WrongSearch().pre[v]
  {
    hide WrongGraph;
    WrongEdges(u, v);
  }

  lemma {:induction false} WrongPathClimbs(back: Reducibility.EdgeFlags, p: seq<int>)
    requires IsGraph(WrongGraph()) && Reducibility.FlagsFor(WrongGraph(), back) && IsPath(Reducibility.ForwardGraph(WrongGraph(), back), p)
    requires |WrongSearch().pre| == |WrongGraph()|
    ensures 0 <= p[0] < |WrongGraph()| && 0 <= p[|p| - 1] < |WrongGraph()|
    ensures WrongSearch().pre[p[0]] + |p| - 1 <= WrongSearch().pre[p[|p| - 1]]
    decreases |p|
  {
    hide WrongGraph, WrongSearch, Reducibility.ForwardGraph;
    Reducibility.ForwardSize(WrongGraph(), back);
    if |p| > 1 {
      var n := |p| - 1;
      PathSplit(Reducibility.ForwardGraph(WrongGraph(), back), p, n - 1);
      WrongPathClimbs(back, p[..n]);
      var j := Reducibility.FromForward(WrongGraph(), back, p[n - 1], p[n - 1 + 1]);
      assert p[n] in WrongGraph()[p[n - 1]];
      WrongClimbs(p[n - 1], p[n]);
    }
  }

  /** The graph is accepted as reducible, whatever edges are flagged. */
  lemma WrongGraphAccepted(back: Reducibility.EdgeFlags)
    requires IsGraph(WrongGraph()) && Reducibility.FlagsFor(WrongGraph(), back)
    ensures Reducibility.AcyclicFromEntry(Reducibility.ForwardGraph(WrongGraph(), back))
  {
    WrongBlock(0);
    hide WrongGraph, WrongSearch, Reducibility.ForwardGraph;
    forall p | Reducibility.IsCycle(Reducibility.ForwardGraph(WrongGraph(), back), p) ensures false { WrongPathClimbs(back, p); }
  }

  /** With the tree computed for the graph, the order is 0, 1, 3, 4, 2: the forward edge from 2 to 4 goes backwards, whatever
      blocks and loops are requested. */
  lemma WrongOrder(t: DominatorTree.Tree, topo: seq<int>, inv: seq<int>, ends: seq<int>)
    requires DominatorTree.IsTree(t) && |t.idom| == 5 && SemiOk(WrongGraph(), WrongSearch(), WrongSemi()) && |WrongGraph()| == 5
    requires forall w :: 0 <= w < 5 ==> t.idom[w] == Computed(WrongGraph(), WrongSearch(), WrongSemi(), w)
    requires Stackifier.IsTopo(t, WrongSearch().post, topo, inv, ends)
    ensures topo == [0, 1, 4, 2, 3]
    ensures Edge(WrongGraph(), 2, 4) && !DominatorTree.Above(t, 4, 2)
    ensures forall requests :: !StackifierOrder.OrderOk(WrongGraph(), topo, requests)
  {
    hide DominatorTree.IsTree, DominatorTree.Above, SemiOk, Computed, WrongGraph, WrongSearch, Stackifier.IsTopo, Edge, Dominates,
         StackifierOrder.BranchOk;
    WrongTreeIs(t);
    WrongEdges(2, 4);
    WrongAbove(t, 4, 2);
    WrongTopo(t, topo, inv, ends);
    FourSkipped();
  }

  lemma FourSkipped()
    ensures !Dominates(WrongGraph(), 4, 2)
  {
    WrongParents();
    hide WrongGraph, Edge;
    WrongEdges(0, 2);
    var p := [0, 2];
    assert IsPath(WrongGraph(), p) && p[0] == 0 && p[|p| - 1] == 2 && 4 !in p;
  }

  lemma WrongTopo(t: DominatorTree.Tree, topo: seq<int>, inv: seq<int>, ends: seq<int>)
    requires IsWrongTree(t) && Stackifier.IsTopo(t, WrongSearch().post, topo, inv, ends)
    ensures topo == [0, 1, 4, 2, 3]
  {
    WrongAbove(t, 0, 1);
    WrongAbove(t, 1, 3);
    WrongAbove(t, 1, 4);
    var post := WrongSearch().post;
    assert post == [4, 3, 1, 2, 0];
    hide DominatorTree.Above, DominatorTree.IsTree, Stackifier.IsTopo, WrongGraph, WrongSearch, Edge;
    StackifierOrder.TopoFacts(t, post, topo, inv, ends, 0, 1);
    StackifierOrder.TopoFacts(t, post, topo, inv, ends, 1, 3);
    StackifierOrder.TopoFacts(t, post, topo, inv, ends, 1, 4);
    StackifierOrder.TopoFacts(t, post, topo, inv, ends, 1, 2);
    StackifierOrder.TopoFacts(t, post, topo, inv, ends, 3, 4);
    StackifierOrder.TopoFacts(t, post, topo, inv, ends, 4, 4);
    StackifierOrder.TopoFacts(t, post, topo, inv, ends, 2, 2);
  }
}
