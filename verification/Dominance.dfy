/** Dominance in a control-flow graph, and how it shows in a depth-first tree. */
module Dominance {
  import opened Cfg
  import opened DepthFirst
  import opened Semidominators
  import DominatorTree

  /** Every path from the entry to `b` goes through `a`. */
  ghost predicate Dominates(next: Graph, a: int, b: int) {
    && 0 <= a < |next| && 0 <= b < |next|
    && forall p :: IsPath(next, p) && p[0] == 0 && p[|p| - 1] == b ==> a in p
  }

  /** `t` is the dominator tree of the graph. */
  ghost predicate IsDominatorTree(next: Graph, t: DominatorTree.Tree) {
    && DominatorTree.IsTree(t) && |t.idom| == |next|
    && forall a, b :: 0 <= a < |next| && 0 <= b < |next| ==> (DominatorTree.Above(t, a, b) <==> Dominates(next, a, b))
  }

  lemma {:induction false} SuffixAncestor(next: Graph, s: Search, p: seq<int>, i: int)
    requires DfsTree(next, s) && IsPath(next, p) && 0 <= i < |p|
    requires forall k :: 0 < k < |p| ==> 0 < p[k] < |s.parent| && p[k - 1] == s.parent[p[k]]
    ensures Anc(s, p[i], p[|p| - 1])
    decreases |p| - i
  {
    hide DfsTree;
    Sizes(next, s);
    if i == |p| - 1 {
      AncRefl(next, s, p[i]);
    } else {
      SuffixAncestor(next, s, p, i + 1);
      ParentFacts(next, s, p[i + 1]);
      AncTrans(next, s, p[i], p[i + 1], p[|p| - 1]);
    }
  }

  lemma EntryAncestor(next: Graph, s: Search, b: int)
    requires DfsTree(next, s) && 0 <= b < |next|
    ensures Anc(s, 0, b) && 0 < |next|
  {
  }

  /** A dominator is an ancestor in every depth-first tree. */
  lemma DominatorIsAncestor(next: Graph, s: Search, a: int, b: int)
    requires DfsTree(next, s) && Dominates(next, a, b)
    ensures Anc(s, a, b)
  {
    hide DfsTree, IsPath;
    EntryAncestor(next, s, b);
    var p := TreePath(next, s, 0, b);
    assert a in p;
    var i :| 0 <= i < |p| && p[i] == a;
    SuffixAncestor(next, s, p, i);
  }

  /** `d` is the immediate dominator of `w`: the proper dominator that all others dominate. */
  ghost predicate IsImmediateDominator(next: Graph, d: int, w: int) {
    && Dominates(next, d, w) && d != w
    && forall e :: e != w && Dominates(next, e, w) ==> Dominates(next, e, d)
  }

  /** A semidominator is a proper ancestor. */
  lemma SemidominatorAncestor(next: Graph, s: Search, w: int, v: int)
    requires DfsTree(next, s) && 0 < w < |next| && |s.pre| == |next| && IsSemidominator(next, s, w, v)
    ensures Anc(s, v, w) && v != w && s.pre[v] < s.pre[w]
  {
    SemiBelow(next, s, w, v);
    hide DfsTree;
    var p :| SemiPath(next, s, w, p) && p[0] == v;
    PathDescends(next, s, p, |p| - 1);
  }

  /** A path that avoids `d`, followed by a tree path below `d`, avoids `d`. */
  lemma DominatesAncestor(next: Graph, s: Search, d: int, x: int, w: int)
    requires DfsTree(next, s) && |s.pre| == |next| && Dominates(next, d, w) && Anc(s, x, w) && s.pre[d] < s.pre[x]
    ensures Dominates(next, d, x)
  {
    hide DfsTree;
    forall p | IsPath(next, p) && p[0] == 0 && p[|p| - 1] == x ensures d in p {
      var q := TreePath(next, s, x, w);
      PathNonempty(next, q);
      PathNonempty(next, p);
      PathJoin(next, p, q);
      var r := p + q[1..];
      assert forall k :: 0 <= k < |q| ==> Anc(s, x, q[k]);
      assert d !in q;
      assert d in r;
    }
  }
}
