/** What the emission order guarantees: forward edges go forward, into an open wasm block when they are not
    adjacent; back edges stay inside their loop; and all requested intervals are properly nested. */
module StackifierOrder {
  import opened Cfg
  import opened DepthFirst
  import Semidominators
  import opened DominatorTree
  import opened Reducibility
  import opened Stackifier
  import opened Dominance
  import PointerSort

  /** The back edges have been marked, and the other edges form no cycle. */
  ghost predicate Reduced(next: Graph, t: Tree, back: EdgeFlags) {
    && IsGraph(next) && IsTree(t) && FlagsFor(next, back)
    && (forall b, j :: 0 <= b < |next| && 0 <= j < |next[b]| ==> (back[b][j] <==> Above(t, next[b][j], b)))
    && AcyclicFromEntry(ForwardGraph(next, back))
  }

  // ---------- what the order needs of the tree ----------

  /** Every branch starts in the subtree of its target's parent. */
  ghost predicate BranchesBelow(next: Graph, t: Tree) {
    && IsTree(t) && |t.idom| == |next|
    && forall u, v :: Edge(next, u, v) && 0 < v < |next| ==> Above(t, t.idom[v], u)
  }

  lemma BranchBelow(next: Graph, t: Tree, u: int, v: int)
    requires IsGraph(next) && BranchesBelow(next, t) && Edge(next, u, v) && !Above(t, v, u)
    ensures 0 < v < |next| == |t.idom| && 0 <= u < |next| && Above(t, t.idom[v], u) && Above(t, t.idom[v], v) && v in t.children[t.idom[v]]
  {
    assert v in next[u];
    if v == 0 { RootAbove(t, u); assert false; }
    var d := t.idom[v];
    assert v in t.children[d];
    ChildBelow(t, d, v);
  }

  /** Then a block is dominated by all blocks above it: the last edge of a path to it starts below its parent. */
  lemma {:induction false} AboveOnPath(next: Graph, t: Tree, a: int, b: int, p: seq<int>)
    requires BranchesBelow(next, t) && Above(t, a, b) && IsPath(next, p) && p[0] == 0 && p[|p| - 1] == b
    ensures a in p
    decreases |p|
  {
    hide Above, IsTree;
    if a != b {
      AboveParent(t, a, b);
      var n := |p| - 1;
      assert Edge(next, p[n - 1], p[n - 1 + 1]);
      AboveTrans(t, a, t.idom[b], p[n - 1]);
      PathSplit(next, p, n - 1);
      AboveOnPath(next, t, a, p[n - 1], p[..n]);
    }
  }

  lemma AboveParent(t: Tree, a: int, b: int)
    requires IsTree(t) && Above(t, a, b) && a != b
    ensures 0 < b < |t.idom| && Above(t, a, t.idom[b])
  {
  }

  lemma AncestorsDominate(next: Graph, t: Tree, a: int, b: int)
    requires BranchesBelow(next, t) && Above(t, a, b)
    ensures Dominates(next, a, b)
  {
    AboveInRange(t, a, b);
    hide Above, BranchesBelow;
    forall p | IsPath(next, p) && p[0] == 0 && p[|p| - 1] == b ensures a in p { AboveOnPath(next, t, a, b, p); }
  }

  lemma BelowFacts(next: Graph, t: Tree)
    requires BranchesBelow(next, t)
    ensures IsTree(t) && |t.idom| == |next|
  {
  }

  /** The dominator tree is such a tree. */
  lemma DominatorTreeBelow(next: Graph, t: Tree)
    requires IsGraph(next) && IsDominatorTree(next, t)
    ensures BranchesBelow(next, t)
  {
    hide Above;
    forall u, v | Edge(next, u, v) && 0 < v < |next| ensures Above(t, t.idom[v], u) {
      InTree(t, v);
      InChildrenOf(t, v);
      var d := t.idom[v];
      ChildBelow(t, d, v);
      assert Dominates(next, d, v);
      if Above(t, v, u) {
        AboveTrans(t, d, v, u);
      } else {
        forall p | IsPath(next, p) && p[0] == 0 && p[|p| - 1] == u ensures d in p {
          Semidominators.PathSnoc(next, p, v);
          var q := p + [v];
          assert q[0] == 0 && q[|q| - 1] == v;
        }
        assert Dominates(next, d, u);
      }
    }
  }

  /** It is the only one in which every dominator is above what it dominates. */
  lemma BelowIffDominatorTree(next: Graph, t: Tree)
    requires IsGraph(next) && IsTree(t) && |t.idom| == |next|
    requires forall a, b :: Dominates(next, a, b) ==> Above(t, a, b)
    ensures BranchesBelow(next, t) <==> IsDominatorTree(next, t)
  {
    hide Above, Dominates, IsTree, BranchesBelow;
    if IsDominatorTree(next, t) { DominatorTreeBelow(next, t); }
    if BranchesBelow(next, t) {
      forall a, b | 0 <= a < |next| && 0 <= b < |next| ensures Above(t, a, b) <==> Dominates(next, a, b) {
        if Above(t, a, b) { AncestorsDominate(next, t, a, b); }
      }
    }
  }

  /** A tree may be flatter than that: the one in which every block is a child of the entry will do for every graph. */
  lemma FlatTreeBelow(next: Graph, t: Tree)
    requires IsGraph(next) && IsTree(t) && |t.idom| == |next| && forall b :: 0 <= b < |t.idom| ==> t.idom[b] == 0
    ensures BranchesBelow(next, t)
  {
    hide Above;
    forall u, v | Edge(next, u, v) && 0 < v < |next| ensures Above(t, t.idom[v], u) { RootAbove(t, u); }
  }

  /** For three blocks in a row it will do although block 1 dominates block 2. */
  lemma FlatTreeIsEnough(t: Tree)
    requires IsTree(t) && t.idom == [0, 0, 0]
    ensures BranchesBelow([[1], [2], []], t) && !IsDominatorTree([[1], [2], []], t)
  {
    var next: Graph := [[1], [2], []];
    FlatTreeBelow(next, t);
    assert !Above(t, 1, 2);
    hide Above, IsTree;
    forall p | IsPath(next, p) && p[0] == 0 && p[|p| - 1] == 2 ensures 1 in p {
      assert Edge(next, p[|p| - 2], p[|p| - 2 + 1]);
    }
    assert Dominates(next, 1, 2);
  }

  // ---------- tree edges are forward edges ----------

  lemma ForwardEdge(next: Graph, t: Tree, back: EdgeFlags, u: int, v: int)
    requires Reduced(next, t, back) && Edge(next, u, v) && !Above(t, v, u)
    ensures Edge(ForwardGraph(next, back), u, v) && |ForwardGraph(next, back)| == |next|
  {
    hide Above, IsTree, AcyclicFromEntry;
    var j :| 0 <= j < |next[u]| && next[u][j] == v;
    InForward(next, back, u, j);
  }

  lemma TreeEdgeForward(next: Graph, s: Search, t: Tree, back: EdgeFlags, x: int)
    requires DfsTree(next, s) && BranchesBelow(next, t) && Reduced(next, t, back) && 0 < x < |s.parent| == |next|
    ensures Edge(ForwardGraph(next, back), s.parent[x], x)
  {
    hide DfsTree, Reduced, Above, ForwardGraph;
    Semidominators.ParentFacts(next, s, x);
    if Above(t, x, s.parent[x]) {
      AncestorsDominate(next, t, x, s.parent[x]);
      DominatorIsAncestor(next, s, x, s.parent[x]);
      assert false;
    }
    ForwardEdge(next, t, back, s.parent[x], x);
  }

  lemma TreePathForward(next: Graph, s: Search, t: Tree, back: EdgeFlags, a: int, b: int)
    requires DfsTree(next, s) && BranchesBelow(next, t) && Reduced(next, t, back) && Anc(s, a, b)
    ensures Reaches(ForwardGraph(next, back), a, b)
  {
    hide DfsTree, Reduced, BranchesBelow, ForwardGraph;
    assert |ForwardGraph(next, back)| == |next| by { ReducedSize(next, t, back); }
    Semidominators.Sizes(next, s);
    var p := Semidominators.TreePath(next, s, a, b);
    forall i | 0 <= i < |p| - 1 ensures Edge(ForwardGraph(next, back), p[i], p[i + 1]) {
      TreeEdgeForward(next, s, t, back, p[i + 1]);
    }
    assert IsPath(ForwardGraph(next, back), p);
  }

  lemma ReducedSize(next: Graph, t: Tree, back: EdgeFlags)
    requires Reduced(next, t, back)
    ensures FlagsFor(next, back) && |ForwardGraph(next, back)| == |next| && AcyclicFromEntry(ForwardGraph(next, back)) && IsGraph(next)
  {
    ForwardSize(next, back);
  }

  /** In a reducible graph, a forward edge leads to a block that the search leaves earlier. */
  lemma ForwardPost(next: Graph, s: Search, t: Tree, back: EdgeFlags, u: int, v: int)
    requires DfsTree(next, s) && BranchesBelow(next, t) && Reduced(next, t, back) && Edge(next, u, v) && !Above(t, v, u)
    ensures 0 <= u < |s.post| && 0 <= v < |s.post| && s.post[v] < s.post[u]
  {
    hide DfsTree, Reduced, BranchesBelow, ForwardGraph, AcyclicFromEntry, Reaches;
    ReducedSize(next, t, back);
    assert v in next[u];
    BelowFacts(next, t);
    if u == v { SelfAbove(t, u); assert false; }
    if Anc(s, v, u) {
      TreePathForward(next, s, t, back, v, u);
      EntryAncestor(next, s, u);
      TreePathForward(next, s, t, back, 0, u);
      ForwardEdge(next, t, back, u, v);
      GreyCloses(ForwardGraph(next, back), u, v);
      assert false;
    }
    EdgePost(next, s, u, v);
  }

  lemma EdgePost(next: Graph, s: Search, u: int, v: int)
    requires DfsTree(next, s) && IsGraph(next) && Edge(next, u, v) && u != v && !Anc(s, v, u)
    ensures 0 <= u < |s.post| && 0 <= v < |s.post| && s.post[v] < s.post[u]
  {
    Semidominators.Sizes(next, s);
    assert v in next[u] && 0 <= v < |next|;
    if s.pre[u] == s.pre[v] { Semidominators.SamePre(next, s, u, v); assert false; }
  }

  lemma AncPost(next: Graph, s: Search, a: int, b: int)
    requires DfsTree(next, s) && Anc(s, a, b)
    ensures |s.post| == |next| == |s.pre| && s.post[b] <= s.post[a]
  {
    if s.pre[a] == s.pre[b] { Semidominators.SamePre(next, s, a, b); }
  }

  // ---------- the order ----------

  lemma TopoFacts(t: Tree, post: seq<int>, topo: seq<int>, inv: seq<int>, ends: seq<int>, x: int, y: int)
    requires IsTopo(t, post, topo, inv, ends) && 0 <= x < |t.idom| && 0 <= y < |t.idom|
    ensures |topo| == |inv| == |ends| == |post| == |t.idom| && 0 <= topo[x] < ends[x] <= |t.idom| && inv[topo[x]] == x
    ensures Above(t, x, y) <==> topo[x] <= topo[y] < ends[x]
    ensures topo[x] == topo[y] ==> x == y
    ensures Siblings(t, x, y) && post[x] > post[y] ==> ends[x] <= topo[y]
  {
    hide Above, IsTree;
    assert inv[topo[x]] == x && inv[topo[y]] == y;
  }

  lemma AtPosition(t: Tree, post: seq<int>, topo: seq<int>, inv: seq<int>, ends: seq<int>, k: int)
    requires IsTopo(t, post, topo, inv, ends) && 0 <= k < |t.idom|
    ensures |topo| == |inv| == |t.idom| && 0 <= inv[k] < |topo| && topo[inv[k]] == k
  {
    hide Above, IsTree;
  }

  /** The source of every forward edge is placed before its target, and not before the position where a wasm
      block for the target would be opened. */
  lemma ForwardEdgesGoForward(next: Graph, s: Search, t: Tree, back: EdgeFlags, topo: seq<int>, inv: seq<int>, ends: seq<int>,
                              u: int, v: int)
    requires DfsTree(next, s) && BranchesBelow(next, t) && Reduced(next, t, back) && IsTopo(t, s.post, topo, inv, ends)
    requires Edge(next, u, v) && !Above(t, v, u)
    ensures |topo| == |t.idom| && 0 <= u < |topo| && 0 < v < |topo| && t.idom[v] < |topo|
    ensures topo[t.idom[v]] <= topo[u] < topo[v]
  {
    hide DfsTree, Reduced, BranchesBelow, IsTopo, Above, IsTree;
    ReducedSize(next, t, back);
    BelowFacts(next, t);
    BranchBelow(next, t, u, v);
    var d := t.idom[v];
    InTree(t, v);
    TopoFacts(t, s.post, topo, inv, ends, d, u);
    TopoFacts(t, s.post, topo, inv, ends, d, v);
    if u != d {
      BelowSibling(next, s, t, back, topo, inv, ends, u, v);
    } else {
      ChildBelow(t, d, v);
    }
  }

  lemma InTree(t: Tree, v: int)
    requires IsTree(t) && 0 < v < |t.idom|
    ensures t.idom[v] < |t.idom| == |t.children|
  {
  }

  /** The case where the source lies below a sibling of the target. */
  lemma BelowSibling(next: Graph, s: Search, t: Tree, back: EdgeFlags, topo: seq<int>, inv: seq<int>, ends: seq<int>, u: int, v: int)
    requires DfsTree(next, s) && BranchesBelow(next, t) && Reduced(next, t, back) && IsTopo(t, s.post, topo, inv, ends)
    requires Edge(next, u, v) && !Above(t, v, u) && 0 < v < |t.idom| && Above(t, t.idom[v], u) && u != t.idom[v]
    requires 0 <= t.idom[v] < |t.children| && v in t.children[t.idom[v]]
    ensures |topo| == |t.idom| && 0 <= u < |topo| && topo[u] < topo[v]
  {
    hide DfsTree, Reduced, BranchesBelow, IsTopo, Above, IsTree;
    BelowFacts(next, t);
    var d := t.idom[v];
    var c := ChildAbove(t, d, u);
    ChildBelow(t, d, c);
    AboveInRange(t, c, u);
    ForwardPost(next, s, t, back, u, v);
    AncestorsDominate(next, t, c, u);
    DominatorIsAncestor(next, s, c, u);
    AncPost(next, s, c, u);
    assert Siblings(t, c, v);
    TopoFacts(t, s.post, topo, inv, ends, c, v);
    TopoFacts(t, s.post, topo, inv, ends, c, u);
  }

  lemma AboveInRange(t: Tree, a: int, b: int)
    requires IsTree(t) && Above(t, a, b)
    ensures 0 <= a < |t.idom| && 0 <= b < |t.idom|
  {
  }

  // ---------- requested intervals ----------

  /** Position `k` requests a wasm block or loop; `e` encodes where it ends. */
  ghost predicate Opens(requests: seq<seq<int>>, k: int, e: int) {
    0 <= k < |requests| && e in requests[k]
  }

  /** Every request is a loop over the subtree of its header, or a block that ends where a child of the block
      at its position starts. */
  lemma RequestIs(t: Tree, post: seq<int>, prev: Graph, header: seq<bool>, topo: seq<int>, inv: seq<int>, ends: seq<int>,
                  requests: seq<seq<int>>, k: int, e: int)
    requires IsTopo(t, post, topo, inv, ends) && Requested(t, prev, header, topo, inv, ends, requests)
    ensures Opens(requests, k, e) <==>
            0 <= k < |topo| && 0 <= inv[k] < |topo| && (|| (header[inv[k]] && e == 2 * ends[inv[k]])
                                || (exists i :: 0 < i < |topo| && NeedsBlock(prev, topo, i) && t.idom[i] == inv[k] && e == 2 * topo[i] + 1))
  {
    hide IsTree, Above, NeedsBlock, IsTopo;
    if 0 <= k < |requests| {
      AtPosition(t, post, topo, inv, ends, k);
      BlockRequestsAre(prev, topo, t.idom, k, |topo|, e);
      NoBlockForEntry(t, post, prev, topo, inv, ends);
      ParentPosition(t, post, topo, inv, ends, k);
    }
  }

  lemma ParentPosition(t: Tree, post: seq<int>, topo: seq<int>, inv: seq<int>, ends: seq<int>, k: int)
    requires IsTopo(t, post, topo, inv, ends) && 0 <= k < |t.idom| && |topo| == |inv| == |t.idom|
    ensures forall i :: 0 < i < |topo| ==> t.idom[i] < |topo| && (t.idom[i] == inv[k] <==> topo[t.idom[i]] == k)
  {
    hide Above;
  }

  lemma NoBlockForEntry(t: Tree, post: seq<int>, prev: Graph, topo: seq<int>, inv: seq<int>, ends: seq<int>)
    requires IsTopo(t, post, topo, inv, ends) && |prev| == |t.idom|
    ensures |topo| == |t.idom| && 0 < |topo| && !NeedsBlock(prev, topo, 0)
  {
    hide Above;
    forall x | 0 <= x < |topo| ensures topo[0] <= topo[x] { RootAbove(t, x); }
    assert topo[inv[0]] == 0;
  }

  /** Ends of subtrees nest. */
  lemma EndsNest(t: Tree, post: seq<int>, topo: seq<int>, inv: seq<int>, ends: seq<int>, x: int, y: int)
    requires IsTopo(t, post, topo, inv, ends) && 0 <= x < |t.idom| && 0 <= y < |t.idom| && Above(t, x, y)
    ensures |ends| == |t.idom| && ends[y] <= ends[x]
  {
    hide IsTopo, Above;
    TopoTree(t, post, topo, inv, ends);
    TopoFacts(t, post, topo, inv, ends, x, y);
    TopoFacts(t, post, topo, inv, ends, y, x);
    if ends[y] > ends[x] {
      var k := ends[x];
      AtPosition(t, post, topo, inv, ends, k);
      var z := inv[k];
      TopoFacts(t, post, topo, inv, ends, y, z);
      AboveTrans(t, x, y, z);
      TopoFacts(t, post, topo, inv, ends, x, z);
    }
  }

  /** An interval opened at `k` stays within the subtree of the block at `k`. */
  lemma OpensInSubtree(t: Tree, post: seq<int>, prev: Graph, header: seq<bool>, topo: seq<int>, inv: seq<int>, ends: seq<int>,
                       requests: seq<seq<int>>, k: int, e: int)
    requires IsTopo(t, post, topo, inv, ends) && Requested(t, prev, header, topo, inv, ends, requests) && Opens(requests, k, e)
    ensures 0 <= k < |inv| && 0 <= inv[k] < |ends| && k < e / 2 <= ends[inv[k]]
  {
    hide IsTopo, Above, NeedsBlock, Requested, Opens;
    assert IsTree(t) by { TopoTree(t, post, topo, inv, ends); }
    RequestIs(t, post, prev, header, topo, inv, ends, requests, k, e);
    TopoSizes(t, post, prev, header, topo, inv, ends, requests);
    AtPosition(t, post, topo, inv, ends, k);
    var x := inv[k];
    TopoFacts(t, post, topo, inv, ends, x, x);
    if e != 2 * ends[x] || !header[x] {
      var i :| 0 < i < |topo| && NeedsBlock(prev, topo, i) && t.idom[i] == x && e == 2 * topo[i] + 1;
      ChildBelow(t, x, i);
      TopoFacts(t, post, topo, inv, ends, x, i);
    }
  }

  lemma TopoTree(t: Tree, post: seq<int>, topo: seq<int>, inv: seq<int>, ends: seq<int>)
    requires IsTopo(t, post, topo, inv, ends)
    ensures IsTree(t)
  {
  }

  lemma TopoSizes(t: Tree, post: seq<int>, prev: Graph, header: seq<bool>, topo: seq<int>, inv: seq<int>, ends: seq<int>,
                  requests: seq<seq<int>>)
    requires IsTopo(t, post, topo, inv, ends) && Requested(t, prev, header, topo, inv, ends, requests)
    ensures |topo| == |inv| == |ends| == |header| == |prev| == |requests| == |t.idom|
  {
  }

  /** Of two requested intervals opened at different positions, the later is over before the earlier one ends, or starts
      after its end: wasm control structure can express them all. */
  lemma IntervalsNest(t: Tree, post: seq<int>, prev: Graph, header: seq<bool>, topo: seq<int>, inv: seq<int>, ends: seq<int>,
                      requests: seq<seq<int>>, k: int, e: int, k': int, e': int)
    requires IsTopo(t, post, topo, inv, ends) && Requested(t, prev, header, topo, inv, ends, requests)
    requires Opens(requests, k, e) && Opens(requests, k', e') && k < k'
    ensures k < e / 2 && k' < e' / 2
    ensures e' / 2 <= e / 2 || e / 2 <= k'
  {
    hide IsTopo, Above, NeedsBlock, Requested, Opens, IsTree;
    TopoTree(t, post, topo, inv, ends);
    TopoSizes(t, post, prev, header, topo, inv, ends, requests);
    OpensInSubtree(t, post, prev, header, topo, inv, ends, requests, k, e);
    OpensInSubtree(t, post, prev, header, topo, inv, ends, requests, k', e');
    RequestIs(t, post, prev, header, topo, inv, ends, requests, k, e);
    RequestIs(t, post, prev, header, topo, inv, ends, requests, k', e');
    AtPosition(t, post, topo, inv, ends, k);
    AtPosition(t, post, topo, inv, ends, k');
    var x, y := inv[k], inv[k'];
    TopoFacts(t, post, topo, inv, ends, x, y);
    if k' < e / 2 {
      EndsNest(t, post, topo, inv, ends, x, y);
      if e != 2 * ends[x] || !header[x] {
        var i :| 0 < i < |topo| && NeedsBlock(prev, topo, i) && t.idom[i] == x && e == 2 * topo[i] + 1;
        BeforeChild(t, post, topo, inv, ends, x, i, y);
      }
    }
  }

  /** A block between `x` and its child `i` belongs to a subtree that ends before `i`. */
  lemma BeforeChild(t: Tree, post: seq<int>, topo: seq<int>, inv: seq<int>, ends: seq<int>, x: int, i: int, y: int)
    requires IsTopo(t, post, topo, inv, ends) && 0 <= x < |t.idom| && 0 < i < |t.idom| && t.idom[i] == x && 0 <= y < |t.idom|
    requires |topo| == |t.idom| && topo[x] < topo[y] < topo[i]
    ensures |ends| == |t.idom| && ends[y] <= topo[i]
  {
    hide IsTopo, Above, IsTree;
    TopoTree(t, post, topo, inv, ends);
    InTree(t, i);
    assert i in t.children[x] by { InChildrenOf(t, i); }
    ChildBelow(t, x, i);
    TopoFacts(t, post, topo, inv, ends, x, i);
    TopoFacts(t, post, topo, inv, ends, x, y);
    var c := ChildAbove(t, x, y);
    ChildBelow(t, x, c);
    TopoFacts(t, post, topo, inv, ends, c, y);
    TopoFacts(t, post, topo, inv, ends, c, i);
    if Above(t, c, i) {
      SelfAbove(t, i);
      SiblingsDisjoint(t, x, c, i, i);
      assert false;
    }
    EndsNest(t, post, topo, inv, ends, c, y);
  }

  lemma InChildrenOf(t: Tree, i: int)
    requires IsTree(t) && 0 < i < |t.idom|
    ensures t.idom[i] < |t.children| && i in t.children[t.idom[i]]
  {
  }

  /** Two requests at one position end at different positions. */
  lemma SameStart(t: Tree, post: seq<int>, prev: Graph, header: seq<bool>, topo: seq<int>, inv: seq<int>, ends: seq<int>,
                  requests: seq<seq<int>>, k: int, e: int, e': int)
    requires IsTopo(t, post, topo, inv, ends) && Requested(t, prev, header, topo, inv, ends, requests)
    requires Opens(requests, k, e) && Opens(requests, k, e') && e > e'
    ensures e / 2 > e' / 2
  {
    hide IsTopo, Above, NeedsBlock, Requested, Opens, IsTree;
    TopoTree(t, post, topo, inv, ends);
    TopoSizes(t, post, prev, header, topo, inv, ends, requests);
    RequestIs(t, post, prev, header, topo, inv, ends, requests, k, e);
    RequestIs(t, post, prev, header, topo, inv, ends, requests, k, e');
    var x := inv[k];
    if e == 2 * ends[x] {
    } else if e' == 2 * ends[x] && header[x] {
      var i :| 0 < i < |topo| && NeedsBlock(prev, topo, i) && t.idom[i] == x && e == 2 * topo[i] + 1;
      InChildrenOf(t, i);
      ChildBelow(t, x, i);
      TopoFacts(t, post, topo, inv, ends, x, i);
    }
  }

  lemma {:induction false} BlockRequestsDistinct(prev: Graph, topo: seq<int>, idom: seq<nat>, k: int, n: nat, e: int)
    requires n <= |prev| == |topo| == |idom| && forall i, j :: 0 <= i < j < n ==> topo[i] != topo[j]
    ensures multiset(BlockRequests(prev, topo, idom, k, n))[e] <= 1
  {
    hide NeedsBlock, BlockRequests;
    BlockRequestsStep(prev, topo, idom, k, n);
    if n > 0 {
      BlockRequestsDistinct(prev, topo, idom, k, n - 1, e);
      var rest, f := BlockRequests(prev, topo, idom, k, n - 1), 2 * topo[n - 1] + 1;
      LaterRequestNew(prev, topo, idom, k, n - 1);
      CountSnoc(rest, f, e);
    }
  }

  lemma BlockRequestsStep(prev: Graph, topo: seq<int>, idom: seq<nat>, k: int, n: nat)
    requires n <= |prev| == |topo| == |idom|
    ensures n == 0 ==> BlockRequests(prev, topo, idom, k, n) == []
    ensures n > 0 ==> BlockRequests(prev, topo, idom, k, n) in {BlockRequests(prev, topo, idom, k, n - 1),
                                                                BlockRequests(prev, topo, idom, k, n - 1) + [2 * topo[n - 1] + 1]}
  {
  }

  lemma LaterRequestNew(prev: Graph, topo: seq<int>, idom: seq<nat>, k: int, n: nat)
    requires n < |prev| == |topo| == |idom| && forall i, j :: 0 <= i < j <= n ==> topo[i] != topo[j]
    ensures 2 * topo[n] + 1 !in BlockRequests(prev, topo, idom, k, n)
  {
    hide NeedsBlock, BlockRequests;
    BlockRequestsAre(prev, topo, idom, k, n, 2 * topo[n] + 1);
  }

  lemma CountSnoc(q: seq<int>, f: int, e: int)
    requires multiset(q)[e] <= 1 && f !in q
    ensures multiset(q + [f])[e] <= 1
  {
    assert f !in multiset(q);
  }

  /** No interval is requested twice. */
  lemma RequestsDistinct(t: Tree, post: seq<int>, prev: Graph, header: seq<bool>, topo: seq<int>, inv: seq<int>, ends: seq<int>,
                         requests: seq<seq<int>>, k: int, e: int)
    requires IsTopo(t, post, topo, inv, ends) && Requested(t, prev, header, topo, inv, ends, requests) && 0 <= k < |requests|
    ensures multiset(requests[k])[e] <= 1
  {
    hide IsTopo, Above, NeedsBlock, IsTree;
    AtPosition(t, post, topo, inv, ends, k);
    forall i, j | 0 <= i < j < |topo| ensures topo[i] != topo[j] { TopoFacts(t, post, topo, inv, ends, i, j); }
    BlockRequestsDistinct(prev, topo, t.idom, k, |topo|, e);
    BlockRequestsOdd(prev, topo, t.idom, k, |topo|, e);
    var blocks := BlockRequests(prev, topo, t.idom, k, |topo|);
    hide BlockRequests;
    if header[inv[k]] {
      assert requests[k] == [2 * ends[inv[k]]] + blocks;
      CountCons(2 * ends[inv[k]], blocks, e);
    } else {
      assert requests[k] == blocks;
    }
  }

  lemma BlockRequestsOdd(prev: Graph, topo: seq<int>, idom: seq<nat>, k: int, n: nat, e: int)
    requires n <= |prev| == |topo| == |idom|
    ensures e % 2 == 0 ==> e !in BlockRequests(prev, topo, idom, k, n)
  {
    BlockRequestsAre(prev, topo, idom, k, n, e);
  }

  lemma CountCons(f: int, q: seq<int>, e: int)
    requires multiset(q)[e] <= 1 && f % 2 == 0 && (e % 2 == 0 ==> e !in q)
    ensures multiset([f] + q)[e] <= 1
  {
    assert e % 2 == 0 ==> e !in multiset(q);
  }

  /** Opening the requests of a position in descending encoded order opens the outer ones first. */
  lemma DescendingOpensOuterFirst(t: Tree, post: seq<int>, prev: Graph, header: seq<bool>, topo: seq<int>, inv: seq<int>, ends: seq<int>,
                                  requests: seq<seq<int>>, k: int, sorted: seq<int>)
    requires IsTopo(t, post, topo, inv, ends) && Requested(t, prev, header, topo, inv, ends, requests) && 0 <= k < |requests|
    requires multiset(sorted) == multiset(requests[k])
    requires forall a, b :: 0 <= a < b < |sorted| ==> sorted[a] >= sorted[b]
    ensures forall a, b :: 0 <= a < b < |sorted| ==> sorted[a] / 2 > sorted[b] / 2
  {
    hide IsTopo, Above, NeedsBlock, Requested, IsTree;
    forall a, b | 0 <= a < b < |sorted| ensures sorted[a] / 2 > sorted[b] / 2 {
      if sorted[a] == sorted[b] {
        PointerSort.CountTwice(sorted, a, b);
        RequestsDistinct(t, post, prev, header, topo, inv, ends, requests, k, sorted[a]);
        assert false;
      }
      assert sorted[a] in multiset(sorted) && sorted[b] in multiset(sorted);
      SameStart(t, post, prev, header, topo, inv, ends, requests, k, sorted[a], sorted[b]);
    }
  }

  // ---------- branches ----------

  /** Where the target of the branch `u -> v` must be for wasm: next, behind an open block, or at the head of an open loop. */
  ghost predicate BranchOk(topo: seq<int>, requests: seq<seq<int>>, u: int, v: int)
  {
    && |topo| == |requests| && 0 <= u < |topo| && 0 <= v < |topo|
    && if topo[u] < topo[v]
       then topo[v] == topo[u] + 1 || exists k, e :: Opens(requests, k, e) && k <= topo[u] && e == 2 * topo[v] + 1
       else exists e :: Opens(requests, topo[v], e) && e % 2 == 0 && topo[u] < e / 2
  }

  lemma LoopBranch(topo: seq<int>, requests: seq<seq<int>>, u: int, v: int, e: int)
    requires |topo| == |requests| && 0 <= u < |topo| && 0 <= v < |topo| && topo[v] <= topo[u]
    requires Opens(requests, topo[v], e) && e % 2 == 0 && topo[u] < e / 2
    ensures BranchOk(topo, requests, u, v)
  {
  }

  lemma BlockBranch(topo: seq<int>, requests: seq<seq<int>>, u: int, v: int, k: int)
    requires |topo| == |requests| && 0 <= u < |topo| && 0 <= v < |topo| && topo[u] < topo[v]
    requires topo[v] == topo[u] + 1 || (Opens(requests, k, 2 * topo[v] + 1) && k <= topo[u])
    ensures BranchOk(topo, requests, u, v)
  {
  }

  lemma LoopOpens(t: Tree, post: seq<int>, prev: Graph, header: seq<bool>, topo: seq<int>, inv: seq<int>, ends: seq<int>,
                  requests: seq<seq<int>>, v: int)
    requires IsTopo(t, post, topo, inv, ends) && Requested(t, prev, header, topo, inv, ends, requests)
    requires 0 <= v < |t.idom| && header[v]
    ensures Opens(requests, topo[v], 2 * ends[v])
  {
    hide IsTopo, Above, NeedsBlock, Opens, IsTree;
    TopoFacts(t, post, topo, inv, ends, v, v);
    RequestIs(t, post, prev, header, topo, inv, ends, requests, topo[v], 2 * ends[v]);
  }

  lemma BlockOpens(t: Tree, post: seq<int>, prev: Graph, header: seq<bool>, topo: seq<int>, inv: seq<int>, ends: seq<int>,
                   requests: seq<seq<int>>, v: int)
    requires IsTopo(t, post, topo, inv, ends) && Requested(t, prev, header, topo, inv, ends, requests)
    requires 0 < v < |t.idom| && NeedsBlock(prev, topo, v) && t.idom[v] < |topo|
    ensures Opens(requests, topo[t.idom[v]], 2 * topo[v] + 1)
  {
    hide IsTopo, Above, NeedsBlock, Opens, IsTree;
    TopoFacts(t, post, topo, inv, ends, t.idom[v], v);
    RequestIs(t, post, prev, header, topo, inv, ends, requests, topo[t.idom[v]], 2 * topo[v] + 1);
  }

  lemma EdgeInRange(next: Graph, u: int, v: int)
    requires IsGraph(next) && Edge(next, u, v)
    ensures 0 <= u < |next| && 0 <= v < |next|
  {
  }

  lemma IsHeader(next: Graph, t: Tree, header: seq<bool>, u: int, v: int)
    requires IsTree(t) && HeadersMarked(next, t, header) && Edge(next, u, v) && Above(t, v, u) && 0 <= v < |header|
    ensures header[v]
  {
  }

  /** The loop headers are the targets of back edges. */
  ghost predicate HeadersMarked(next: Graph, t: Tree, header: seq<bool>) {
    IsTree(t) && forall x :: 0 <= x < |header| ==> (header[x] <==> EntersLoop(next, t, x))
  }

  /** Every branch can be expressed: a forward edge is a fall-through or leaves an open block that ends at its
      target; a back edge continues an open loop that starts at its target. */
  lemma EveryBranchOk(next: Graph, prev: Graph, s: Search, t: Tree, back: EdgeFlags, header: seq<bool>,
                      topo: seq<int>, inv: seq<int>, ends: seq<int>, requests: seq<seq<int>>, u: int, v: int)
    requires DfsTree(next, s) && BranchesBelow(next, t) && Reduced(next, t, back) && IsTopo(t, s.post, topo, inv, ends)
             && IsPrev(next, prev)
    requires Requested(t, prev, header, topo, inv, ends, requests) && HeadersMarked(next, t, header) && Edge(next, u, v)
    ensures |topo| == |next| && 0 <= u < |topo| && 0 <= v < |topo|
    ensures BranchOk(topo, requests, u, v) && (topo[v] <= topo[u] <==> Above(t, v, u))
  {
    hide DfsTree, Reduced, BranchesBelow, IsTopo, Above, Requested, NeedsBlock, Opens, IsTree, IsPrev, BranchOk, HeadersMarked;
    ReducedSize(next, t, back);
    assert IsTree(t) && |t.idom| == |next| by { BelowFacts(next, t); }
    EdgeInRange(next, u, v);
    TopoSizes(t, s.post, prev, header, topo, inv, ends, requests);
    TopoFacts(t, s.post, topo, inv, ends, v, u);
    if Above(t, v, u) {
      IsHeader(next, t, header, u, v);
      LoopOpens(t, s.post, prev, header, topo, inv, ends, requests, v);
      LoopBranch(topo, requests, u, v, 2 * ends[v]);
    } else {
      ForwardEdgesGoForward(next, s, t, back, topo, inv, ends, u, v);
      if topo[u] < topo[v] - 1 {
        PredecessorNeedsBlock(next, prev, topo, u, v);
        BlockOpens(t, s.post, prev, header, topo, inv, ends, requests, v);
      }
      BlockBranch(topo, requests, u, v, topo[t.idom[v]]);
    }
  }

  lemma PredecessorNeedsBlock(next: Graph, prev: Graph, topo: seq<int>, u: int, v: int)
    requires IsPrev(next, prev) && |topo| == |next| && Edge(next, u, v) && 0 <= v < |next| && topo[u] < topo[v] - 1
    ensures NeedsBlock(prev, topo, v)
  {
    assert u in prev[v];
    var j :| 0 <= j < |prev[v]| && prev[v][j] == u;
  }

  /** No request is idle: a loop is entered by a back edge, and a block is left by a branch that does not just fall through. */
  lemma RequestUsed(next: Graph, prev: Graph, t: Tree, post: seq<int>, header: seq<bool>, topo: seq<int>, inv: seq<int>, ends: seq<int>,
                    requests: seq<seq<int>>, k: int, e: int) returns (u: int, v: int)
    requires IsPrev(next, prev) && IsTopo(t, post, topo, inv, ends) && HeadersMarked(next, t, header)
    requires Requested(t, prev, header, topo, inv, ends, requests) && Opens(requests, k, e)
    ensures Edge(next, u, v) && |topo| == |next| && 0 <= u < |topo| && 0 <= v < |topo|
    ensures if e % 2 == 0 then topo[v] == k && Above(t, v, u) else e / 2 == topo[v] && topo[u] + 1 < topo[v]
  {
    hide IsTopo, Above, Requested, IsTree, NeedsBlock, Opens;
    RequestIs(t, post, prev, header, topo, inv, ends, requests, k, e);
    TopoSizes(t, post, prev, header, topo, inv, ends, requests);
    AtPosition(t, post, topo, inv, ends, k);
    if header[inv[k]] && e == 2 * ends[inv[k]] {
      v := inv[k];
      u := BackEdgeInto(next, t, header, v);
    } else {
      var i :| 0 < i < |topo| && NeedsBlock(prev, topo, i) && t.idom[i] == inv[k] && e == 2 * topo[i] + 1;
      v := i;
      u := EarlyPredecessor(next, prev, topo, i);
    }
  }

  lemma BackEdgeInto(next: Graph, t: Tree, header: seq<bool>, v: int) returns (u: int)
    requires HeadersMarked(next, t, header) && 0 <= v < |header| && header[v] && |header| == |next| == |t.idom|
    ensures Edge(next, u, v) && 0 <= u < |next| && Above(t, v, u)
  {
    hide Above;
    assert EntersLoop(next, t, v);
    u :| Edge(next, u, v) && Above(t, v, u);
  }

  lemma EarlyPredecessor(next: Graph, prev: Graph, topo: seq<int>, i: int) returns (u: int)
    requires IsPrev(next, prev) && |topo| == |next| && 0 <= i < |topo| && NeedsBlock(prev, topo, i)
    ensures Edge(next, u, i) && 0 <= u < |topo| && topo[u] + 1 < topo[i]
  {
    var j :| 0 <= j < |prev[i]| && prev[i][j] < |topo| && topo[prev[i][j]] < topo[i] - 1;
    u := prev[i][j];
    assert u in prev[i];
  }

  /** Everything that can be asked of an order and its requests: branches can be expressed, and forward edges go forward. */
  ghost predicate OrderOk(next: Graph, topo: seq<int>, requests: seq<seq<int>>) {
    && |topo| == |next|
    && (forall u, v :: Edge(next, u, v) ==> BranchOk(topo, requests, u, v))
    && (forall u, v :: Edge(next, u, v) && !Dominates(next, v, u) ==> 0 <= u < |topo| && 0 <= v < |topo| && topo[u] < topo[v])
  }

  /** The phases from a graph and a tree to the order and its requests.  Whatever the tree, positions are distinct and intervals
      nest.  The order is right exactly when the graph is accepted as reducible and every branch starts below its target's
      parent, as it does with the dominator tree. */
  method OrderBlocks(next: Graph, prev: Graph, t: Tree) returns (fail: int, topo: seq<int>, requests: seq<seq<int>>)
    requires IsGraph(next) && AllReachable(next) && IsPrev(next, prev) && IsTree(t) && |t.idom| == |next| && t.idom[0] < |t.idom|
    ensures |topo| == |next| && forall x, y :: 0 <= x < |topo| && 0 <= y < |topo| && topo[x] == topo[y] ==> x == y
    ensures forall k, e, k', e' :: Opens(requests, k, e) && Opens(requests, k', e') && k < k' ==> e' / 2 <= e / 2 || e / 2 <= k'
    ensures OrderOk(next, topo, requests) <==> fail == 0 && BranchesBelow(next, t)
  {
    hide DfsTree, Reduced, BranchesBelow, IsTopo, Above, Requested, NeedsBlock, Opens, AcyclicFromEntry, ForwardGraph, BranchOk,
         IsTree, AllReachable, EntersLoop, IsPrev, OrderOk;
    PrevFacts(next, prev);
    var pre, order, parent, post, s := DepthFirstSearch(next);
    Semidominators.Sizes(next, s);
    var back, hdr;
    fail, back, hdr := AttemptReduceCfg(next, t);
    var header := hdr[..];
    var inv, depths;
    ghost var ends;
    topo, inv, depths, requests, ends := MakeTopo(t, prev, post, header);
    TopoSizes(t, post, prev, header, topo, inv, ends, requests);
    forall x, y | 0 <= x < |topo| && 0 <= y < |topo| && topo[x] == topo[y] ensures x == y { TopoFacts(t, post, topo, inv, ends, x, y); }
    forall k, e, k', e' | Opens(requests, k, e) && Opens(requests, k', e') && k < k' ensures e' / 2 <= e / 2 || e / 2 <= k' {
      IntervalsNest(t, post, prev, header, topo, inv, ends, requests, k, e, k', e');
    }
    if fail == 0 && BranchesBelow(next, t) {
      ReducedIs(next, t, back);
      HeadersAre(next, t, header);
      RightOrder(next, prev, s, t, back, header, topo, inv, ends, requests);
    }
    if OrderOk(next, topo, requests) {
      RightOrderOnly(next, prev, t, post, back, header, topo, inv, ends, requests);
    }
  }

  lemma HeadersAre(next: Graph, t: Tree, header: seq<bool>)
    requires IsTree(t) && forall x :: 0 <= x < |header| ==> (header[x] <==> EntersLoop(next, t, x))
    ensures HeadersMarked(next, t, header)
  {
  }

  /** With such a tree of a reducible graph, the order is right. */
  lemma RightOrder(next: Graph, prev: Graph, s: Search, t: Tree, back: EdgeFlags, header: seq<bool>,
                   topo: seq<int>, inv: seq<int>, ends: seq<int>, requests: seq<seq<int>>)
    requires DfsTree(next, s) && BranchesBelow(next, t) && Reduced(next, t, back) && IsTopo(t, s.post, topo, inv, ends)
             && IsPrev(next, prev)
    requires Requested(t, prev, header, topo, inv, ends, requests) && HeadersMarked(next, t, header)
    ensures OrderOk(next, topo, requests)
  {
    hide DfsTree, Reduced, BranchesBelow, IsTopo, Above, Requested, BranchOk, IsTree, IsPrev, Dominates, HeadersMarked;
    ReducedSize(next, t, back);
    BelowFacts(next, t);
    TopoSizes(t, s.post, prev, header, topo, inv, ends, requests);
    forall u, v | Edge(next, u, v)
      ensures 0 <= u < |topo| && 0 <= v < |topo| && BranchOk(topo, requests, u, v) && (!Dominates(next, v, u) ==> topo[u] < topo[v])
    {
      EveryBranchOk(next, prev, s, t, back, header, topo, inv, ends, requests, u, v);
      if Above(t, v, u) { AncestorsDominate(next, t, v, u); }
    }
  }

  // ---------- the converse ----------

  /** A branch that can be expressed starts in the subtree of its target's parent. */
  lemma BranchBelowParent(t: Tree, post: seq<int>, prev: Graph, header: seq<bool>, topo: seq<int>, inv: seq<int>, ends: seq<int>,
                          requests: seq<seq<int>>, u: int, v: int)
    requires IsTopo(t, post, topo, inv, ends) && Requested(t, prev, header, topo, inv, ends, requests)
    requires BranchOk(topo, requests, u, v) && 0 < v < |t.idom|
    ensures |topo| == |t.idom| && 0 <= u < |t.idom| && Above(t, t.idom[v], u)
    ensures topo[v] <= topo[u] ==> Above(t, v, u)
  {
    hide IsTopo, Above, NeedsBlock, Requested, IsTree, Opens;
    TopoTree(t, post, topo, inv, ends);
    TopoSizes(t, post, prev, header, topo, inv, ends, requests);
    InTree(t, v);
    InChildrenOf(t, v);
    var d := t.idom[v];
    ChildBelow(t, d, v);
    TopoFacts(t, post, topo, inv, ends, d, v);
    TopoFacts(t, post, topo, inv, ends, d, u);
    if topo[v] <= topo[u] {
      LoopBelow(t, post, prev, header, topo, inv, ends, requests, u, v);
      AboveTrans(t, d, v, u);
    } else if topo[v] != topo[u] + 1 {
      var k, e :| Opens(requests, k, e) && k <= topo[u] && e == 2 * topo[v] + 1;
      BlockFrom(t, post, prev, header, topo, inv, ends, requests, k, v);
    }
  }

  lemma LoopBelow(t: Tree, post: seq<int>, prev: Graph, header: seq<bool>, topo: seq<int>, inv: seq<int>, ends: seq<int>,
                  requests: seq<seq<int>>, u: int, v: int)
    requires IsTopo(t, post, topo, inv, ends) && Requested(t, prev, header, topo, inv, ends, requests)
    requires BranchOk(topo, requests, u, v) && topo[v] <= topo[u] && |topo| == |t.idom|
    ensures Above(t, v, u)
  {
    hide IsTopo, Above, NeedsBlock, Requested, IsTree, Opens;
    TopoFacts(t, post, topo, inv, ends, v, u);
    var e :| Opens(requests, topo[v], e) && e % 2 == 0 && topo[u] < e / 2;
    RequestIs(t, post, prev, header, topo, inv, ends, requests, topo[v], e);
  }

  lemma BlockFrom(t: Tree, post: seq<int>, prev: Graph, header: seq<bool>, topo: seq<int>, inv: seq<int>, ends: seq<int>,
                  requests: seq<seq<int>>, k: int, v: int)
    requires IsTopo(t, post, topo, inv, ends) && Requested(t, prev, header, topo, inv, ends, requests)
    requires 0 < v < |t.idom| == |topo| && Opens(requests, k, 2 * topo[v] + 1)
    ensures t.idom[v] < |topo| && k == topo[t.idom[v]]
  {
    hide IsTopo, Above, NeedsBlock, Requested, IsTree, Opens;
    RequestIs(t, post, prev, header, topo, inv, ends, requests, k, 2 * topo[v] + 1);
    TopoSizes(t, post, prev, header, topo, inv, ends, requests);
    AtPosition(t, post, topo, inv, ends, k);
    var i :| 0 < i < |topo| && NeedsBlock(prev, topo, i) && t.idom[i] == inv[k] && 2 * topo[v] + 1 == 2 * topo[i] + 1;
    TopoFacts(t, post, topo, inv, ends, i, v);
  }

  /** Where every branch can be expressed, positions grow along the edges that are not flagged. */
  lemma {:induction false} ForwardClimbs(next: Graph, t: Tree, back: EdgeFlags, topo: seq<int>, p: seq<int>)
    requires IsGraph(next) && FlagsFor(next, back) && |topo| == |next| && IsPath(ForwardGraph(next, back), p)
    requires forall b, j :: 0 <= b < |next| && 0 <= j < |next[b]| && !back[b][j] ==> topo[b] < topo[next[b][j]]
    ensures 0 <= p[0] < |topo| && 0 <= p[|p| - 1] < |topo| && topo[p[0]] + |p| - 1 <= topo[p[|p| - 1]]
    decreases |p|
  {
    hide ForwardGraph;
    ForwardSize(next, back);
    if |p| > 1 {
      var n := |p| - 1;
      PathSplit(ForwardGraph(next, back), p, n - 1);
      ForwardClimbs(next, t, back, topo, p[..n]);
      var j := FromForward(next, back, p[n - 1], p[n - 1 + 1]);
    }
  }

  /** An order is right only for a tree in which every branch starts below its target's parent, and only if the graph is accepted. */
  lemma RightOrderOnly(next: Graph, prev: Graph, t: Tree, post: seq<int>, back: EdgeFlags, header: seq<bool>,
                       topo: seq<int>, inv: seq<int>, ends: seq<int>, requests: seq<seq<int>>)
    requires IsGraph(next) && FlagsFor(next, back) && IsTopo(t, post, topo, inv, ends) && |t.idom| == |next|
    requires Requested(t, prev, header, topo, inv, ends, requests) && OrderOk(next, topo, requests)
    requires forall b, j :: 0 <= b < |next| && 0 <= j < |next[b]| ==> (back[b][j] <==> Above(t, next[b][j], b))
    ensures BranchesBelow(next, t) && AcyclicFromEntry(ForwardGraph(next, back))
  {
    hide IsTopo, Above, Requested, IsTree, BranchOk, Dominates, ForwardGraph, Reaches;
    TopoTree(t, post, topo, inv, ends);
    forall u, v | Edge(next, u, v) && 0 < v < |next| ensures Above(t, t.idom[v], u) {
      BranchBelowParent(t, post, prev, header, topo, inv, ends, requests, u, v);
    }
    forall b, j | 0 <= b < |next| && 0 <= j < |next[b]| && !back[b][j] ensures topo[b] < topo[next[b][j]] {
      var v := next[b][j];
      assert Edge(next, b, v);
      if v == 0 { RootAbove(t, b); assert false; }
      BranchBelowParent(t, post, prev, header, topo, inv, ends, requests, b, v);
    }
    forall p | IsCycle(ForwardGraph(next, back), p) ensures false { ForwardClimbs(next, t, back, topo, p); }
  }

  lemma PrevFacts(next: Graph, prev: Graph)
    requires IsGraph(next) && IsPrev(next, prev)
    ensures |prev| == |next| && forall i, j :: 0 <= i < |prev| && 0 <= j < |prev[i]| ==> prev[i][j] < |next|
  {
    forall i, j | 0 <= i < |prev| && 0 <= j < |prev[i]| ensures prev[i][j] < |next| {
      assert prev[i][j] in prev[i];
      assert Edge(next, prev[i][j], i);
    }
  }

  lemma ReducedIs(next: Graph, t: Tree, back: EdgeFlags)
    requires IsGraph(next) && IsTree(t) && FlagsFor(next, back) && AcyclicFromEntry(ForwardGraph(next, back))
    requires forall b, j :: 0 <= b < |next| && 0 <= j < |next[b]| ==> (back[b][j] <==> Above(t, next[b][j], b))
    ensures Reduced(next, t, back)
  {
  }
}
