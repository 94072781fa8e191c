/** The immediate-dominator tree, and constant-time ancestor queries on it by interval numbering. */
module DominatorTree {

  /** `idom[b]` is the parent of block `b`, `children[d]` (the `idominates` list) the blocks whose parent is
      `d`; block 0 is the root.  Parents have smaller rank; the preorder number of a search is such a rank. */
  datatype Tree = Tree(idom: seq<nat>, children: seq<seq<nat>>, rank: seq<nat>)

  ghost predicate IsTree(t: Tree) {
    var n := |t.idom|;
    && 0 < n && |t.children| == n && |t.rank| == n
    && (forall b :: 0 <= b < n ==> t.rank[b] < n)
    && (forall b :: 0 < b < n ==> t.idom[b] < n && t.rank[t.idom[b]] < t.rank[b])
    && (forall d, c :: 0 <= d < n ==> (c in t.children[d] <==> 0 < c < n && t.idom[c] == d))
    && (forall d, i, j :: 0 <= d < n && 0 <= i < j < |t.children[d]| ==> t.children[d][i] != t.children[d][j])
  }

  /** `a` is an ancestor of `b` in the tree, or `b` itself. */
  ghost predicate Above(t: Tree, a: int, b: int)
    requires IsTree(t)
    decreases if 0 <= b < |t.rank| then t.rank[b] else 0
  {
    && 0 <= a < |t.idom| && 0 <= b < |t.idom|
    && (a == b || (b != 0 && Above(t, a, t.idom[b])))
  }

  lemma {:induction false} AboveRank(t: Tree, a: int, b: int)
    requires IsTree(t) && Above(t, a, b)
    ensures t.rank[a] <= t.rank[b] && (a != b ==> t.rank[a] < t.rank[b])
    decreases t.rank[b]
  {
    if a != b { AboveRank(t, a, t.idom[b]); }
  }

  lemma {:induction false} AboveTrans(t: Tree, a: int, b: int, c: int)
    requires IsTree(t) && Above(t, a, b) && Above(t, b, c)
    ensures Above(t, a, c)
    decreases t.rank[c]
  {
    if b != c { AboveTrans(t, a, b, t.idom[c]); }
  }

  lemma AboveAntisym(t: Tree, a: int, b: int)
    requires IsTree(t) && Above(t, a, b) && Above(t, b, a)
    ensures a == b
  {
    AboveRank(t, a, b);
    AboveRank(t, b, a);
  }

  /** The ancestors of a block form a chain. */
  lemma {:induction false} AboveChain(t: Tree, a: int, b: int, c: int)
    requires IsTree(t) && Above(t, a, c) && Above(t, b, c)
    ensures Above(t, a, b) || Above(t, b, a)
    decreases t.rank[c]
  {
    if a != c && b != c { AboveChain(t, a, b, t.idom[c]); }
  }

  lemma {:induction false} RootAbove(t: Tree, b: int)
    requires IsTree(t) && 0 <= b < |t.idom|
    ensures Above(t, 0, b)
    decreases t.rank[b]
  {
    if b != 0 { RootAbove(t, t.idom[b]); }
  }

  /** A proper descendant of `d` lies below exactly one child of `d`. */
  lemma {:induction false} ChildAbove(t: Tree, d: int, x: int) returns (c: int)
    requires IsTree(t) && Above(t, d, x) && d != x
    ensures 0 <= d < |t.children| && c in t.children[d] && Above(t, c, x)
    decreases t.rank[x]
  {
    if t.idom[x] == d {
      c := x;
    } else {
      c := ChildAbove(t, d, t.idom[x]);
    }
  }

  lemma ChildBelow(t: Tree, d: int, c: int)
    requires IsTree(t) && 0 <= d < |t.children| && c in t.children[d]
    ensures 0 < c < |t.idom| && t.idom[c] == d && d != c && Above(t, d, c) && t.rank[d] < t.rank[c]
  {
    assert Above(t, d, t.idom[c]);
  }

  /** Subtrees of different children are disjoint. */
  lemma SiblingsDisjoint(t: Tree, d: int, c: int, e: int, x: int)
    requires IsTree(t) && 0 <= d < |t.children| && c in t.children[d] && e in t.children[d]
    requires Above(t, c, x) && Above(t, e, x)
    ensures c == e
  {
    ChildBelow(t, d, c);
    ChildBelow(t, d, e);
    AboveChain(t, c, e, x);
    if c != e {
      if Above(t, c, e) {
        AboveRank(t, c, d);
      } else {
        AboveRank(t, e, d);
      }
    }
  }

  lemma NotAboveParent(t: Tree, d: int, c: int)
    requires IsTree(t) && 0 <= d < |t.children| && c in t.children[d]
    ensures !Above(t, c, d)
  {
    ChildBelow(t, d, c);
    if Above(t, c, d) { AboveRank(t, c, d); }
  }

  // ---------- interval numbering ----------

  /** `x` lies below one of the first `i` children of `b`. */
  ghost predicate UnderFirst(t: Tree, b: int, i: int, x: int)
    requires IsTree(t) && 0 <= b < |t.children| && 0 <= i <= |t.children[b]|
  {
    exists k :: 0 <= k < i && Above(t, t.children[b][k], x)
  }

  ghost predicate Nests(pre: seq<int>, post: seq<int>, x: int, y: int)
    requires 0 <= x < |pre| && 0 <= y < |pre| && |post| == |pre|
  {
    pre[x] <= pre[y] && post[x] >= post[y]
  }

  /** Blocks that satisfy `inside` are numbered within `lo..hi`, and intervals nest exactly as the tree does. */
  ghost predicate Numbers(t: Tree, pre: seq<int>, post: seq<int>, inside: int -> bool, lo: int, hi: int)
    requires IsTree(t) && |pre| == |post| == |t.idom|
  {
    && (forall x :: 0 <= x < |pre| && inside(x) ==> lo <= pre[x] < post[x] < hi)
    && (forall x, y :: 0 <= x < |pre| && 0 <= y < |pre| && inside(x) && inside(y) ==> (Above(t, x, y) <==> Nests(pre, post, x, y)))
  }

  /** Everything outside the subtree of `b` is unchanged. */
  ghost predicate OutsideSame(t: Tree, b: int, p: seq<int>, q: seq<int>)
    requires IsTree(t)
  {
    |p| == |q| == |t.idom| && forall x :: 0 <= x < |p| && !Above(t, b, x) ==> q[x] == p[x]
  }

  lemma NumbersKept(t: Tree, c: int, pre: seq<int>, post: seq<int>, pre': seq<int>, post': seq<int>, inside: int -> bool, lo: int, hi: int)
    requires IsTree(t) && |pre| == |post| == |t.idom| && Numbers(t, pre, post, inside, lo, hi)
    requires OutsideSame(t, c, pre, pre') && OutsideSame(t, c, post, post')
    requires forall x :: inside(x) ==> !Above(t, c, x)
    ensures Numbers(t, pre', post', inside, lo, hi)
  {
    hide Above;
  }

  /** Two numbered families side by side, neither above the other, are numbered together. */
  lemma NumbersJoin(t: Tree, pre: seq<int>, post: seq<int>, f: int -> bool, g: int -> bool, h: int -> bool, lo: int, mid: int, hi: int)
    requires IsTree(t) && |pre| == |post| == |t.idom| && lo <= mid <= hi
    requires Numbers(t, pre, post, f, lo, mid) && Numbers(t, pre, post, g, mid, hi)
    requires forall x :: h(x) <==> f(x) || g(x)
    requires forall x, y :: f(x) && g(y) ==> !Above(t, x, y) && !Above(t, y, x)
    ensures Numbers(t, pre, post, h, lo, hi)
  {
    hide Above;
  }

  class IntervalNumbering {
    const t: Tree
    const pre: array<int>
    const post: array<int>
    const visited: array<bool>
    var clock: nat

    ghost predicate Valid()
      reads this
    {
      && IsTree(t) && pre != post && pre.Length == post.Length == visited.Length == |t.idom|
    }

    constructor (t: Tree)
      requires IsTree(t)
      ensures Valid() && this.t == t && fresh(pre) && fresh(post) && fresh(visited)
      ensures forall x :: 0 <= x < visited.Length ==> !visited[x]
    {
      this.t := t;
      pre := new int[|t.idom|](_ => 0);
      post := new int[|t.idom|](_ => 0);
      visited := new bool[|t.idom|](_ => false);
      clock := 1;
    }

    /** `idom_dfs`: number the subtree of `b`. */
    method Visit(b: nat)
      requires Valid() && b < |t.idom| && forall x :: 0 <= x < visited.Length && Above(t, b, x) ==> !visited[x]
      modifies pre, post, visited, `clock
      ensures old(clock) < clock
      ensures Numbers(t, pre[..], post[..], x => IsTree(t) && Above(t, b, x), old(clock), clock)
      ensures OutsideSame(t, b, old(pre[..]), pre[..]) && OutsideSame(t, b, old(post[..]), post[..])
      ensures forall x :: 0 <= x < visited.Length && !Above(t, b, x) ==> visited[x] == old(visited[x])
      decreases |t.idom| - t.rank[b]
    {
      hide Numbers, OutsideSame, Above, IsTree;
      ghost var lo, pre0, post0 := clock, pre[..], post[..];
      AboveSelf(t, b);
      pre[b] := clock;
      clock := clock + 1;
      visited[b] := true;
      Entered(t, b, pre0, pre[..], post[..], lo);
      var list := t.children[b];
      for i := 0 to |list|
        invariant lo < clock
        invariant pre[b] == lo
        invariant Numbers(t, pre[..], post[..], x => IsTree(t) && 0 <= b < |t.children| && i <= |t.children[b]|
                          && UnderFirst(t, b, i, x), lo + 1, clock)
        invariant OutsideSame(t, b, pre0, pre[..]) && OutsideSame(t, b, post0, post[..])
        invariant forall x :: 0 <= x < visited.Length && !Above(t, b, x) ==> visited[x] == old(visited[x])
        invariant forall k, x :: i <= k < |list| && 0 <= x < visited.Length && Above(t, list[k], x) ==> !visited[x]
      {
        var c := list[i];
        ghost var mid, pre1, post1, vis1 := clock, pre[..], post[..], visited[..];
        ChildFacts(t, b, i);
        if !visited[c] {
          Visit(c);
          Advanced(t, b, i, pre0, pre1, pre[..], post0, post1, post[..], lo, mid, clock);
          VisitedOthers(t, b, i, vis1, visited[..]);
        } else {
          assert false;
        }
      }
      ghost var post2 := post[..];
      post[b] := clock;
      clock := clock + 1;
      assert post[..] == post2[b := clock - 1];
      Left(t, b, pre[..], post0, post2, post[..], lo, clock - 1);
    }
  }

  lemma AboveSelf(t: Tree, b: int)
    requires IsTree(t) && 0 <= b < |t.idom|
    ensures Above(t, b, b) && |t.children| == |t.idom| == |t.rank| && t.rank[b] < |t.idom|
    ensures forall k, x :: 0 <= k < |t.children[b]| && Above(t, t.children[b][k], x) ==> x != b && Above(t, b, x)
  {
    SelfAbove(t, b);
    hide Above;
    forall k, x | 0 <= k < |t.children[b]| && Above(t, t.children[b][k], x) ensures x != b && Above(t, b, x) {
      ChildSubtree(t, b, k, x);
    }
  }

  lemma SelfAbove(t: Tree, b: int)
    requires IsTree(t) && 0 <= b < |t.idom|
    ensures Above(t, b, b)
  {
  }

  lemma ChildSubtree(t: Tree, b: int, k: int, x: int)
    requires IsTree(t) && 0 <= b < |t.idom| && 0 <= k < |t.children[b]| && Above(t, t.children[b][k], x)
    ensures x != b && Above(t, b, x)
  {
    var c := t.children[b][k];
    ChildBelow(t, b, c);
    NotAboveParent(t, b, c);
    AboveTrans(t, b, c, x);
  }

  lemma Entered(t: Tree, b: int, pre0: seq<int>, pre: seq<int>, post: seq<int>, lo: int)
    requires IsTree(t) && |pre0| == |pre| == |post| == |t.idom| == |t.children| && 0 <= b < |pre| && Above(t, b, b)
    requires forall x :: 0 <= x < |pre| && x != b ==> pre[x] == pre0[x]
    ensures Numbers(t, pre, post, x => IsTree(t) && 0 <= b < |t.children| && 0 <= |t.children[b]| && UnderFirst(t, b, 0, x), lo + 1, lo + 1)
    ensures OutsideSame(t, b, pre0, pre) && OutsideSame(t, b, post, post)
  {
  }

  lemma ChildFacts(t: Tree, b: int, i: int)
    requires IsTree(t) && 0 <= b < |t.children| && 0 <= i < |t.children[b]|
    ensures var c := t.children[b][i];
            0 < c < |t.idom| && t.rank[b] < t.rank[c] && Above(t, c, c)
  {
    ChildBelow(t, b, t.children[b][i]);
  }

  lemma VisitedOthers(t: Tree, b: int, i: int, vis1: seq<bool>, vis: seq<bool>)
    requires IsTree(t) && 0 <= b < |t.children| && 0 <= i < |t.children[b]| && |vis| == |vis1| == |t.idom|
    requires forall x :: 0 <= x < |vis| && !Above(t, t.children[b][i], x) ==> vis[x] == vis1[x]
    requires forall k, x :: i <= k < |t.children[b]| && 0 <= x < |vis| && Above(t, t.children[b][k], x) ==> !vis1[x]
    ensures forall k, x :: i < k < |t.children[b]| && 0 <= x < |vis| && Above(t, t.children[b][k], x) ==> !vis[x]
    ensures forall x :: 0 <= x < |vis| && !Above(t, b, x) ==> vis[x] == vis1[x]
  {
    hide Above;
    forall k, x | i < k < |t.children[b]| && 0 <= x < |vis| && Above(t, t.children[b][k], x) ensures !vis[x] {
      if Above(t, t.children[b][i], x) { SiblingsDisjoint(t, b, t.children[b][i], t.children[b][k], x); assert false; }
    }
    AboveSelf(t, b);
  }

  /** After numbering child `i`, the first `i + 1` children are numbered together. */
  lemma Advanced(t: Tree, b: int, i: int, pre0: seq<int>, pre1: seq<int>, pre: seq<int>,
                 post0: seq<int>, post1: seq<int>, post: seq<int>, lo: int, mid: int, hi: int)
    requires IsTree(t) && 0 <= b < |t.children| && 0 <= i < |t.children[b]| && |pre1| == |post1| == |t.idom| && lo < mid <= hi
    requires OutsideSame(t, b, pre0, pre1) && OutsideSame(t, b, post0, post1)
    requires Numbers(t, pre1, post1, x => IsTree(t) && 0 <= b < |t.children| && i <= |t.children[b]| && UnderFirst(t, b, i, x), lo + 1, mid)
    requires OutsideSame(t, t.children[b][i], pre1, pre) && OutsideSame(t, t.children[b][i], post1, post)
    requires Numbers(t, pre, post, x => IsTree(t) && Above(t, t.children[b][i], x), mid, hi)
    ensures OutsideSame(t, b, pre0, pre) && OutsideSame(t, b, post0, post) && pre[b] == pre1[b]
    ensures Numbers(t, pre, post, x => IsTree(t) && 0 <= b < |t.children| && i + 1 <= |t.children[b]|
                    && UnderFirst(t, b, i + 1, x), lo + 1, hi)
  {
    hide Numbers, Above;
    AboveSelf(t, b);
    var c := t.children[b][i];
    var f := x => IsTree(t) && 0 <= b < |t.children| && i <= |t.children[b]| && UnderFirst(t, b, i, x);
    var g := x => IsTree(t) && Above(t, c, x);
    var h := x => IsTree(t) && 0 <= b < |t.children| && i + 1 <= |t.children[b]| && UnderFirst(t, b, i + 1, x);
    forall x | f(x) ensures !Above(t, c, x) {
      var k :| 0 <= k < i && Above(t, t.children[b][k], x);
      if Above(t, c, x) { SiblingsDisjoint(t, b, t.children[b][k], c, x); assert false; }
    }
    NumbersKept(t, c, pre1, post1, pre, post, f, lo + 1, mid);
    forall x, y | f(x) && g(y) ensures !Above(t, x, y) && !Above(t, y, x) {
      var k :| 0 <= k < i && Above(t, t.children[b][k], x);
      if Above(t, x, y) { AboveTrans(t, t.children[b][k], x, y); SiblingsDisjoint(t, b, t.children[b][k], c, y); assert false; }
      if Above(t, y, x) { AboveTrans(t, c, y, x); assert false; }
    }
    NumbersJoin(t, pre, post, f, g, h, lo + 1, mid, hi);
  }

  lemma Left(t: Tree, b: int, pre: seq<int>, post0: seq<int>, post2: seq<int>, post: seq<int>, lo: int, hi: int)
    requires IsTree(t) && 0 <= b < |t.children| && |pre| == |post2| == |t.idom| && pre[b] == lo && lo < hi
    requires Numbers(t, pre, post2, x => IsTree(t) && 0 <= b < |t.children| && UnderFirst(t, b, |t.children[b]|, x), lo + 1, hi)
    requires OutsideSame(t, b, post0, post2) && post == post2[b := hi]
    ensures Numbers(t, pre, post, x => IsTree(t) && Above(t, b, x), lo, hi + 1)
    ensures OutsideSame(t, b, post0, post)
  {
    AboveSelf(t, b);
    hide Above;
    forall x | 0 <= x < |pre| && Above(t, b, x) && x != b
      ensures UnderFirst(t, b, |t.children[b]|, x) && !Above(t, x, b)
    {
      var c := ChildAbove(t, b, x);
      var k :| 0 <= k < |t.children[b]| && t.children[b][k] == c;
      if Above(t, x, b) { AboveAntisym(t, x, b); assert false; }
    }
  }

  /** Number the whole tree: one interval contains another exactly when its block is an ancestor. */
  method NumberTree(t: Tree) returns (pre: seq<int>, post: seq<int>)
    requires IsTree(t)
    ensures |pre| == |post| == |t.idom|
    ensures forall x, y :: 0 <= x < |pre| && 0 <= y < |pre| ==> (Above(t, x, y) <==> Nests(pre, post, x, y))
  {
    hide Above;
    var d := new IntervalNumbering(t);
    d.Visit(0);
    pre, post := d.pre[..], d.post[..];
    forall x | 0 <= x < |pre| ensures Above(t, 0, x) { RootAbove(t, x); }
  }
}
