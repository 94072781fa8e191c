/** Depth-first search of a control-flow graph: preorder numbers, spanning tree and postorder numbers. */
module DepthFirst {
  import opened Cfg

  /** The arrays of a search in progress; `pre[b] == -1` means that `b` has not been visited.
      `last[b]` is the greatest preorder number in the subtree of `b`. */
  datatype Search = Search(pre: seq<int>, order: seq<int>, parent: seq<int>, post: seq<int>, last: seq<int>)

  ghost predicate Sized(next: Graph, s: Search) {
    |s.pre| == |s.order| == |s.parent| == |s.post| == |s.last| == |next|
  }

  /** `w` lies in the subtree of `v`. */
  ghost predicate Anc(s: Search, v: int, w: int) {
    && 0 <= v < |s.pre| && 0 <= w < |s.pre| && |s.last| == |s.pre|
    && 0 <= s.pre[v] <= s.pre[w] <= s.last[v]
  }

  ghost predicate InSeg(s: Search, x: int, lo: int, hi: int) {
    0 <= x < |s.pre| && lo <= s.pre[x] < hi
  }

  /** The blocks numbered `lo..hi` are numbered one-to-one and their subtrees are nested intervals. */
  ghost predicate Numbered(next: Graph, s: Search, lo: int, hi: int)
    requires Sized(next, s)
  {
    && 0 <= lo <= hi <= |next|
    && (forall k :: lo <= k < hi ==> InSeg(s, s.order[k], lo, hi) && s.pre[s.order[k]] == k)
    && (forall x :: InSeg(s, x, lo, hi) ==> s.order[s.pre[x]] == x && s.pre[x] <= s.last[x] < hi)
    && (forall x, y :: InSeg(s, x, lo, hi) && InSeg(s, y, lo, hi) && s.pre[x] < s.pre[y] <= s.last[x] ==> s.last[y] <= s.last[x])
  }

  /** Every successor of a block in the segment was visited before the block was left. */
  ghost predicate EdgesSeen(next: Graph, s: Search, lo: int, hi: int)
    requires Sized(next, s)
  {
    forall x, z :: InSeg(s, x, lo, hi) && Edge(next, x, z) ==> 0 <= z < |s.pre| && 0 <= s.pre[z] <= s.last[x]
  }

  /** The segment is a forest whose roots are children of `b`. */
  ghost predicate TreeEdges(next: Graph, s: Search, b: int, lo: int, hi: int)
    requires Sized(next, s)
  {
    && (forall x :: InSeg(s, x, lo, hi) ==> Edge(next, s.parent[x], x))
    && (forall x :: InSeg(s, x, lo, hi) ==>
          s.parent[x] == b || (InSeg(s, s.parent[x], lo, hi) && s.pre[s.parent[x]] < s.pre[x] <= s.last[s.parent[x]]))
    && (forall v, w :: InSeg(s, v, lo, hi) && InSeg(s, w, lo, hi) && v != w && Anc(s, v, w) ==> s.parent[w] != b && Anc(s, v, s.parent[w]))
  }

  /** Postorder numbers of the segment lie in `plo..phi` and agree with the tree. */
  ghost predicate PostOrdered(next: Graph, s: Search, lo: int, hi: int, plo: int, phi: int)
    requires Sized(next, s)
  {
    && (forall x :: InSeg(s, x, lo, hi) ==> plo <= s.post[x] < phi)
    && (forall x, y :: InSeg(s, x, lo, hi) && InSeg(s, y, lo, hi) && s.pre[x] < s.pre[y] ==>
          if s.pre[y] <= s.last[x] then s.post[y] < s.post[x] else s.post[x] < s.post[y])
  }

  ghost predicate Forest(next: Graph, s: Search, b: int, lo: int, hi: int, plo: int, phi: int) {
    && Sized(next, s)
    && Numbered(next, s, lo, hi) && EdgesSeen(next, s, lo, hi) && TreeEdges(next, s, b, lo, hi)
    && PostOrdered(next, s, lo, hi, plo, phi) && plo <= phi
  }

  /** `t` agrees with `s` on the blocks numbered below `clock`. */
  ghost predicate AgreesBelow(next: Graph, s: Search, t: Search, clock: int) {
    && Sized(next, s) && Sized(next, t) && 0 <= clock <= |next|
    && (forall x :: 0 <= x < |next| ==> (0 <= s.pre[x] < clock <==> 0 <= t.pre[x] < clock))
    && (forall x :: 0 <= x < |next| && 0 <= s.pre[x] < clock ==> t.pre[x] == s.pre[x] && t.parent[x] == s.parent[x])
    && (forall k :: 0 <= k < clock ==> t.order[k] == s.order[k])
  }

  /** Finished blocks keep their last and postorder numbers too. */
  ghost predicate Finished(s: Search, t: Search, lo: int, hi: int) {
    |t.pre| == |s.pre| == |s.last| == |t.last| == |s.post| == |t.post| &&
    forall x :: InSeg(s, x, lo, hi) ==> t.last[x] == s.last[x] && t.post[x] == s.post[x]
  }

  lemma ForestKept(next: Graph, s: Search, t: Search, b: int, lo: int, hi: int, plo: int, phi: int)
    requires Forest(next, s, b, lo, hi, plo, phi) && AgreesBelow(next, s, t, hi) && Finished(s, t, lo, hi)
    ensures Forest(next, t, b, lo, hi, plo, phi)
  {
    assert forall x :: InSeg(t, x, lo, hi) <==> InSeg(s, x, lo, hi);
    KeptNumbered(next, s, t, lo, hi);
    KeptEdges(next, s, t, lo, hi);
    KeptTree(next, s, t, b, lo, hi);
  }

  lemma KeptNumbered(next: Graph, s: Search, t: Search, lo: int, hi: int)
    requires AgreesBelow(next, s, t, hi) && Finished(s, t, lo, hi) && Numbered(next, s, lo, hi)
    requires forall x :: InSeg(t, x, lo, hi) <==> InSeg(s, x, lo, hi)
    ensures Numbered(next, t, lo, hi)
  {
  }

  lemma KeptEdges(next: Graph, s: Search, t: Search, lo: int, hi: int)
    requires AgreesBelow(next, s, t, hi) && Finished(s, t, lo, hi) && Numbered(next, s, lo, hi) && EdgesSeen(next, s, lo, hi)
    requires forall x :: InSeg(t, x, lo, hi) <==> InSeg(s, x, lo, hi)
    ensures EdgesSeen(next, t, lo, hi)
  {
  }

  lemma KeptTree(next: Graph, s: Search, t: Search, b: int, lo: int, hi: int)
    requires AgreesBelow(next, s, t, hi) && Finished(s, t, lo, hi) && Numbered(next, s, lo, hi) && TreeEdges(next, s, b, lo, hi)
    requires forall x :: InSeg(t, x, lo, hi) <==> InSeg(s, x, lo, hi)
    ensures TreeEdges(next, t, b, lo, hi)
  {
    forall v, w | InSeg(t, v, lo, hi) && InSeg(t, w, lo, hi) && v != w && Anc(t, v, w)
      ensures t.parent[w] != b && Anc(t, v, t.parent[w])
    {
      assert Anc(s, v, w);
      assert InSeg(s, s.parent[w], lo, hi);
    }
  }

  /** Two forests side by side are a forest. */
  lemma ForestJoin(next: Graph, s: Search, b: int, lo: int, mid: int, hi: int, plo: int, pmid: int, phi: int)
    requires Forest(next, s, b, lo, mid, plo, pmid) && Forest(next, s, b, mid, hi, pmid, phi)
    ensures Forest(next, s, b, lo, hi, plo, phi)
  {
    hide Numbered, EdgesSeen, TreeEdges, PostOrdered;
    JoinNumbered(next, s, lo, mid, hi);
    JoinTree(next, s, b, lo, mid, hi);
    JoinEdges(next, s, lo, mid, hi);
    JoinPost(next, s, lo, mid, hi, plo, pmid, phi);
  }

  lemma JoinNumbered(next: Graph, s: Search, lo: int, mid: int, hi: int)
    requires Sized(next, s) && Numbered(next, s, lo, mid) && Numbered(next, s, mid, hi)
    ensures Numbered(next, s, lo, hi) && forall x :: InSeg(s, x, lo, hi) <==> InSeg(s, x, lo, mid) || InSeg(s, x, mid, hi)
  {
  }

  lemma JoinEdges(next: Graph, s: Search, lo: int, mid: int, hi: int)
    requires Sized(next, s) && EdgesSeen(next, s, lo, mid) && EdgesSeen(next, s, mid, hi)
    requires forall x :: InSeg(s, x, lo, hi) <==> InSeg(s, x, lo, mid) || InSeg(s, x, mid, hi)
    ensures EdgesSeen(next, s, lo, hi)
  {
  }

  lemma JoinTree(next: Graph, s: Search, b: int, lo: int, mid: int, hi: int)
    requires Sized(next, s) && TreeEdges(next, s, b, lo, mid) && TreeEdges(next, s, b, mid, hi)
    requires Numbered(next, s, lo, mid) && forall x :: InSeg(s, x, lo, hi) <==> InSeg(s, x, lo, mid) || InSeg(s, x, mid, hi)
    ensures TreeEdges(next, s, b, lo, hi)
  {
    hide Edge;
    forall v, w | InSeg(s, v, lo, hi) && InSeg(s, w, lo, hi) && v != w && Anc(s, v, w)
      ensures s.parent[w] != b && Anc(s, v, s.parent[w])
    {
      assert InSeg(s, v, lo, mid) <==> InSeg(s, w, lo, mid);
    }
  }

  lemma JoinPost(next: Graph, s: Search, lo: int, mid: int, hi: int, plo: int, pmid: int, phi: int)
    requires Sized(next, s) && PostOrdered(next, s, lo, mid, plo, pmid) && PostOrdered(next, s, mid, hi, pmid, phi)
    requires Numbered(next, s, lo, mid) && plo <= pmid <= phi
    requires forall x :: InSeg(s, x, lo, hi) <==> InSeg(s, x, lo, mid) || InSeg(s, x, mid, hi)
    ensures PostOrdered(next, s, lo, hi, plo, phi)
  {
  }

  /** A forest of children of `b`, closed off by `b` itself, is a tree below `b`'s parent. */
  lemma ForestClose(next: Graph, s: Search, b: int, lo: int, hi: int, plo: int, phi: int)
    requires Forest(next, s, b, lo + 1, hi, plo, phi) && 0 <= lo
    requires 0 <= b < |next| && s.pre[b] == lo && s.order[lo] == b && s.last[b] == hi - 1 && s.post[b] == phi
    requires Edge(next, s.parent[b], b) && s.parent[b] != b && !InSeg(s, s.parent[b], lo, hi)
    requires forall x :: InSeg(s, x, lo, hi) <==> x == b || InSeg(s, x, lo + 1, hi)
    requires forall z :: Edge(next, b, z) ==> 0 <= z < |s.pre| && 0 <= s.pre[z] <= hi - 1
    ensures Forest(next, s, s.parent[b], lo, hi, plo, phi + 1)
  {
    CloseNumbered(next, s, b, lo, hi);
    CloseTree(next, s, b, lo, hi);
    ClosePost(next, s, b, lo, hi, plo, phi);
    assert EdgesSeen(next, s, lo, hi) by { hide Numbered, TreeEdges, PostOrdered; }
  }

  lemma CloseNumbered(next: Graph, s: Search, b: int, lo: int, hi: int)
    requires Sized(next, s) && Numbered(next, s, lo + 1, hi) && 0 <= lo
    requires 0 <= b < |next| && s.pre[b] == lo && s.order[lo] == b && s.last[b] == hi - 1
    requires forall x :: InSeg(s, x, lo, hi) <==> x == b || InSeg(s, x, lo + 1, hi)
    ensures Numbered(next, s, lo, hi)
  {
  }

  lemma CloseTree(next: Graph, s: Search, b: int, lo: int, hi: int)
    requires Sized(next, s) && TreeEdges(next, s, b, lo + 1, hi) && 0 <= lo < hi
    requires 0 <= b < |next| && s.pre[b] == lo && s.last[b] == hi - 1
    requires Edge(next, s.parent[b], b) && s.parent[b] != b && !InSeg(s, s.parent[b], lo, hi)
    requires forall x :: InSeg(s, x, lo, hi) <==> x == b || InSeg(s, x, lo + 1, hi)
    ensures TreeEdges(next, s, s.parent[b], lo, hi)
  {
    var p := s.parent[b];
    forall v, w | InSeg(s, v, lo, hi) && InSeg(s, w, lo, hi) && v != w && Anc(s, v, w)
      ensures s.parent[w] != p && Anc(s, v, s.parent[w])
    {
      assert w != b;
      assert InSeg(s, w, lo + 1, hi);
      if v == b {
        if s.parent[w] != b { assert InSeg(s, s.parent[w], lo + 1, hi); }
      }
    }
  }

  lemma ClosePost(next: Graph, s: Search, b: int, lo: int, hi: int, plo: int, phi: int)
    requires Sized(next, s) && PostOrdered(next, s, lo + 1, hi, plo, phi) && 0 <= lo && plo <= phi
    requires 0 <= b < |next| && s.pre[b] == lo && s.last[b] == hi - 1 && s.post[b] == phi
    requires forall x :: InSeg(s, x, lo, hi) <==> x == b || InSeg(s, x, lo + 1, hi)
    ensures PostOrdered(next, s, lo, hi, plo, phi + 1)
  {
  }

  // ---------- counting visited blocks ----------

  ghost predicate Counted(next: Graph, s: Search, clock: int) {
    && Sized(next, s) && 0 <= clock <= |next|
    && (forall k :: 0 <= k < clock ==> 0 <= s.order[k] < |next| && s.pre[s.order[k]] == k)
    && (forall x :: 0 <= x < |next| ==> s.pre[x] == -1 || (0 <= s.pre[x] < clock && s.order[s.pre[x]] == x))
  }

  function Below(n: nat): (r: set<int>)
    ensures |r| == n && forall x :: x in r <==> 0 <= x < n
  {
    if n == 0 then {} else Below(n - 1) + {n - 1}
  }

  lemma {:induction false} DistinctCard(q: seq<int>)
    requires forall i, j :: 0 <= i < j < |q| ==> q[i] != q[j]
    ensures |set x | x in q| == |q|
  {
    if |q| > 0 {
      var r := q[..|q| - 1];
      DistinctCard(r);
      assert (set x | x in q) == (set x | x in r) + {q[|q| - 1]};
      assert q[|q| - 1] !in r;
    }
  }

  lemma SubsetCard(a: set<int>, b: set<int>)
    requires a <= b
    ensures |a| <= |b|
    ensures a < b ==> |a| < |b|
  {
    assert b == a + (b - a);
    assert |b| == |a| + |b - a|;
  }

  /** While a block is unvisited there are preorder numbers left. */
  lemma RoomLeft(next: Graph, s: Search, clock: int, b: int)
    requires Counted(next, s, clock) && 0 <= b < |next| && s.pre[b] == -1
    ensures clock < |next|
  {
    var q := s.order[..clock];
    DistinctCard(q);
    var seen := set x | x in q;
    assert seen <= Below(|next|) && b !in seen && b in Below(|next|);
    SubsetCard(seen, Below(|next|));
  }

  /** All numbers used up means that all blocks are visited. */
  lemma AllVisited(next: Graph, s: Search, clock: int)
    requires Counted(next, s, clock) && forall x :: 0 <= x < |next| ==> s.pre[x] != -1
    ensures clock == |next|
  {
    var q := s.order[..clock];
    DistinctCard(q);
    forall x | x in Below(|next|) ensures x in q {
      assert q[s.pre[x]] == x;
    }
    SubsetCard(Below(|next|), set x | x in q);
  }

  // ---------- the search ----------

  /** What a visit leaves alone: everything about blocks numbered below `clock`. */
  ghost predicate Frame(next: Graph, s: Search, t: Search, clock: int) {
    AgreesBelow(next, s, t, clock) && Finished(s, t, 0, clock)
  }

  lemma FrameTrans(next: Graph, s: Search, t: Search, u: Search, clock: int, clock': int)
    requires Frame(next, s, t, clock) && Frame(next, t, u, clock') && clock <= clock'
    ensures Frame(next, s, u, clock)
  {
    forall x | InSeg(s, x, 0, clock) ensures u.last[x] == s.last[x] && u.post[x] == s.post[x] {
      assert InSeg(t, x, 0, clock) && InSeg(t, x, 0, clock');
    }
  }

  /** Block `b` and its subtree have been numbered `lo..hi`. */
  ghost predicate Visited(next: Graph, s: Search, b: int, lo: int, hi: int, plo: int, phi: int) {
    && Forest(next, s, b, lo + 1, hi, plo, phi) && 0 <= b < |next| && 0 <= lo < hi
    && s.pre[b] == lo && s.order[lo] == b && s.last[b] == hi - 1 && s.post[b] == phi
    && forall z :: Edge(next, b, z) ==> 0 <= z < |next| && 0 <= s.pre[z] <= hi - 1
  }

  class Dfs {
    const next: Graph
    const pre: array<int>
    const order: array<int>
    const parent: array<int>
    const post: array<int>
    ghost var last: seq<int>
    var preClock: nat
    var postClock: nat

    ghost function S(): Search
      reads this, pre, order, parent, post
    {
      Search(pre[..], order[..], parent[..], post[..], last)
    }

    ghost predicate Shaped()
      reads this
    {
      && pre != order && pre != parent && pre != post && order != parent && order != post && parent != post
      && pre.Length == order.Length == parent.Length == post.Length == |last| == |next|
    }

    ghost predicate Valid()
      reads this, pre, order, parent, post
    {
      && Shaped()
      && IsGraph(next) && Counted(next, S(), preClock)
    }

    constructor (next: Graph)
      requires IsGraph(next)
      ensures Valid() && this.next == next && preClock == 0 && postClock == 0
      ensures fresh(pre) && fresh(order) && fresh(parent) && fresh(post)
      ensures forall x :: 0 <= x < |next| ==> pre[x] == -1
    {
      this.next := next;
      pre := new int[|next|](_ => -1);
      order := new int[|next|](_ => 0);
      parent := new int[|next|](_ => 0);
      post := new int[|next|](_ => 0);
      last := seq(|next|, _ => 0);
      preClock, postClock := 0, 0;
    }

    /** On entry to a block. */
    method Number(b: nat)
      requires Shaped() && b < |next| && preClock < |next|
      modifies `preClock, pre, order
      ensures Shaped() && preClock == old(preClock) + 1
      ensures S() == old(S().(pre := S().pre[b := preClock], order := S().order[preClock := b]))
    {
      order[preClock] := b;
      pre[b] := preClock;
      preClock := preClock + 1;
      assert pre[..] == old(pre[..])[b := old(preClock)] && order[..] == old(order[..])[old(preClock) := b];
    }

    /** On leaving a block. */
    method Finish(b: nat)
      requires Shaped() && b < |next|
      modifies `postClock, `last, post
      ensures Shaped() && postClock == old(postClock) + 1
      ensures S() == old(S().(post := S().post[b := postClock], last := S().last[b := preClock - 1]))
    {
      post[b] := postClock;
      last := last[b := preClock - 1];
      postClock := postClock + 1;
      assert post[..] == old(post[..])[b := old(postClock)];
    }

    /** `get_dfs_tree`: number the unvisited blocks reachable from `b`. */
    method Visit(b: nat)
      requires Valid() && b < |next| && pre[b] == -1
      modifies this, pre, order, parent, post
      ensures Valid() && old(preClock) < preClock && old(postClock) < postClock
      ensures Visited(next, S(), b, old(preClock), preClock, old(postClock), postClock - 1)
      ensures Frame(next, old(S()), S(), old(preClock))
      ensures parent[b] == old(parent[b]) && preClock - old(preClock) == postClock - old(postClock)
      decreases |next| - preClock
    {
      hide Forest, Counted, Frame, Visited;
      ghost var s0, lo, plo := S(), preClock, postClock;
      RoomLeft(next, s0, lo, b);
      Number(b);
      Entered(next, s0, S(), b, lo, plo);
      for j := 0 to |next[b]|
        invariant Valid() && lo < preClock && plo <= postClock && preClock - lo == postClock - plo + 1
        invariant pre[b] == lo && order[lo] == b && parent[b] == old(parent[b])
        invariant Frame(next, s0, S(), lo) && Forest(next, S(), b, lo + 1, preClock, plo, postClock)
        invariant forall i :: 0 <= i < j ==> pre[next[b][i]] != -1
      {
        var c := next[b][j];
        if pre[c] == -1 {
          ghost var s1, mid, pmid := S(), preClock, postClock;
          parent[c] := b;
          assert parent[..] == s1.parent[c := b] && pre[..] == s1.pre && order[..] == s1.order && post[..] == s1.post;
          ghost var s2 := S();
          Hooked(next, s1, s2, b, c, lo, mid, plo, pmid);
          Visit(c);
          Grown(next, s0, s1, s2, S(), b, c, lo, mid, preClock, plo, pmid, postClock - 1);
        }
      }
      ghost var s3 := S();
      Finish(b);
      Left(next, s0, s3, S(), b, lo, preClock, plo, postClock - 1);
    }
  }

  lemma Entered(next: Graph, s0: Search, s: Search, b: int, lo: int, plo: int)
    requires Counted(next, s0, lo) && 0 <= b < |next| && s0.pre[b] == -1 && lo < |next| && 0 <= plo
    requires s == s0.(pre := s0.pre[b := lo], order := s0.order[lo := b])
    ensures Counted(next, s, lo + 1) && Frame(next, s0, s, lo) && Forest(next, s, b, lo + 1, lo + 1, plo, plo)
  {
  }

  lemma Hooked(next: Graph, s1: Search, s2: Search, b: int, c: int, lo: int, mid: int, plo: int, pmid: int)
    requires Counted(next, s1, mid) && 0 <= c < |next| && s1.pre[c] == -1
    requires s2 == s1.(parent := s1.parent[c := b])
    ensures Counted(next, s2, mid) && Frame(next, s1, s2, mid)
  {
  }

  /** After visiting child `c`, the forest below `b` has grown by its subtree. */
  lemma Grown(next: Graph, s0: Search, s1: Search, s2: Search, s: Search, b: int, c: int,
              lo: int, mid: int, hi: int, plo: int, pmid: int, phi: int)
    requires Frame(next, s0, s1, lo) && Frame(next, s1, s2, mid) && Frame(next, s2, s, mid) && lo < mid
    requires Forest(next, s1, b, lo + 1, mid, plo, pmid)
    requires Visited(next, s, c, mid, hi, pmid, phi) && s.parent[c] == b && Edge(next, b, c) && b != c
    requires 0 <= b < |next| && s1.pre[b] == lo && Counted(next, s, hi)
    ensures Frame(next, s0, s, lo) && Forest(next, s, b, lo + 1, hi, plo, phi + 1)
    ensures s.pre[b] == lo && s.order[lo] == s1.order[lo] && s.parent[b] == s1.parent[b] && s.pre[c] != -1
    ensures Counted(next, s1, mid) ==> forall x :: 0 <= x < |next| && s1.pre[x] != -1 ==> s.pre[x] != -1
  {
    hide Forest, Numbered, EdgesSeen, TreeEdges, PostOrdered;
    FrameTrans(next, s1, s2, s, mid, mid);
    FrameTrans(next, s0, s1, s, lo, mid);
    FinishedPart(s1, s, lo + 1, mid);
    ForestKept(next, s1, s, b, lo + 1, mid, plo, pmid);
    OneRoot(next, s, c, mid, hi);
    ForestClose(next, s, c, mid, hi, pmid, phi);
    ForestJoin(next, s, b, lo + 1, mid, hi, plo, pmid, phi + 1);
  }

  lemma FinishedPart(s: Search, t: Search, lo: int, hi: int)
    requires Finished(s, t, 0, hi) && 0 <= lo
    ensures Finished(s, t, lo, hi)
  {
    forall x | InSeg(s, x, lo, hi) ensures t.last[x] == s.last[x] && t.post[x] == s.post[x] { assert InSeg(s, x, 0, hi); }
  }

  lemma OneRoot(next: Graph, s: Search, c: int, mid: int, hi: int)
    requires Counted(next, s, hi) && 0 <= c < |next| && 0 <= mid < hi && s.pre[c] == mid
    ensures forall x :: InSeg(s, x, mid, hi) <==> x == c || InSeg(s, x, mid + 1, hi)
  {
    assert s.order[mid] == c;
  }

  lemma Left(next: Graph, s0: Search, s3: Search, s: Search, b: int, lo: int, hi: int, plo: int, phi: int)
    requires Counted(next, s3, hi) && Frame(next, s0, s3, lo) && Forest(next, s3, b, lo + 1, hi, plo, phi) && IsGraph(next)
    requires 0 <= b < |next| && s3.pre[b] == lo < hi && s3.order[lo] == b && 0 <= lo
    requires s == s3.(post := s3.post[b := phi], last := s3.last[b := hi - 1])
    requires forall i :: 0 <= i < |next[b]| ==> s3.pre[next[b][i]] != -1
    ensures Counted(next, s, hi) && Frame(next, s0, s, lo) && Visited(next, s, b, lo, hi, plo, phi)
  {
    hide Forest;
    assert AgreesBelow(next, s3, s, hi) && Finished(s3, s, lo + 1, hi);
    ForestKept(next, s3, s, b, lo + 1, hi, plo, phi);
  }

  // ---------- a complete search ----------

  /** The result of searching a whole graph from block 0. */
  ghost predicate DfsTree(next: Graph, s: Search) {
    var n := |next|;
    && Sized(next, s) && 0 < n && s.pre[0] == 0 && s.last[0] == n - 1
    && (forall x :: 0 <= x < n ==> 0 <= s.pre[x] <= s.last[x] < n && s.order[s.pre[x]] == x)
    && (forall k :: 0 <= k < n ==> 0 <= s.order[k] < n && s.pre[s.order[k]] == k)
    // subtrees are nested
    && (forall x, y :: 0 <= x < n && 0 <= y < n && s.pre[x] < s.pre[y] <= s.last[x] ==> s.last[y] <= s.last[x])
    // a successor is visited before the block is left
    && (forall x, z :: Edge(next, x, z) ==> 0 <= z < n && s.pre[z] <= s.last[x])
    // the parent function climbs the tree
    && (forall x :: 0 < x < n ==> Edge(next, s.parent[x], x) && s.parent[x] != x && Anc(s, s.parent[x], x))
    && (forall v, w :: v != w && Anc(s, v, w) ==> w != 0 && Anc(s, v, s.parent[w]))
    // postorder agrees with the tree
    && (forall x, y :: 0 <= x < n && 0 <= y < n && s.pre[x] < s.pre[y] ==>
          if s.pre[y] <= s.last[x] then s.post[y] < s.post[x] else s.post[x] < s.post[y])
  }

  /** A set of visited blocks that contains the entry and all successors contains every reachable block. */
  lemma {:induction false} ReachableVisited(next: Graph, s: Search, p: seq<int>)
    requires Sized(next, s) && IsPath(next, p) && s.pre[p[0]] != -1
    requires forall x, z :: 0 <= x < |next| && s.pre[x] != -1 && Edge(next, x, z) ==> 0 <= z < |next| && s.pre[z] != -1
    ensures s.pre[p[|p| - 1]] != -1
    decreases |p|
  {
    if |p| > 1 {
      PathSplit(next, p, |p| - 2);
      ReachableVisited(next, s, p[..|p| - 1]);
      assert Edge(next, p[|p| - 2], p[|p| - 1]);
    }
  }

  lemma SuccessorVisited(next: Graph, s: Search, hi: int, phi: int, x: int, z: int)
    requires Counted(next, s, hi) && Visited(next, s, 0, 0, hi, 0, phi)
    requires 0 <= x < |next| && s.pre[x] != -1 && Edge(next, x, z)
    ensures 0 <= z < |next| && s.pre[z] != -1
  {
    assert x == 0 || InSeg(s, x, 1, hi);
  }

  lemma SearchComplete(next: Graph, s: Search, hi: int, phi: int)
    requires AllReachable(next) && Counted(next, s, hi) && Visited(next, s, 0, 0, hi, 0, phi) && Sized(next, s) && s.pre[0] == 0
    ensures hi == |next| && forall x :: 0 <= x < |next| ==> s.pre[x] != -1
  {
    hide Visited, Counted;
    forall x, z | 0 <= x < |next| && s.pre[x] != -1 && Edge(next, x, z) ensures 0 <= z < |next| && s.pre[z] != -1 {
      SuccessorVisited(next, s, hi, phi, x, z);
    }
    forall x | 0 <= x < |next| ensures s.pre[x] != -1 {
      assert Reaches(next, 0, x);
      var p :| IsPath(next, p) && p[0] == 0 && p[|p| - 1] == x;
      ReachableVisited(next, s, p);
    }
    AllVisited(next, s, hi);
  }

  lemma TreeOfSearch(next: Graph, s: Search, phi: int)
    requires IsGraph(next) && Visited(next, s, 0, 0, |next|, 0, phi) && Counted(next, s, |next|)
    requires forall x :: 0 <= x < |next| ==> s.pre[x] != -1
    ensures DfsTree(next, s)
  {
    hide Numbered, EdgesSeen, TreeEdges, PostOrdered, Counted;
    var n := |next|;
    OneRoot(next, s, 0, 0, n);
    CloseNumbered(next, s, 0, 0, n);
    ClosePost(next, s, 0, 0, n, 0, phi);
    InWhole(next, s);
    FlatNumbered(next, s);
    FlatEdges(next, s);
    FlatTree(next, s);
    FlatPost(next, s, phi + 1);
  }

  lemma InWhole(next: Graph, s: Search)
    requires Counted(next, s, |next|) && 0 < |next| && s.pre[0] == 0 && forall x :: 0 <= x < |next| ==> s.pre[x] != -1
    ensures forall x :: 0 <= x < |next| ==> InSeg(s, x, 0, |next|)
    ensures forall x :: 0 < x < |next| ==> InSeg(s, x, 1, |next|)
  {
    forall x | 0 < x < |next| ensures InSeg(s, x, 1, |next|) { assert s.order[s.pre[x]] == x; }
  }

  lemma FlatNumbered(next: Graph, s: Search)
    requires Sized(next, s) && Numbered(next, s, 0, |next|) && forall x :: 0 <= x < |next| ==> InSeg(s, x, 0, |next|)
    ensures forall x :: 0 <= x < |next| ==> 0 <= s.pre[x] <= s.last[x] < |next| && s.order[s.pre[x]] == x
    ensures forall k :: 0 <= k < |next| ==> 0 <= s.order[k] < |next| && s.pre[s.order[k]] == k
    ensures forall x, y :: 0 <= x < |next| && 0 <= y < |next| && s.pre[x] < s.pre[y] <= s.last[x] ==> s.last[y] <= s.last[x]
  {
    var n := |next|;
    forall x | 0 <= x < n ensures 0 <= s.pre[x] <= s.last[x] < n && s.order[s.pre[x]] == x { assert InSeg(s, x, 0, n); }
    forall k | 0 <= k < n ensures 0 <= s.order[k] < n && s.pre[s.order[k]] == k { assert InSeg(s, s.order[k], 0, n); }
    forall x, y | 0 <= x < n && 0 <= y < n && s.pre[x] < s.pre[y] <= s.last[x] ensures s.last[y] <= s.last[x] {
      assert InSeg(s, x, 0, n) && InSeg(s, y, 0, n);
    }
  }

  lemma FlatEdges(next: Graph, s: Search)
    requires IsGraph(next) && Sized(next, s) && EdgesSeen(next, s, 1, |next|) && s.last[0] == |next| - 1
    requires forall x :: 0 < x < |next| ==> InSeg(s, x, 1, |next|)
    requires forall z :: Edge(next, 0, z) ==> 0 <= z < |next| && 0 <= s.pre[z] <= |next| - 1
    ensures forall x, z :: Edge(next, x, z) ==> 0 <= z < |next| && s.pre[z] <= s.last[x]
  {
    forall x, z | Edge(next, x, z) ensures 0 <= z < |next| && s.pre[z] <= s.last[x] {
      assert x == 0 || InSeg(s, x, 1, |next|);
    }
  }

  lemma FlatTree(next: Graph, s: Search)
    requires Sized(next, s) && TreeEdges(next, s, 0, 1, |next|) && 0 < |next| && s.pre[0] == 0 && s.last[0] == |next| - 1
    requires forall x :: 0 < x < |next| ==> InSeg(s, x, 1, |next|)
    ensures forall x :: 0 < x < |next| ==> Edge(next, s.parent[x], x) && s.parent[x] != x && Anc(s, s.parent[x], x)
    ensures forall v, w :: v != w && Anc(s, v, w) ==> w != 0 && Anc(s, v, s.parent[w])
  {
    hide TreeEdges;
    forall x | 0 < x < |next| ensures Edge(next, s.parent[x], x) && s.parent[x] != x && Anc(s, s.parent[x], x) {
      ParentAbove(next, s, x);
    }
    forall v, w | v != w && Anc(s, v, w) ensures w != 0 && Anc(s, v, s.parent[w]) {
      ParentBelow(next, s, v, w);
    }
  }

  lemma ParentAbove(next: Graph, s: Search, x: int)
    requires Sized(next, s) && TreeEdges(next, s, 0, 1, |next|) && 0 < x < |next| && s.pre[0] == 0 && s.last[0] == |next| - 1
    requires InSeg(s, x, 1, |next|)
    ensures Edge(next, s.parent[x], x) && s.parent[x] != x && Anc(s, s.parent[x], x)
  {
    hide Edge;
    assert s.parent[x] == 0 || InSeg(s, s.parent[x], 1, |next|);
  }

  lemma ParentBelow(next: Graph, s: Search, v: int, w: int)
    requires Sized(next, s) && TreeEdges(next, s, 0, 1, |next|) && 0 < |next| && s.pre[0] == 0 && s.last[0] == |next| - 1
    requires forall x :: 0 < x < |next| ==> InSeg(s, x, 1, |next|)
    requires v != w && Anc(s, v, w)
    ensures w != 0 && 0 <= w < |s.parent| && Anc(s, v, s.parent[w])
  {
    hide Edge;
    assert v == 0 || InSeg(s, v, 1, |next|);
    if w == 0 { assert false; }
    assert InSeg(s, w, 1, |next|);
    if v == 0 && s.parent[w] != 0 { assert InSeg(s, s.parent[w], 1, |next|); }
  }

  lemma FlatPost(next: Graph, s: Search, phi: int)
    requires Sized(next, s) && PostOrdered(next, s, 0, |next|, 0, phi) && forall x :: 0 <= x < |next| ==> InSeg(s, x, 0, |next|)
    ensures forall x, y :: 0 <= x < |next| && 0 <= y < |next| && s.pre[x] < s.pre[y] ==>
                             if s.pre[y] <= s.last[x] then s.post[y] < s.post[x] else s.post[x] < s.post[y]
  {
    forall x, y | 0 <= x < |next| && 0 <= y < |next| && s.pre[x] < s.pre[y]
      ensures if s.pre[y] <= s.last[x] then s.post[y] < s.post[x] else s.post[x] < s.post[y]
    {
      assert InSeg(s, x, 0, |next|) && InSeg(s, y, 0, |next|);
    }
  }

  /** Search the whole graph. */
  method DepthFirstSearch(next: Graph) returns (pre: seq<int>, order: seq<int>, parent: seq<int>, post: seq<int>, ghost s: Search)
    requires IsGraph(next) && AllReachable(next)
    ensures s.pre == pre && s.order == order && s.parent == parent && s.post == post && DfsTree(next, s)
    ensures |pre| == |order| == |parent| == |post| == |next|
    ensures forall x :: 0 <= x < |next| ==> 0 <= pre[x] < |next| && order[pre[x]] == x
    ensures forall x :: 0 < x < |next| ==>
              Edge(next, parent[x], x) && 0 <= parent[x] < |next| && pre[parent[x]] < pre[x] && post[x] < post[parent[x]]
  {
    var d := new Dfs(next);
    d.Visit(0);
    SearchComplete(next, d.S(), d.preClock, d.postClock - 1);
    TreeOfSearch(next, d.S(), d.postClock - 1);
    pre, order, parent, post := d.pre[..], d.order[..], d.parent[..], d.post[..];
    s := d.S();
  }
}
