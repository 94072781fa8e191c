/** The semidominator phase of the Lengauer-Tarjan algorithm. */
module Semidominators {
  import opened Cfg
  import opened DepthFirst

  const INT_MAX := 0x7FFF_FFFF

  // ---------- what a semidominator is ----------

  /** A path to `w` all of whose interior blocks are numbered after `w`. */
  ghost predicate SemiPath(next: Graph, s: Search, w: int, p: seq<int>)
    requires |s.pre| == |next|
  {
    && IsPath(next, p) && 2 <= |p| && p[|p| - 1] == w
    && forall i :: 0 < i < |p| - 1 ==> s.pre[p[i]] > s.pre[w]
  }

  /** `v` is the block of least preorder number with such a path to `w`. */
  ghost predicate IsSemidominator(next: Graph, s: Search, w: int, v: int)
    requires |s.pre| == |next|
  {
    && 0 <= v < |next| && (exists p :: SemiPath(next, s, w, p) && p[0] == v)
    && forall p :: SemiPath(next, s, w, p) ==> s.pre[v] <= s.pre[p[0]]
  }

  // ---------- facts about the spanning tree ----------

  lemma Sizes(next: Graph, s: Search)
    requires DfsTree(next, s)
    ensures Sized(next, s) && 0 < |next| && forall x :: 0 <= x < |next| ==> 0 <= s.pre[x] < |next|
  {
  }

  lemma AncTrans(next: Graph, s: Search, u: int, v: int, w: int)
    requires DfsTree(next, s) && Anc(s, u, v) && Anc(s, v, w)
    ensures Anc(s, u, w)
  {
  }

  lemma AncRefl(next: Graph, s: Search, v: int)
    requires DfsTree(next, s) && 0 <= v < |next|
    ensures Anc(s, v, v)
  {
  }

  /** Ancestors of one block form a chain. */
  lemma AncChain(next: Graph, s: Search, u: int, v: int, w: int)
    requires DfsTree(next, s) && Anc(s, u, w) && Anc(s, v, w) && s.pre[u] <= s.pre[v]
    ensures Anc(s, u, v)
  {
  }

  lemma SamePre(next: Graph, s: Search, u: int, v: int)
    requires DfsTree(next, s) && 0 <= u < |next| && 0 <= v < |next| && s.pre[u] == s.pre[v]
    ensures u == v
  {
    assert s.order[s.pre[u]] == u && s.order[s.pre[v]] == v;
  }

  /** The parent of a non-entry block is its predecessor and proper ancestor. */
  lemma ParentFacts(next: Graph, s: Search, x: int)
    requires DfsTree(next, s) && 0 < x < |next|
    ensures |s.parent| == |s.pre| == |next| && 0 <= s.parent[x] < |next| && Edge(next, s.parent[x], x) && Anc(s, s.parent[x], x)
    ensures s.pre[s.parent[x]] < s.pre[x]
  {
    assert Edge(next, s.parent[x], x) && Anc(s, s.parent[x], x);
    assert s.order[s.pre[x]] == x && s.order[s.pre[s.parent[x]]] == s.parent[x];
  }

  lemma Climb(next: Graph, s: Search, v: int, w: int)
    requires DfsTree(next, s) && v != w && Anc(s, v, w)
    ensures 0 < w < |next| == |s.parent| && Anc(s, v, s.parent[w])
  {
  }

  /** A path that never goes below the number of its first block stays in that block's subtree. */
  lemma {:induction false} PathDescends(next: Graph, s: Search, q: seq<int>, t: int)
    requires DfsTree(next, s) && IsPath(next, q) && 0 <= t < |q|
    requires forall i :: 0 <= i < |q| ==> s.pre[q[0]] <= s.pre[q[i]]
    ensures Anc(s, q[0], q[t])
  {
    if t > 0 {
      PathDescends(next, s, q, t - 1);
      assert Edge(next, q[t - 1], q[t]);
    }
  }

  /** The tree path from an ancestor down to a descendant. */
  lemma {:induction false} TreePath(next: Graph, s: Search, u: int, v: int) returns (p: seq<int>)
    requires DfsTree(next, s) && Anc(s, u, v)
    ensures IsPath(next, p) && p[0] == u && p[|p| - 1] == v
    ensures forall i :: 0 <= i < |p| ==> Anc(s, u, p[i])
    ensures forall i :: 0 < i < |p| ==> 0 < p[i] < |s.parent| && p[i - 1] == s.parent[p[i]]
    decreases s.pre[v]
  {
    hide DfsTree, IsPath;
    Sizes(next, s);
    if u == v {
      p := [u];
      SinglePath(next, u);
    } else {
      Climb(next, s, u, v);
      ParentFacts(next, s, v);
      var q := TreePath(next, s, u, s.parent[v]);
      PathNonempty(next, q);
      PathSnoc(next, q, v);
      p := q + [v];
      assert Anc(s, u, v);
    }
  }

  lemma SinglePath(next: Graph, u: int)
    requires 0 <= u < |next|
    ensures IsPath(next, [u])
  {
  }

  lemma PathSnoc(next: Graph, q: seq<int>, v: int)
    requires IsPath(next, q) && 0 <= v < |next| && Edge(next, q[|q| - 1], v)
    ensures IsPath(next, q + [v])
  {
    var p := q + [v];
    forall i | 0 <= i < |p| - 1 ensures Edge(next, p[i], p[i + 1]) {
      if i < |q| - 1 { assert p[i] == q[i] && p[i + 1] == q[i + 1]; }
    }
  }

  // ---------- the semidominator theorem ----------

  /** `c` is one of the numbers that the algorithm minimises over when it processes `w`. */
  ghost predicate Direct(next: Graph, s: Search, w: int, v: int, c: int)
    requires |s.pre| == |next|
  {
    0 <= v < |next| && 0 <= w < |next| && Edge(next, v, w) && s.pre[v] < s.pre[w] && c == s.pre[v]
  }

  ghost predicate Indirect(next: Graph, s: Search, semi: seq<int>, w: int, v: int, u: int, c: int)
    requires |s.pre| == |next| == |semi|
  {
    && 0 <= v < |next| && 0 <= w < |next| && Edge(next, v, w)
    && Anc(s, u, v) && s.pre[u] > s.pre[w] && 0 <= semi[u] < |next| && c == s.pre[semi[u]]
  }

  ghost predicate Candidate(next: Graph, s: Search, semi: seq<int>, w: int, c: int)
    requires |s.pre| == |next| == |semi|
  {
    (exists v :: Direct(next, s, w, v, c)) || (exists v, u :: Indirect(next, s, semi, w, v, u, c))
  }

  /** `semi` is right for every block numbered after `w`. */
  ghost predicate SemiAbove(next: Graph, s: Search, semi: seq<int>, w: int)
    requires |s.pre| == |next| == |semi| && 0 <= w < |next|
  {
    forall u :: 0 <= u < |next| && s.pre[u] > s.pre[w] ==> IsSemidominator(next, s, u, semi[u])
  }

  /** Every candidate is the number of a block with a semidominator path. */
  lemma CandidateSound(next: Graph, s: Search, semi: seq<int>, w: int, c: int) returns (p: seq<int>)
    requires DfsTree(next, s) && |semi| == |next| && 0 <= w < |next| && SemiAbove(next, s, semi, w)
    requires Candidate(next, s, semi, w, c)
    ensures SemiPath(next, s, w, p) && s.pre[p[0]] == c
  {
    Sizes(next, s);
    hide DfsTree;
    if v :| Direct(next, s, w, v, c) {
      p := [v, w];
    } else {
      var v, u :| Indirect(next, s, semi, w, v, u, c);
      p := IndirectPath(next, s, semi, w, v, u, c);
    }
  }

  lemma IndirectPath(next: Graph, s: Search, semi: seq<int>, w: int, v: int, u: int, c: int) returns (p: seq<int>)
    requires DfsTree(next, s) && |s.pre| == |semi| == |next| && 0 <= w < |next| && SemiAbove(next, s, semi, w)
    requires Indirect(next, s, semi, w, v, u, c)
    ensures SemiPath(next, s, w, p) && s.pre[p[0]] == c
  {
    hide DfsTree, IsPath;
    var r :| SemiPath(next, s, u, r) && r[0] == semi[u];
    var q := TreePath(next, s, u, v);
    assert 0 < |q| by { PathNonempty(next, q); }
    PathJoin(next, r, q);
    var h := r + q[1..];
    PathSnoc(next, h, w);
    p := h + [w];
    forall i | 0 < i < |p| - 1 ensures 0 <= p[i] < |s.pre| && s.pre[p[i]] > s.pre[w] {
      if i < |r| - 1 {
        assert p[i] == r[i];
      } else {
        assert p[i] == q[i - (|r| - 1)];
        assert Anc(s, u, q[i - (|r| - 1)]);
      }
    }
  }

  lemma PathNonempty(next: Graph, p: seq<int>)
    requires IsPath(next, p)
    ensures 0 < |p| && forall i :: 0 <= i < |p| ==> 0 <= p[i] < |next|
  {
  }

  /** The semidominator of a non-entry block is numbered below it. */
  lemma SemiBelow(next: Graph, s: Search, w: int, v: int)
    requires DfsTree(next, s) && 0 < w < |next| && IsSemidominator(next, s, w, v)
    ensures |s.parent| == |s.pre| && 0 <= s.parent[w] < |next| && s.pre[v] <= s.pre[s.parent[w]] < s.pre[w]
  {
    hide DfsTree;
    ParentFacts(next, s, w);
    var p := [s.parent[w], w];
    assert SemiPath(next, s, w, p);
  }

  /** The first block after the start of the path that is an ancestor of its last interior block. */
  lemma FirstAncestor(next: Graph, s: Search, p: seq<int>, k: int) returns (j: int)
    requires DfsTree(next, s) && IsPath(next, p) && 1 <= k < |p|
    ensures 1 <= j <= k && Anc(s, p[j], p[k]) && forall i :: 1 <= i < j ==> !Anc(s, p[i], p[k])
  {
    AncRefl(next, s, p[k]);
    j := 1;
    while !Anc(s, p[j], p[k])
      invariant 1 <= j <= k && forall i :: 1 <= i < j ==> !Anc(s, p[i], p[k])
      decreases k - j
    {
      j := j + 1;
    }
  }

  /** The position of the least number in `p[lo..hi]`. */
  lemma LeastAt(s: Search, p: seq<int>, lo: int, hi: int) returns (m: int)
    requires 0 <= lo < hi <= |p| && forall i :: 0 <= i < |p| ==> 0 <= p[i] < |s.pre|
    ensures lo <= m < hi && forall i :: lo <= i < hi ==> s.pre[p[m]] <= s.pre[p[i]]
  {
    m := lo;
    for i := lo to hi
      invariant lo <= m < hi && forall k :: lo <= k < i ==> s.pre[p[m]] <= s.pre[p[k]]
    {
      if s.pre[p[i]] < s.pre[p[m]] { m := i; }
    }
  }

  /** Up to its first ancestor of the last interior block, a semidominator path is one for that ancestor. */
  lemma PrefixIsSemiPath(next: Graph, s: Search, p: seq<int>, j: int, k: int)
    requires DfsTree(next, s) && |s.pre| == |next| && IsPath(next, p) && 1 <= j <= k < |p|
    requires Anc(s, p[j], p[k]) && forall i :: 1 <= i < j ==> !Anc(s, p[i], p[k])
    ensures SemiPath(next, s, p[j], p[..j + 1])
  {
    hide DfsTree;
    PathSplit(next, p, j);
    if j > 1 {
      var m := LeastAt(s, p, 1, j);
      if s.pre[p[m]] <= s.pre[p[j]] {
        var q := p[..j + 1][m..];
        PathSplit(next, p[..j + 1], m);
        forall i | 0 <= i < |q| ensures s.pre[q[0]] <= s.pre[q[i]] {
          assert q[i] == p[m + i];
        }
        PathDescends(next, s, q, |q| - 1);
        assert q[|q| - 1] == p[j];
        AncTrans(next, s, p[m], p[j], p[k]);
        assert false;
      }
    }
  }

  /** For every semidominator path there is a candidate that is at least as good. */
  lemma CandidateComplete(next: Graph, s: Search, semi: seq<int>, w: int, p: seq<int>) returns (c: int)
    requires DfsTree(next, s) && |semi| == |next| && 0 < w < |next| && SemiAbove(next, s, semi, w)
    requires SemiPath(next, s, w, p)
    ensures Candidate(next, s, semi, w, c) && c <= s.pre[p[0]]
  {
    hide DfsTree;
    Sizes(next, s);
    var k := |p| - 1;
    var v := p[k - 1];
    assert Edge(next, p[k - 1], p[k]);
    if k == 1 {
      c := ShortPath(next, s, semi, w, v);
    } else {
      c := LongPath(next, s, semi, w, p);
    }
  }

  lemma ShortPath(next: Graph, s: Search, semi: seq<int>, w: int, v: int) returns (c: int)
    requires DfsTree(next, s) && |s.pre| == |semi| == |next| && 0 < w < |next| && SemiAbove(next, s, semi, w)
    requires 0 <= v < |next| && Edge(next, v, w)
    ensures Candidate(next, s, semi, w, c) && c <= s.pre[v]
  {
    hide DfsTree;
    if s.pre[v] < s.pre[w] {
      c := s.pre[v];
      assert Direct(next, s, w, v, c);
    } else if s.pre[v] == s.pre[w] {
      ParentFacts(next, s, w);
      c := s.pre[s.parent[w]];
      assert Direct(next, s, w, s.parent[w], c);
    } else {
      AncRefl(next, s, v);
      EntryFirst(next, s, w);
      assert v != 0;
      assert IsSemidominator(next, s, v, semi[v]);
      SemiBelow(next, s, v, semi[v]);
      c := s.pre[semi[v]];
      assert Indirect(next, s, semi, w, v, v, c);
    }
  }

  lemma EntryFirst(next: Graph, s: Search, w: int)
    requires DfsTree(next, s) && 0 <= w < |next|
    ensures s.pre[0] == 0 <= s.pre[w]
  {
  }

  lemma LongPath(next: Graph, s: Search, semi: seq<int>, w: int, p: seq<int>) returns (c: int)
    requires DfsTree(next, s) && |s.pre| == |semi| == |next| && 0 < w < |next| && SemiAbove(next, s, semi, w)
    requires SemiPath(next, s, w, p) && 2 < |p|
    ensures Candidate(next, s, semi, w, c) && c <= s.pre[p[0]]
  {
    hide DfsTree;
    var k := |p| - 1;
    var j := FirstAncestor(next, s, p, k - 1);
    var u := p[j];
    PrefixIsSemiPath(next, s, p, j, k - 1);
    assert s.pre[u] > s.pre[w];
    assert IsSemidominator(next, s, u, semi[u]);
    c := s.pre[semi[u]];
    assert p[..j + 1][0] == p[0];
    assert Edge(next, p[k - 1], p[k]);
    assert Indirect(next, s, semi, w, p[k - 1], u, c);
  }

  /** The least candidate is the number of the semidominator. */
  lemma LeastCandidate(next: Graph, s: Search, semi: seq<int>, w: int, c: int)
    requires DfsTree(next, s) && |semi| == |next| && 0 < w < |next| && SemiAbove(next, s, semi, w)
    requires Candidate(next, s, semi, w, c) && forall d :: Candidate(next, s, semi, w, d) ==> c <= d
    ensures 0 <= c < |next| && IsSemidominator(next, s, w, s.order[c])
  {
    hide Candidate, SemiAbove;
    var p := CandidateSound(next, s, semi, w, c);
    assert s.order[c] == p[0];
    forall q | SemiPath(next, s, w, q) ensures s.pre[s.order[c]] <= s.pre[q[0]] {
      var d := CandidateComplete(next, s, semi, w, q);
    }
  }

  // ---------- the algorithm ----------

  /** The forest `F`: unprocessed blocks (numbered up to `i`) point to themselves, processed ones to a proper
      ancestor, never past their nearest unprocessed ancestor. */
  ghost predicate Linked(next: Graph, s: Search, F: seq<int>, i: int)
    requires |s.pre| == |next|
  {
    && |F| == |next|
    && (forall x :: 0 <= x < |next| && s.pre[x] <= i ==> F[x] == x)
    && (forall x :: 0 <= x < |next| && s.pre[x] > i ==> F[x] != x && Anc(s, F[x], x))
    && (forall x, u :: 0 <= x < |next| && s.pre[x] > i && Anc(s, u, x) && s.pre[u] <= i ==> Anc(s, u, F[x]))
  }

  /** Halving one step keeps the forest. */
  lemma Halve(next: Graph, s: Search, F: seq<int>, i: int, x: int)
    requires DfsTree(next, s) && |s.pre| == |next| && Linked(next, s, F, i) && 0 <= x < |next| && F[x] != x
    ensures 0 <= F[x] < |next| && s.pre[x] > i
    ensures Linked(next, s, F[x := F[F[x]]], i)
    ensures Anc(s, F[F[x]], x) && s.pre[F[F[x]]] < s.pre[x]
    ensures forall u :: Anc(s, u, x) && s.pre[u] <= i ==> Anc(s, u, F[F[x]])
  {
    hide DfsTree;
    var y := F[x];
    assert s.pre[x] > i && Anc(s, y, x);
    assert s.pre[y] < s.pre[x] by { if s.pre[y] == s.pre[x] { SamePre(next, s, y, x); } }
    if s.pre[y] > i { AncTrans(next, s, F[y], y, x); }
    forall u | Anc(s, u, x) && s.pre[u] <= i ensures Anc(s, u, F[y]) {
      assert Anc(s, u, y);
    }
  }

  /** The root of `x` in the forest is its nearest unprocessed ancestor. */
  method FindRoot(F: array<int>, x: nat, ghost next: Graph, ghost s: Search, ghost i: int) returns (root: nat)
    requires DfsTree(next, s) && |s.pre| == |next| && Linked(next, s, F[..], i) && x < |next| && 0 <= i
    modifies F
    ensures Linked(next, s, F[..], i)
    ensures Anc(s, root, x) && s.pre[root] <= i
    ensures forall u :: Anc(s, u, x) && s.pre[u] <= i ==> Anc(s, u, root)
  {
    hide DfsTree;
    AncRefl(next, s, x);
    root := x;
    while F[root] != root
      invariant Linked(next, s, F[..], i) && root < |next| && Anc(s, root, x)
      invariant forall u :: Anc(s, u, x) && s.pre[u] <= i ==> Anc(s, u, root)
      decreases s.pre[root]
    {
      ghost var was := F[..];
      Halve(next, s, was, i, root);
      F[root] := F[F[root]];
      assert F[..] == was[root := was[was[root]]];
      AncTrans(next, s, F[root], root, x);
      root := F[root];
    }
  }

  /** The blocks that the walk from `v` to its root visits. */
  ghost predicate OnWalk(s: Search, v: int, i: int, u: int)
  {
    Anc(s, u, v) && s.pre[u] > i
  }

  /** `sd` is at most the semidominator number of every block on the walk that is numbered after `cur`. */
  ghost predicate WalkedTo(s: Search, semi: seq<int>, v: int, i: int, cur: int, sd: int) {
    forall u :: OnWalk(s, v, i, u) && u < |semi| && 0 <= semi[u] < |s.pre| && s.pre[u] > cur ==> sd <= s.pre[semi[u]]
  }

  /** `sd` is `sd0` or the semidominator number of some block on the walk. */
  ghost predicate FromWalk(s: Search, semi: seq<int>, v: int, i: int, sd0: int, sd: int) {
    sd == sd0 || exists u :: OnWalk(s, v, i, u) && u < |semi| && 0 <= semi[u] < |s.pre| && sd == s.pre[semi[u]]
  }

  lemma WalkStep(next: Graph, s: Search, semi: seq<int>, v: int, root: int, i: int, cur: int, sd0: int, was: int, sd: int)
    requires DfsTree(next, s) && |s.pre| == |next| == |semi| && Anc(s, cur, v) && Anc(s, root, cur) && cur != root
    requires forall u :: Anc(s, u, v) && s.pre[u] <= i ==> Anc(s, u, root)
    requires WalkedTo(s, semi, v, i, s.pre[cur], was) && FromWalk(s, semi, v, i, sd0, was) && 0 <= semi[cur] < |next|
    requires sd == if s.pre[semi[cur]] < was then s.pre[semi[cur]] else was
    ensures 0 < cur && |s.parent| == |next| && 0 <= s.parent[cur] < |next| && s.pre[s.parent[cur]] < s.pre[cur]
    ensures Anc(s, s.parent[cur], v) && Anc(s, root, s.parent[cur])
    ensures WalkedTo(s, semi, v, i, s.pre[s.parent[cur]], sd) && FromWalk(s, semi, v, i, sd0, sd)
  {
    hide DfsTree;
    BelowRoot(next, s, v, root, i, cur);
    assert OnWalk(s, v, i, cur);
    Climb(next, s, root, cur);
    ParentFacts(next, s, cur);
    AncTrans(next, s, s.parent[cur], cur, v);
    forall u | OnWalk(s, v, i, u) && u < |semi| && 0 <= semi[u] < |s.pre| && s.pre[u] > s.pre[s.parent[cur]] ensures sd <= s.pre[semi[u]] {
      if s.pre[u] <= s.pre[cur] { BetweenParent(next, s, v, u, cur); }
    }
  }

  /** Walk the tree from `v` up to its root, lowering `sd` to the least semidominator number seen. */
  method WalkUp(pre: seq<int>, parent: seq<int>, semidom: array<int>, v: nat, root: nat, sd0: int,
                ghost next: Graph, ghost s: Search, ghost i: int) returns (sd: int)
    requires DfsTree(next, s) && s.pre == pre && s.parent == parent && |pre| == |next| == |parent| == semidom.Length
    requires Anc(s, root, v) && s.pre[root] <= i < s.pre[v]
    requires forall u :: Anc(s, u, v) && s.pre[u] <= i ==> Anc(s, u, root)
    requires forall x :: 0 <= x < semidom.Length ==> 0 <= semidom[x] < |next|
    ensures sd <= sd0 && FromWalk(s, semidom[..], v, i, sd0, sd) && WalkedTo(s, semidom[..], v, i, i, sd)
  {
    hide DfsTree, WalkedTo, FromWalk;
    AncRefl(next, s, v);
    WalkStart(next, s, semidom[..], v, i, sd0);
    var cur := v;
    sd := sd0;
    while cur != root
      invariant cur < |next| && Anc(s, cur, v) && Anc(s, root, cur) && sd <= sd0
      invariant WalkedTo(s, semidom[..], v, i, s.pre[cur], sd) && FromWalk(s, semidom[..], v, i, sd0, sd)
      decreases s.pre[cur]
    {
      ghost var was := sd;
      if pre[semidom[cur]] < sd {
        sd := pre[semidom[cur]];
      }
      WalkStep(next, s, semidom[..], v, root, i, cur, sd0, was, sd);
      cur := parent[cur];
    }
    WalkEnd(s, semidom[..], v, i, s.pre[root], sd);
  }

  lemma WalkStart(next: Graph, s: Search, semi: seq<int>, v: int, i: int, sd0: int)
    requires 0 <= v < |s.pre|
    ensures WalkedTo(s, semi, v, i, s.pre[v], sd0) && FromWalk(s, semi, v, i, sd0, sd0)
  {
  }

  lemma WalkEnd(s: Search, semi: seq<int>, v: int, i: int, cur: int, sd: int)
    requires WalkedTo(s, semi, v, i, cur, sd) && cur <= i
    ensures WalkedTo(s, semi, v, i, i, sd)
  {
  }

  /** Every block strictly below the root on the walk has been processed. */
  lemma BelowRoot(next: Graph, s: Search, v: int, root: int, i: int, x: int)
    requires DfsTree(next, s) && Anc(s, x, v) && Anc(s, root, x) && x != root
    requires forall u :: Anc(s, u, v) && s.pre[u] <= i ==> Anc(s, u, root)
    ensures s.pre[x] > i
  {
    hide DfsTree;
    Sizes(next, s);
    if s.pre[x] <= i {
      assert Anc(s, x, root);
      SamePre(next, s, x, root);
    }
  }

  /** There is nothing between a block and its parent. */
  lemma BetweenParent(next: Graph, s: Search, v: int, u: int, cur: int)
    requires DfsTree(next, s) && Anc(s, u, v) && Anc(s, cur, v) && 0 < cur < |next| == |s.parent| && 0 <= s.parent[cur] < |s.pre|
    requires s.pre[s.parent[cur]] < s.pre[u] <= s.pre[cur]
    ensures u == cur
  {
    AncChain(next, s, u, cur, v);
    if u != cur {
      Climb(next, s, u, cur);
    }
  }

  /** What the scan of predecessors has established after the first `j` of them. */
  ghost predicate Scanned(next: Graph, prev: Graph, s: Search, semi: seq<int>, w: int, j: int, sd: int)
    requires |s.pre| == |next| == |semi| == |prev| && 0 <= w < |next| && 0 <= j <= |prev[w]|
  {
    && (sd == INT_MAX || Candidate(next, s, semi, w, sd))
    && forall k :: 0 <= k < j ==> Covered(next, s, semi, w, prev[w][k], sd)
  }

  ghost predicate Covered(next: Graph, s: Search, semi: seq<int>, w: int, v: int, sd: int)
    requires |s.pre| == |next| == |semi| && 0 <= w < |next|
  {
    && 0 <= v < |next| && (s.pre[v] < s.pre[w] ==> sd <= s.pre[v])
    && forall u :: v != w && s.pre[v] >= s.pre[w] && OnWalk(s, v, s.pre[w], u) && 0 <= semi[u] < |next| ==> sd <= s.pre[semi[u]]
  }

  lemma CoveredLower(next: Graph, s: Search, semi: seq<int>, w: int, v: int, sd: int, sd': int)
    requires |s.pre| == |next| == |semi| && 0 <= w < |next| && Covered(next, s, semi, w, v, sd) && sd' <= sd
    ensures Covered(next, s, semi, w, v, sd')
  {
  }

  /** A complete scan has found the least candidate. */
  lemma ScanComplete(next: Graph, prev: Graph, s: Search, semi: seq<int>, w: int, sd: int)
    requires DfsTree(next, s) && |s.pre| == |next| == |semi| && IsPrev(next, prev) && 0 < w < |next| <= INT_MAX
    requires Scanned(next, prev, s, semi, w, |prev[w]|, sd) && SemiAbove(next, s, semi, w)
    ensures 0 <= sd < |next| && Candidate(next, s, semi, w, sd)
    ensures forall d :: Candidate(next, s, semi, w, d) ==> sd <= d
  {
    hide DfsTree;
    Sizes(next, s);
    ParentFacts(next, s, w);
    var t := s.parent[w];
    assert t in prev[w];
    var k :| 0 <= k < |prev[w]| && prev[w][k] == t;
    assert Covered(next, s, semi, w, prev[w][k], sd);
    forall d | Candidate(next, s, semi, w, d) ensures sd <= d {
      if v :| Direct(next, s, w, v, d) {
        PredCovered(next, prev, s, semi, w, sd, v);
      } else {
        var v, u :| Indirect(next, s, semi, w, v, u, d);
        PredCovered(next, prev, s, semi, w, sd, v);
        assert OnWalk(s, v, s.pre[w], u);
      }
    }
    if v :| Direct(next, s, w, v, sd) {
    } else {
      var v, u :| Indirect(next, s, semi, w, v, u, sd);
    }
  }

  lemma PredCovered(next: Graph, prev: Graph, s: Search, semi: seq<int>, w: int, sd: int, v: int)
    requires |s.pre| == |next| == |semi| && IsPrev(next, prev) && 0 < w < |next|
    requires Scanned(next, prev, s, semi, w, |prev[w]|, sd) && Edge(next, v, w)
    ensures Covered(next, s, semi, w, v, sd)
  {
    assert v in prev[w];
    var k :| 0 <= k < |prev[w]| && prev[w][k] == v;
  }

  /** Look at one predecessor of `w`. */
  method ScanPredecessor(pre: seq<int>, parent: seq<int>, F: array<int>, semidom: array<int>, w: nat, v: nat, sd0: int,
                         ghost next: Graph, ghost s: Search)
    returns (sd: int)
    requires DfsTree(next, s) && s.pre == pre && s.parent == parent && |pre| == |next| == |parent| == semidom.Length && F != semidom
    requires 0 < w < |next| && v < |next| && Edge(next, v, w) && Linked(next, s, F[..], pre[w])
    requires forall x :: 0 <= x < semidom.Length ==> 0 <= semidom[x] < |next|
    requires sd0 == INT_MAX || Candidate(next, s, semidom[..], w, sd0)
    modifies F
    ensures Linked(next, s, F[..], pre[w]) && sd <= sd0
    ensures Covered(next, s, semidom[..], w, v, sd)
    ensures sd == INT_MAX || Candidate(next, s, semidom[..], w, sd)
  {
    hide DfsTree, Linked, Candidate, FromWalk, WalkedTo, OnWalk;
    Sizes(next, s);
    sd := sd0;
    if v == w { // a self-loop does not affect dominance
      return;
    }
    if pre[v] < pre[w] {
      if pre[v] < sd {
        sd := pre[v];
        DirectCandidate(next, s, semidom[..], w, v);
      }
    } else {
      if pre[v] == pre[w] { SamePre(next, s, v, w); assert false; }
      var root := FindRoot(F, v, next, s, pre[w]);
      sd := WalkUp(pre, parent, semidom, v, root, sd0, next, s, pre[w]);
      WalkCovers(next, s, semidom[..], w, v, sd0, sd);
    }
  }

  lemma DirectCandidate(next: Graph, s: Search, semi: seq<int>, w: int, v: int)
    requires |s.pre| == |next| == |semi| && 0 <= w < |next| && Edge(next, v, w) && s.pre[v] < s.pre[w]
    ensures Candidate(next, s, semi, w, s.pre[v])
  {
    assert Direct(next, s, w, v, s.pre[v]);
  }

  lemma WalkCovers(next: Graph, s: Search, semi: seq<int>, w: int, v: int, sd0: int, sd: int)
    requires |s.pre| == |next| == |semi| && 0 <= w < |next| && Edge(next, v, w) && s.pre[w] < s.pre[v]
    requires FromWalk(s, semi, v, s.pre[w], sd0, sd) && WalkedTo(s, semi, v, s.pre[w], s.pre[w], sd)
    requires sd0 == INT_MAX || Candidate(next, s, semi, w, sd0)
    ensures Covered(next, s, semi, w, v, sd) && (sd == INT_MAX || Candidate(next, s, semi, w, sd))
  {
    if sd != sd0 {
      var u :| OnWalk(s, v, s.pre[w], u) && u < |semi| && 0 <= semi[u] < |s.pre| && sd == s.pre[semi[u]];
      assert Indirect(next, s, semi, w, v, u, sd);
    }
  }

  /** The number of the semidominator of `w`, once all later blocks have theirs. */
  method SemidominatorOf(prev: Graph, pre: seq<int>, parent: seq<int>, F: array<int>, semidom: array<int>, w: nat,
                         ghost next: Graph, ghost s: Search)
    returns (sd: int)
    requires DfsTree(next, s) && s.pre == pre && s.parent == parent && |pre| == |next| == |parent| == semidom.Length <= INT_MAX
    requires F != semidom && IsPrev(next, prev) && 0 < w < |next| && Linked(next, s, F[..], pre[w]) && |s.order| == |next|
    requires forall x :: 0 <= x < semidom.Length ==> 0 <= semidom[x] < |next|
    requires SemiAbove(next, s, semidom[..], w)
    modifies F
    ensures Linked(next, s, F[..], pre[w])
    ensures 0 <= sd < |next| && IsSemidominator(next, s, w, s.order[sd])
  {
    hide DfsTree, IsSemidominator, Candidate, Linked, SemiAbove;
    sd := INT_MAX;
    for j := 0 to |prev[w]|
      invariant Linked(next, s, F[..], pre[w])
      invariant Scanned(next, prev, s, semidom[..], w, j, sd)
    {
      assert Edge(next, prev[w][j], w);
      ghost var was := sd;
      sd := ScanPredecessor(pre, parent, F, semidom, w, prev[w][j], sd, next, s);
      ScanStep(next, prev, s, semidom[..], w, j, was, sd);
    }
    ScanComplete(next, prev, s, semidom[..], w, sd);
    LeastCandidate(next, s, semidom[..], w, sd);
  }

  /** The reverse-preorder loop.  Every non-entry block gets its semidominator. */
  method ComputeSemidominators(next: Graph, prev: Graph, pre: seq<int>, order: seq<int>, parent: seq<int>, ghost s: Search)
    returns (semidom: array<int>)
    requires DfsTree(next, s) && s.pre == pre && s.order == order && s.parent == parent
    requires |pre| == |order| == |parent| == |next| <= INT_MAX && IsPrev(next, prev)
    ensures semidom.Length == |next| && (0 < |next| ==> semidom[0] == 0)
    ensures forall w :: 0 < w < |next| ==> IsSemidominator(next, s, w, semidom[w])
  {
    hide DfsTree, IsSemidominator, Linked;
    Sizes(next, s);
    OrderFacts(next, s);
    var n := |next|;
    var F := new int[n](x => x);
    semidom := new int[n](_ => 0);
    LinkedStart(next, s, F[..]);
    var i := n - 1;
    while i >= 1
      invariant 0 <= i <= n - 1 && Linked(next, s, F[..], i) && semidom.Length == n
      invariant semidom[0] == 0 && forall x :: 0 <= x < n ==> 0 <= semidom[x] < n
      invariant forall x :: 0 <= x < n && pre[x] > i ==> IsSemidominator(next, s, x, semidom[x])
      invariant fresh(F) && fresh(semidom) && F.Length == semidom.Length == n && F != semidom
      decreases i
    {
      var w := order[i];
      NotEntry(next, s, i);
      var sd := SemidominatorOf(prev, pre, parent, F, semidom, w, next, s);
      semidom[w] := order[sd];
      ghost var linked := F[..];
      F[w] := parent[w];
      assert F[..] == linked[w := parent[w]];
      LinkedStep(next, s, linked, i, w);
      OnlyOne(next, s, i, w);
      i := i - 1;
    }
    EntryOnly(next, s);
  }

  lemma OnlyOne(next: Graph, s: Search, i: int, w: int)
    requires DfsTree(next, s) && |s.pre| == |next| && 0 <= w < |next| && s.pre[w] == i
    ensures forall x :: 0 <= x < |next| && s.pre[x] > i - 1 && x != w ==> s.pre[x] > i
  {
    forall x | 0 <= x < |next| && s.pre[x] == i ensures x == w { SamePre(next, s, x, w); }
  }

  lemma EntryOnly(next: Graph, s: Search)
    requires DfsTree(next, s) && |s.pre| == |next|
    ensures forall x :: 0 < x < |next| ==> s.pre[x] > 0
  {
    forall x | 0 <= x < |next| && s.pre[x] == 0 ensures x == 0 { SamePre(next, s, x, 0); }
  }

  lemma OrderFacts(next: Graph, s: Search)
    requires DfsTree(next, s)
    ensures |s.order| == |s.pre| == |next| && forall k :: 0 <= k < |next| ==> 0 <= s.order[k] < |next| && s.pre[s.order[k]] == k
  {
  }

  lemma NotEntry(next: Graph, s: Search, i: int)
    requires DfsTree(next, s) && 1 <= i < |next|
    ensures |s.order| == |next| && 0 < s.order[i] < |next| && s.pre[s.order[i]] == i
  {
  }

  lemma LinkedStart(next: Graph, s: Search, F: seq<int>)
    requires |s.pre| == |next| == |F| && forall x :: 0 <= x < |F| ==> F[x] == x
    requires forall x :: 0 <= x < |next| ==> 0 <= s.pre[x] < |next|
    ensures Linked(next, s, F, |next| - 1)
  {
  }

  /** Linking the block numbered `i` to its parent. */
  lemma LinkedStep(next: Graph, s: Search, F: seq<int>, i: int, w: int)
    requires DfsTree(next, s) && |s.pre| == |next| == |s.parent| && Linked(next, s, F, i) && 0 < w < |next| && s.pre[w] == i
    ensures Linked(next, s, F[w := s.parent[w]], i - 1)
  {
    hide DfsTree;
    ParentFacts(next, s, w);
    var F' := F[w := s.parent[w]];
    forall x | 0 <= x < |next| && s.pre[x] > i - 1 && x != w ensures s.pre[x] > i {
      if s.pre[x] == i { SamePre(next, s, x, w); assert false; }
    }
    forall x, u | 0 <= x < |next| && s.pre[x] > i - 1 && Anc(s, u, x) && s.pre[u] <= i - 1 ensures Anc(s, u, F'[x]) {
      if x == w { Climb(next, s, u, w); } else { assert Anc(s, u, F[x]); }
    }
  }

  lemma ScanStep(next: Graph, prev: Graph, s: Search, semi: seq<int>, w: int, j: int, was: int, sd: int)
    requires |s.pre| == |next| == |semi| == |prev| && 0 <= w < |next| && 0 <= j < |prev[w]|
    requires Scanned(next, prev, s, semi, w, j, was) && sd <= was
    requires Covered(next, s, semi, w, prev[w][j], sd) && (sd == INT_MAX || Candidate(next, s, semi, w, sd))
    ensures Scanned(next, prev, s, semi, w, j + 1, sd)
  {
    hide Candidate, Covered;
    forall k | 0 <= k < j + 1 ensures Covered(next, s, semi, w, prev[w][k], sd) {
      if k < j { CoveredLower(next, s, semi, w, prev[w][k], was, sd); }
    }
  }
}
