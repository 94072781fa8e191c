/** The last phase of the dominator computation, as it is coded.  It always yields a tree, but the tree is not always the
    dominator tree: where the algorithm asks for the block of least semidominator on a tree path, the code takes the
    block of least preorder number, which is always the topmost one. */
module ImmediateDominators {
  import opened Wrappers
  import opened Cfg
  import opened DepthFirst
  import opened Semidominators
  import opened Dominance
  import DominatorTree

  /** Every non-entry block has its semidominator, and the entry has itself. */
  ghost predicate SemiOk(next: Graph, s: Search, semi: seq<int>) {
    && DfsTree(next, s) && |s.pre| == |s.parent| == |semi| == |next| && 0 < |next| && semi[0] == 0
    && forall w :: 0 < w < |next| ==> IsSemidominator(next, s, w, semi[w])
  }

  lemma SemiFacts(next: Graph, s: Search, semi: seq<int>, w: int)
    requires SemiOk(next, s, semi) && 0 < w < |next|
    ensures 0 <= semi[w] < |next| && Anc(s, semi[w], w) && semi[w] != w && s.pre[semi[w]] < s.pre[w]
    ensures 0 <= s.parent[w] < |next| && s.pre[s.parent[w]] < s.pre[w] && Anc(s, semi[w], s.parent[w])
  {
    SemidominatorAncestor(next, s, w, semi[w]);
    ParentFacts(next, s, w);
    Climb(next, s, semi[w], w);
  }

  // ---------- what the code computes ----------

  /** The child of `i` on the tree path from `i` down to `w`. */
  ghost function TopBelow(next: Graph, s: Search, i: int, w: int): (c: int)
    requires DfsTree(next, s) && |s.parent| == |s.pre| == |next| && Anc(s, i, w) && i != w
    ensures 0 < c < |next| && s.parent[c] == i && Anc(s, c, w) && s.pre[c] <= s.pre[w]
    decreases if 0 <= w < |s.pre| then s.pre[w] else 0
  {
    Climb(next, s, i, w);
    ParentFacts(next, s, w);
    AncRefl(next, s, w);
    if s.parent[w] == i then w
    else
      var c := TopBelow(next, s, i, s.parent[w]);
      AncTrans(next, s, c, s.parent[w], w);
      c
  }

  /** The relative dominator: zero for blocks whose semidominator is the entry. */
  ghost function RelativeDominator(next: Graph, s: Search, semi: seq<int>, w: int): (r: int)
    requires SemiOk(next, s, semi) && 0 < w < |next|
    ensures 0 <= r < |next| && s.pre[r] <= s.pre[w]
  {
    SemiFacts(next, s, semi, w);
    EntryFirst(next, s, w);
    if semi[w] == 0 then 0 else TopBelow(next, s, semi[w], w)
  }

  /** The immediate dominator that the code settles on. */
  ghost function Computed(next: Graph, s: Search, semi: seq<int>, w: int): (d: int)
    requires SemiOk(next, s, semi) && 0 <= w < |next|
    ensures 0 <= d < |next| && (w != 0 ==> s.pre[d] < s.pre[w])
    decreases s.pre[w]
  {
    if w == 0 then 0
    else
      SemiFacts(next, s, semi, w);
      EntryFirst(next, s, w);
      var r := RelativeDominator(next, s, semi, w);
      if r == w then semi[w] else SamePreContra(next, s, r, w); Computed(next, s, semi, r)
  }

  lemma SamePreContra(next: Graph, s: Search, r: int, w: int)
    requires DfsTree(next, s) && 0 <= r < |next| && 0 <= w < |next| && r != w && |s.pre| == |next|
    ensures s.pre[r] != s.pre[w]
  {
    if s.pre[r] == s.pre[w] { SamePre(next, s, r, w); }
  }

  // ---------- the code ----------

  /** `list` holds the non-entry blocks whose parent is `d`, each once. */
  ghost predicate ListOf(parents: seq<int>, list: seq<nat>, d: int) {
    (forall c: nat :: c in list <==> 0 < c < |parents| && parents[c] == d) && Distinct(list)
  }

  ghost predicate GroupedBy(parents: seq<int>, lists: seq<seq<nat>>) {
    |lists| == |parents| && forall d :: 0 <= d < |lists| ==> ListOf(parents, lists[d], d)
  }

  /** Walk from `w` up to its semidominator `i`, remembering the block of least preorder number. */
  method WalkToSemidominator(pre: seq<int>, parent: seq<int>, w: nat, i: nat, ghost next: Graph, ghost s: Search) returns (r: int)
    requires DfsTree(next, s) && s.pre == pre && s.parent == parent && |pre| == |parent| == |next| <= INT_MAX && Anc(s, i, w) && i != w
    ensures r == TopBelow(next, s, i, w)
  {
    hide DfsTree;
    Sizes(next, s);
    var walk, min := w as int, INT_MAX;
    r := 0;
    while walk != i
      invariant 0 <= walk < |next| && Anc(s, i, walk) && (walk == w ==> min == INT_MAX)
      invariant walk != w ==> 0 < r < |next| && parent[r] == walk && min == pre[r] && pre[walk] < min
      invariant walk != i ==> TopBelow(next, s, i, walk) == TopBelow(next, s, i, w)
      invariant walk == i ==> r == TopBelow(next, s, i, w)
      decreases pre[walk]
    {
      if pre[walk] < min {
        min := pre[walk];
        r := walk;
      } else {
        assert false;
      }
      Climb(next, s, i, walk);
      ParentFacts(next, s, walk);
      walk := parent[walk];
    }
  }

  /** Exactly the blocks in `done` have their relative dominator; the others have zero. */
  ghost predicate RelativeDone(next: Graph, s: Search, semi: seq<int>, reldom: seq<int>, done: set<int>) {
    && SemiOk(next, s, semi) && |reldom| == |next|
    && forall w :: 0 < w < |next| ==> reldom[w] == if w in done then RelativeDominator(next, s, semi, w) else 0
  }

  lemma DoneNext(next: Graph, s: Search, semi: seq<int>, reldom: seq<int>, done: set<int>, w: int)
    requires RelativeDone(next, s, semi, reldom, done) && 0 < w < |next|
    ensures RelativeDone(next, s, semi, reldom[w := RelativeDominator(next, s, semi, w)], done + {w})
  {
    hide RelativeDominator, SemiOk;
  }

  lemma DoneAll(next: Graph, s: Search, semi: seq<int>, reldom: seq<int>, done: set<int>)
    requires RelativeDone(next, s, semi, reldom, done) && |semi| == |next| && forall w :: 0 < w < |next| && semi[w] != 0 ==> w in done
    ensures |reldom| == |next| && forall w :: 0 < w < |next| ==> reldom[w] == RelativeDominator(next, s, semi, w)
  {
    hide RelativeDominator, SemiOk;
    forall w | 0 < w < |next| ensures reldom[w] == RelativeDominator(next, s, semi, w) { RelativeIs(next, s, semi, w); }
  }

  lemma InGroup(parents: seq<int>, lists: seq<seq<nat>>, i: nat)
    requires GroupedBy(parents, lists) && i < |lists|
    ensures forall l :: 0 <= l < |lists[i]| ==> 0 < lists[i][l] < |parents| && parents[lists[i][l]] == i
    ensures forall w: nat :: 0 < w < |parents| && parents[w] == i ==> w in lists[i]
  {
    assert ListOf(parents, lists[i], i);
    forall l | 0 <= l < |lists[i]| ensures 0 < lists[i][l] < |parents| && parents[lists[i][l]] == i { assert lists[i][l] in lists[i]; }
  }

  /** The relative dominators.  The list of the entry block is skipped. */
  method RelativeDominators(pre: seq<int>, parent: seq<int>, lists: seq<seq<nat>>, semi: seq<int>, ghost next: Graph, ghost s: Search)
    returns (reldom: seq<int>)
    requires SemiOk(next, s, semi) && s.pre == pre && s.parent == parent && |next| <= INT_MAX && GroupedBy(semi, lists)
    ensures |reldom| == |next| && forall w :: 0 < w < |next| ==> reldom[w] == RelativeDominator(next, s, semi, w)
  {
    SemiSizes(next, s, semi);
    var n := |pre|;
    reldom := seq(n, _ => 0);
    ghost var done: set<int> := {};
    assert |lists| == n && RelativeDone(next, s, semi, reldom, done);
    hide SemiOk, RelativeDominator, RelativeDone, GroupedBy, DfsTree;
    for i := 1 to n
      invariant RelativeDone(next, s, semi, reldom, done) && |reldom| == n
      invariant forall w :: 0 < w < n && 0 < semi[w] < i ==> w in done
    {
      InGroup(semi, lists, i);
      ghost var before := done;
      reldom, done := ProcessList(pre, parent, lists[i], i, semi, reldom, before, next, s);
      forall w: nat | 0 < w < n && semi[w] == i ensures w in done {
        assert w in lists[i];
        var k :| 0 <= k < |lists[i]| && lists[i][k] == w;
      }
    }
    RelativeRange(next, s, semi);
    DoneAll(next, s, semi, reldom, done);
  }

  /** The blocks whose semidominator is `i`. */
  method ProcessList(pre: seq<int>, parent: seq<int>, list: seq<nat>, i: nat, semi: seq<int>, reldom0: seq<int>,
                     ghost done0: set<int>, ghost next: Graph, ghost s: Search)
    returns (reldom: seq<int>, ghost done: set<int>)
    requires RelativeDone(next, s, semi, reldom0, done0) && s.pre == pre && s.parent == parent && |next| <= INT_MAX && 0 < i
    requires |semi| == |pre| == |parent| == |reldom0| == |next| && forall l :: 0 <= l < |list| ==>
               0 < list[l] < |next| && semi[list[l]] == i
    ensures RelativeDone(next, s, semi, reldom, done) && |reldom| == |next| && done0 <= done && forall k :: 0 <= k < |list| ==>
            list[k] in done
  {
    hide SemiOk, RelativeDominator, RelativeDone, DfsTree, TopBelow, Anc, IsSemidominator;
    DoneSemi(next, s, semi, reldom0, done0);
    reldom, done := reldom0, done0;
    for l := 0 to |list|
      invariant RelativeDone(next, s, semi, reldom, done) && |reldom| == |next| && done0 <= done
      invariant forall k :: 0 <= k < l ==> list[k] in done
    {
      var w := list[l];
      RelativeIs(next, s, semi, w);
      var r := WalkToSemidominator(pre, parent, w, i, next, s);
      DoneNext(next, s, semi, reldom, done, w);
      reldom := reldom[w := r];
      done := done + {w as int};
    }
  }

  lemma DoneSemi(next: Graph, s: Search, semi: seq<int>, reldom: seq<int>, done: set<int>)
    requires RelativeDone(next, s, semi, reldom, done)
    ensures SemiOk(next, s, semi)
  {
  }

  lemma RelativeRange(next: Graph, s: Search, semi: seq<int>)
    requires SemiOk(next, s, semi)
    ensures forall w :: 0 < w < |next| ==> 0 <= semi[w] < |next|
  {
    forall w | 0 < w < |next| ensures 0 <= semi[w] < |next| { SemiFacts(next, s, semi, w); }
  }

  lemma SemiSizes(next: Graph, s: Search, semi: seq<int>)
    requires SemiOk(next, s, semi)
    ensures DfsTree(next, s) && |s.pre| == |s.parent| == |semi| == |next| && 0 < |next| && semi[0] == 0
  {
  }

  lemma RelativeIs(next: Graph, s: Search, semi: seq<int>, w: int)
    requires SemiOk(next, s, semi) && 0 < w < |next|
    ensures |semi| == |next| == |s.pre| == |s.parent| && 0 <= semi[w] < |next| && Anc(s, semi[w], w) && semi[w] != w && DfsTree(next, s)
    ensures RelativeDominator(next, s, semi, w) == if semi[w] == 0 then 0 else TopBelow(next, s, semi[w], w)
  {
    SemiFacts(next, s, semi, w);
  }

  /** The final loop, in preorder: immediate dominators and the lists of what each block immediately dominates. */
  method ComputeImmediateDominators(order: seq<int>, semi: seq<int>, reldom: seq<int>, ghost next: Graph, ghost s: Search)
    returns (idom: seq<nat>, children: seq<seq<nat>>)
    requires SemiOk(next, s, semi) && s.order == order && |order| == |next|
    requires |reldom| == |next| && forall w :: 0 < w < |next| ==> reldom[w] == RelativeDominator(next, s, semi, w)
    ensures |idom| == |next| && forall w :: 0 <= w < |next| ==> idom[w] == Computed(next, s, semi, w)
    ensures GroupedBy(idom, children)
  {
    hide SemiOk, RelativeDominator, Computed, DfsTree, Grouping, GroupedBy, IsSemidominator, TopBelow, Anc, ComputedBelow;
    SemiSizes(next, s, semi);
    OrderFacts(next, s);
    var n := |order|;
    idom := seq(n, _ => 0);
    children := seq(n, _ => []);
    ComputedEntry(next, s, semi);
    for k := 1 to n
      invariant |idom| == |children| == n && ComputedBelow(next, s, semi, idom, k) && Grouping(s.pre, idom, children, k)
    {
      var i := order[k];
      NotEntry(next, s, k);
      ComputedNext(next, s, semi, idom, k, i, reldom[i]);
      var d := if i == reldom[i] then semi[i] else idom[reldom[i]];
      OnlyOne(next, s, k, i);
      GroupNext(s.pre, idom, children, k, i, d);
      idom := idom[i := d];
      children := children[d := children[d] + [i]];
    }
    ComputedAll(next, s, semi, idom);
    GroupAll(s.pre, idom, children);
  }

  /** The blocks numbered below `k` have their computed immediate dominator. */
  ghost predicate ComputedBelow(next: Graph, s: Search, semi: seq<int>, idom: seq<nat>, k: int) {
    SemiOk(next, s, semi) && |idom| == |next| && forall w :: 0 <= w < |next| && s.pre[w] < k ==> idom[w] == Computed(next, s, semi, w)
  }

  lemma ComputedNext(next: Graph, s: Search, semi: seq<int>, idom: seq<nat>, k: int, i: int, r: int)
    requires SemiOk(next, s, semi) && ComputedBelow(next, s, semi, idom, k) && 0 < i < |next| && s.pre[i] == k
             && r == RelativeDominator(next, s, semi, i)
    ensures |semi| == |idom| == |next| && 0 <= r < |next|
    ensures var d := if i == r then semi[i] else idom[r];
            0 <= d < |next| && ComputedBelow(next, s, semi, idom[i := d], k + 1)
  {
    hide SemiOk, Computed, RelativeDominator, DfsTree, Anc, IsSemidominator, TopBelow;
    SemiSizes(next, s, semi);
    ComputedIs(next, s, semi, i);
    OnlyOne(next, s, k, i);
    assert r != i ==> idom[r] == Computed(next, s, semi, r);
  }

  lemma ComputedAll(next: Graph, s: Search, semi: seq<int>, idom: seq<nat>)
    requires ComputedBelow(next, s, semi, idom, |next|) && DfsTree(next, s) && SemiOk(next, s, semi)
    ensures |idom| == |next| == |s.pre| && forall w :: 0 <= w < |next| ==> idom[w] == Computed(next, s, semi, w)
    ensures s.pre[0] == 0 && 0 < |next| && forall x :: 0 < x < |next| ==> 0 < s.pre[x] < |next|
  {
    hide SemiOk, Computed;
    Sizes(next, s);
    EntryFirst(next, s, 0);
    EntryOnly(next, s);
  }

  /** `c` is a block numbered below `k` whose parent is `d`. */
  ghost predicate Belongs(pre: seq<int>, idom: seq<nat>, k: int, d: int, c: int) {
    |pre| == |idom| && 0 <= c < |idom| && 1 <= pre[c] < k && idom[c] == d
  }

  /** The lists hold the blocks numbered `1..k`. */
  ghost predicate Grouping(pre: seq<int>, idom: seq<nat>, lists: seq<seq<nat>>, k: int) {
    |lists| == |idom| == |pre| && forall d :: 0 <= d < |lists| ==> ListBelow(pre, idom, k, lists[d], d)
  }

  ghost predicate ListBelow(pre: seq<int>, idom: seq<nat>, k: int, list: seq<nat>, d: int) {
    (forall c: nat :: c in list <==> Belongs(pre, idom, k, d, c)) && Distinct(list)
  }

  lemma GroupNext(pre: seq<int>, idom: seq<nat>, lists: seq<seq<nat>>, k: int, i: nat, d: nat)
    requires Grouping(pre, idom, lists, k) && i < |pre| && pre[i] == k >= 1 && d < |pre|
    requires forall x :: 0 <= x < |pre| && pre[x] > k - 1 && x != i ==> pre[x] > k
    ensures Grouping(pre, idom[i := d], lists[d := lists[d] + [i]], k + 1)
  {
    var idom', lists' := idom[i := d], lists[d := lists[d] + [i]];
    forall e | 0 <= e < |lists'| ensures ListBelow(pre, idom', k + 1, lists'[e], e) {
      assert ListBelow(pre, idom, k, lists[e], e);
      assert !Belongs(pre, idom, k, e, i);
    }
  }

  lemma GroupAll(pre: seq<int>, idom: seq<nat>, lists: seq<seq<nat>>)
    requires Grouping(pre, idom, lists, |pre|) && 0 < |pre| && pre[0] == 0 && forall x :: 0 < x < |pre| ==> 0 < pre[x] < |pre|
    ensures GroupedBy(idom, lists)
  {
    forall d | 0 <= d < |lists| ensures ListOf(idom, lists[d], d) { assert ListBelow(pre, idom, |pre|, lists[d], d); }
  }

  lemma ComputedEntry(next: Graph, s: Search, semi: seq<int>)
    requires SemiOk(next, s, semi)
    ensures ComputedBelow(next, s, semi, seq(|next|, _ => 0), 1)
    ensures Grouping(s.pre, seq(|next|, _ => 0), seq(|next|, _ => []), 1)
  {
    SemiSizes(next, s, semi);
    EntryFirst(next, s, 0);
    EntryOnly(next, s);
  }

  lemma ComputedIs(next: Graph, s: Search, semi: seq<int>, w: int)
    requires SemiOk(next, s, semi) && 0 < w < |next|
    ensures |s.pre| == |semi| == |next| && 0 <= semi[w] < |next| && 0 <= RelativeDominator(next, s, semi, w) < |next|
    ensures Computed(next, s, semi, w) == if RelativeDominator(next, s, semi, w) == w then semi[w]
            else Computed(next, s, semi, RelativeDominator(next, s, semi, w))
    ensures RelativeDominator(next, s, semi, w) != w ==> s.pre[RelativeDominator(next, s, semi, w)] < s.pre[w]
  {
    SemiFacts(next, s, semi, w);
    var r := RelativeDominator(next, s, semi, w);
    if r != w { SamePreContra(next, s, r, w); }
  }

  /** Collect the blocks by semidominator, in reverse preorder. */
  method GroupBySemidominator(order: seq<int>, semi: seq<int>, ghost next: Graph, ghost s: Search) returns (lists: seq<seq<nat>>)
    requires SemiOk(next, s, semi) && s.order == order && |order| == |next|
    ensures GroupedBy(semi, lists)
  {
    hide SemiOk, DfsTree, GroupedBy, GroupingFrom, IsSemidominator;
    SemiSizes(next, s, semi);
    RelativeRange(next, s, semi);
    lists := seq(|order|, _ => []);
    NoneGrouped(next, s, semi);
    var k := |order| - 1;
    while k >= 1
      invariant 0 <= k <= |order| - 1 && |lists| == |order| && GroupingFrom(s.pre, semi, lists, k + 1)
    {
      var w := order[k];
      NotEntry(next, s, k);
      OnlyOne(next, s, k, w);
      GroupBefore(s.pre, semi, lists, k, w);
      lists := lists[semi[w] := lists[semi[w]] + [w]];
      k := k - 1;
    }
    EntryFirst(next, s, 0);
    EntryOnly(next, s);
    AllGrouped(s.pre, semi, lists);
  }

  /** The lists hold the blocks numbered `k` or more. */
  ghost predicate GroupingFrom(pre: seq<int>, semi: seq<int>, lists: seq<seq<nat>>, k: int) {
    |lists| == |semi| == |pre| && forall d :: 0 <= d < |lists| ==> ListFrom(pre, semi, k, lists[d], d)
  }

  ghost predicate ListFrom(pre: seq<int>, semi: seq<int>, k: int, list: seq<nat>, d: int)
    requires |semi| == |pre|
  {
    (forall c: nat :: c in list <==> c < |pre| && k <= pre[c] && semi[c] == d) && Distinct(list)
  }

  lemma NoneGrouped(next: Graph, s: Search, semi: seq<int>)
    requires SemiOk(next, s, semi)
    ensures GroupingFrom(s.pre, semi, seq(|next|, _ => []), |next|)
  {
    SemiSizes(next, s, semi);
    Sizes(next, s);
  }

  lemma GroupBefore(pre: seq<int>, semi: seq<int>, lists: seq<seq<nat>>, k: int, w: nat)
    requires GroupingFrom(pre, semi, lists, k + 1) && w < |pre| && pre[w] == k && 0 <= semi[w] < |lists|
    requires forall x :: 0 <= x < |pre| && pre[x] > k - 1 && x != w ==> pre[x] > k
    ensures GroupingFrom(pre, semi, lists[semi[w] := lists[semi[w]] + [w]], k)
  {
    var lists' := lists[semi[w] := lists[semi[w]] + [w]];
    forall e | 0 <= e < |lists'| ensures ListFrom(pre, semi, k, lists'[e], e) {
      assert ListFrom(pre, semi, k + 1, lists[e], e);
      assert w !in lists[e];
    }
  }

  lemma AllGrouped(pre: seq<int>, semi: seq<int>, lists: seq<seq<nat>>)
    requires GroupingFrom(pre, semi, lists, 1) && 0 < |pre| && pre[0] == 0 && forall x :: 0 < x < |pre| ==> 0 < pre[x]
    ensures GroupedBy(semi, lists)
  {
    forall d | 0 <= d < |lists| ensures ListOf(semi, lists[d], d) { assert ListFrom(pre, semi, 1, lists[d], d); }
  }

  /** `compute_dominator_tree`: whatever the graph, the result is a tree, and it holds the blocks described by `Computed`. */
  method ComputeDominatorTree(next: Graph, prev: Graph) returns (t: DominatorTree.Tree, ghost s: Search, ghost semi: seq<int>)
    requires IsGraph(next) && AllReachable(next) && IsPrev(next, prev) && |next| <= INT_MAX
    ensures DominatorTree.IsTree(t) && SemiOk(next, s, semi) && |t.idom| == |next| && t.idom[0] == 0
    ensures forall w :: 0 <= w < |next| ==> t.idom[w] == Computed(next, s, semi, w)
  {
    hide DfsTree, AllReachable, IsPrev, IsSemidominator, Computed, GroupedBy, DominatorTree.IsTree, RelativeDominator;
    var pre, order, parent, post;
    pre, order, parent, post, s := DepthFirstSearch(next);
    Sizes(next, s);
    var semidom := ComputeSemidominators(next, prev, pre, order, parent, s);
    semi := semidom[..];
    assert SemiOk(next, s, semi);
    hide SemiOk;
    var lists := GroupBySemidominator(order, semidom[..], next, s);
    var reldom := RelativeDominators(pre, parent, lists, semidom[..], next, s);
    var idom, children := ComputeImmediateDominators(order, semidom[..], reldom, next, s);
    var rank := seq(|pre|, i requires 0 <= i < |pre| && 0 <= pre[i] => pre[i] as nat);
    ComputedIsTree(next, s, semi, idom, children, rank);
    ComputedEntryIs(next, s, semi);
    t := DominatorTree.Tree(idom, children, rank);
  }

  // ---------- what is true of the result ----------

  /** The result is always a tree, with the preorder number as rank. */
  lemma ComputedIsTree(next: Graph, s: Search, semi: seq<int>, idom: seq<nat>, children: seq<seq<nat>>, rank: seq<nat>)
    requires SemiOk(next, s, semi) && |idom| == |next| == |rank| && GroupedBy(idom, children) && forall w :: 0 <= w < |next| ==>
             idom[w] == Computed(next, s, semi, w)
    requires forall w :: 0 <= w < |next| ==> rank[w] == s.pre[w]
    ensures DominatorTree.IsTree(DominatorTree.Tree(idom, children, rank))
  {
    hide SemiOk, Computed, DfsTree;
    SemiSizes(next, s, semi);
    Sizes(next, s);
    forall d: nat, c: nat | d < |next| ensures c in children[d] <==> 0 < c < |next| && idom[c] == d { assert ListOf(idom, children[d], d); }
    forall d, i, j | 0 <= d < |next| && 0 <= i < j < |children[d]|
      ensures children[d][i] != children[d][j] { assert ListOf(idom, children[d], d); }
  }

  /** A proper dominator of a block is an ancestor of its semidominator. */
  lemma DominatorAboveSemi(next: Graph, s: Search, semi: seq<int>, d: int, w: int)
    requires SemiOk(next, s, semi) && 0 < w < |next| && Dominates(next, d, w) && d != w
    ensures |semi| == |next| && Anc(s, d, semi[w])
  {
    hide DfsTree, SemiOk, Dominates;
    SemiSizes(next, s, semi);
    SemiFacts(next, s, semi, w);
    DominatorIsAncestor(next, s, d, w);
    SamePreContra(next, s, d, w);
    var v := semi[w];
    var p := SemiPathOf(next, s, semi, w);
    SemiPathAvoids(next, s, semi, d, w, p);
  }

  lemma SemiPathOf(next: Graph, s: Search, semi: seq<int>, w: int) returns (p: seq<int>)
    requires SemiOk(next, s, semi) && 0 < w < |next|
    ensures SemiPath(next, s, w, p) && p[0] == semi[w]
  {
    hide DfsTree, IsPath;
    assert IsSemidominator(next, s, w, semi[w]);
    p :| SemiPath(next, s, w, p) && p[0] == semi[w];
  }

  /** The interior of a semidominator path is numbered after `w`, so it avoids the ancestors of `w`. */
  lemma SemiPathAvoids(next: Graph, s: Search, semi: seq<int>, d: int, w: int, p: seq<int>)
    requires SemiOk(next, s, semi) && 0 < w < |next| && Dominates(next, d, w) && s.pre[d] < s.pre[w]
    requires SemiPath(next, s, w, p) && p[0] == semi[w]
    ensures Anc(s, d, semi[w])
  {
    hide DfsTree, SemiOk, IsPath, IsSemidominator, Anc;
    SemiSizes(next, s, semi);
    PathNonempty(next, p);
    EntryAncestor(next, s, p[0]);
    var q := TreePath(next, s, 0, p[0]);
    PathNonempty(next, q);
    PathJoin(next, q, p);
    assert d in q + p[1..];
    NotLater(next, s, d, w, p);
    var k :| 0 <= k < |q| && q[k] == d;
    SuffixAncestor(next, s, q, k);
  }

  lemma NotLater(next: Graph, s: Search, d: int, w: int, p: seq<int>)
    requires |s.pre| == |next| && SemiPath(next, s, w, p) && 0 <= d < |next| && s.pre[d] < s.pre[w]
    ensures d !in p[1..]
  {
    hide Edge;
    assert forall i :: 1 <= i < |p| ==> s.pre[p[i]] >= s.pre[w];
  }

  /** The computed block is never too high: every proper dominator is an ancestor of it in the depth-first tree. */
  lemma {:induction false} DominatorsAbove(next: Graph, s: Search, semi: seq<int>, d: int, w: int)
    requires SemiOk(next, s, semi) && 0 < w < |next| && Dominates(next, d, w) && d != w
    ensures Anc(s, d, Computed(next, s, semi, w))
    decreases s.pre[w]
  {
    hide SemiOk, DfsTree, Computed, Dominates, RelativeDominator, TopBelow;
    SemiSizes(next, s, semi);
    RelativeIs(next, s, semi, w);
    ComputedIs(next, s, semi, w);
    DominatorAboveSemi(next, s, semi, d, w);
    var r := RelativeDominator(next, s, semi, w);
    if r != w {
      if semi[w] == 0 {
        ComputedEntryIs(next, s, semi);
      } else {
        ParentFacts(next, s, r);
        DominatesAncestor(next, s, d, r, w);
        DominatorsAbove(next, s, semi, d, r);
      }
    }
  }

  lemma ComputedEntryIs(next: Graph, s: Search, semi: seq<int>)
    requires SemiOk(next, s, semi)
    ensures Computed(next, s, semi, 0) == 0
  {
  }

  lemma {:induction false} ComputedAbove(next: Graph, s: Search, semi: seq<int>, w: int)
    requires SemiOk(next, s, semi) && 0 < w < |next|
    ensures Anc(s, Computed(next, s, semi, w), w) && Computed(next, s, semi, w) != w
    decreases s.pre[w]
  {
    hide SemiOk, DfsTree, Computed, RelativeDominator, TopBelow;
    SemiSizes(next, s, semi);
    RelativeIs(next, s, semi, w);
    ComputedIs(next, s, semi, w);
    var r := RelativeDominator(next, s, semi, w);
    if r != w {
      if semi[w] == 0 {
        ComputedEntryIs(next, s, semi);
      } else {
        ComputedAbove(next, s, semi, r);
        AncTrans(next, s, Computed(next, s, semi, r), r, w);
      }
    }
  }

  /** So the computed block is the immediate dominator if and only if it is a dominator at all. */
  lemma RightIffDominates(next: Graph, s: Search, semi: seq<int>, w: int)
    requires SemiOk(next, s, semi) && 0 < w < |next|
    ensures IsImmediateDominator(next, Computed(next, s, semi, w), w) <==> Dominates(next, Computed(next, s, semi, w), w)
  {
    hide SemiOk, DfsTree, Computed;
    SemiSizes(next, s, semi);
    var x := Computed(next, s, semi, w);
    ComputedAbove(next, s, semi, w);
    if Dominates(next, x, w) {
      forall e | e != w && Dominates(next, e, w) ensures Dominates(next, e, x) {
        DominatorsAbove(next, s, semi, e, w);
        if e == x { SelfDominates(next, x); } else { SamePreContra(next, s, e, x); DominatesAncestor(next, s, e, x, w); }
      }
    }
  }

  lemma SelfDominates(next: Graph, x: int)
    requires 0 <= x < |next|
    ensures Dominates(next, x, x)
  {
  }

  // ---------- when it is right ----------

  /** No block on the tree path below `d` down to `w` has a semidominator numbered before `d`. */
  ghost predicate ClearBelow(next: Graph, s: Search, semi: seq<int>, d: int, w: int)
    requires SemiOk(next, s, semi)
  {
    0 <= d < |next| && forall x :: Anc(s, d, x) && x != d && Anc(s, x, w) ==> 0 <= semi[x] < |next| && s.pre[d] <= s.pre[semi[x]]
  }

  /** A path around `d`: to the semidominator of `x`, on to `x`, and down the tree to `w`. */
  lemma PathAround(next: Graph, s: Search, semi: seq<int>, d: int, x: int, w: int) returns (p: seq<int>)
    requires SemiOk(next, s, semi) && 0 < x < |next| && 0 <= d < |next| && 0 <= semi[x] < |next|
    requires s.pre[semi[x]] < s.pre[d] < s.pre[x] && Anc(s, x, w)
    ensures IsPath(next, p) && p[0] == 0 && p[|p| - 1] == w && d !in p
  {
    hide DfsTree, SemiOk, IsPath;
    SemiSizes(next, s, semi);
    EntryAncestor(next, s, semi[x]);
    var up := TreePath(next, s, 0, semi[x]);
    var over := SemiPathOf(next, s, semi, x);
    var down := TreePath(next, s, x, w);
    PathNonempty(next, up);
    PathNonempty(next, over);
    PathNonempty(next, down);
    TreePathBelow(next, s, up, d);
    NotLater(next, s, d, x, over);
    assert forall k :: 0 <= k < |down| ==> Anc(s, x, down[k]);
    assert d !in down;
    PathJoin(next, up, over);
    PathJoin(next, up + over[1..], down);
    p := (up + over[1..]) + down[1..];
  }

  /** The blocks of a tree path are numbered no later than its end. */
  lemma TreePathBelow(next: Graph, s: Search, p: seq<int>, d: int)
    requires DfsTree(next, s) && |s.pre| == |next| && IsPath(next, p) && 0 <= d < |next| && s.pre[p[|p| - 1]] < s.pre[d]
    requires forall k :: 0 < k < |p| ==> 0 < p[k] < |s.parent| && p[k - 1] == s.parent[p[k]]
    ensures d !in p
  {
    hide DfsTree;
    forall k | 0 <= k < |p| ensures p[k] != d { SuffixAncestor(next, s, p, k); }
  }

  /** The last block of a path from the entry that is numbered before `d`. */
  lemma LastBefore(next: Graph, s: Search, p: seq<int>, d: int) returns (i: int)
    requires |s.pre| == |next| && IsPath(next, p) && 0 <= d < |next| && s.pre[p[0]] < s.pre[d] <= s.pre[p[|p| - 1]]
    ensures 0 <= i < |p| - 1 && s.pre[p[i]] < s.pre[d] && forall k :: i < k < |p| ==> s.pre[d] <= s.pre[p[k]]
  {
    i := |p| - 1;
    while s.pre[d] <= s.pre[p[i]]
      invariant 0 <= i < |p| && forall k :: i < k < |p| ==> s.pre[d] <= s.pre[p[k]]
      decreases i
    {
      i := i - 1;
    }
  }

  /** A path around `d` passes, before it reaches `w`, a block on the tree path below `d` whose semidominator is numbered before `d`. */
  lemma BlockedBelow(next: Graph, s: Search, semi: seq<int>, d: int, w: int, p: seq<int>)
    requires SemiOk(next, s, semi) && Anc(s, d, w) && d != w && IsPath(next, p) && p[0] == 0 && p[|p| - 1] == w && d !in p
    ensures !ClearBelow(next, s, semi, d, w)
  {
    hide DfsTree, SemiOk, ClearBelow;
    SemiSizes(next, s, semi);
    SamePreContra(next, s, d, w);
    EntryFirst(next, s, d);
    SamePreContra(next, s, 0, d);
    var i := LastBefore(next, s, p, d);
    PathSplit(next, p, i);
    var q := p[i..];
    var k := |q| - 1;
    assert q[k] == w;
    var j := FirstAncestor(next, s, q, k);
    PrefixIsSemiPath(next, s, q, j, k);
    var x := q[j];
    assert x == p[i + j] && x in p;
    SamePreContra(next, s, x, d);
    AncChain(next, s, d, x, w);
    EntryFirst(next, s, x);
    assert q[..j + 1][0] == p[i];
    SemiLeast(next, s, semi, x, q[..j + 1]);
    NotClear(next, s, semi, d, x, w);
  }

  lemma SemiLeast(next: Graph, s: Search, semi: seq<int>, x: int, p: seq<int>)
    requires SemiOk(next, s, semi) && 0 < x < |next| && SemiPath(next, s, x, p)
    ensures 0 <= semi[x] < |next| && s.pre[semi[x]] <= s.pre[p[0]]
  {
    hide DfsTree, SemiPath;
    assert IsSemidominator(next, s, x, semi[x]);
  }

  lemma NotClear(next: Graph, s: Search, semi: seq<int>, d: int, x: int, w: int)
    requires SemiOk(next, s, semi) && Anc(s, d, x) && x != d && Anc(s, x, w) && 0 <= semi[x] < |next| && s.pre[semi[x]] < s.pre[d]
    ensures !ClearBelow(next, s, semi, d, w)
  {
  }

  /** Dominance read off the semidominators: a proper tree ancestor dominates exactly when the tree path below it is clear. */
  lemma DominatesIffClear(next: Graph, s: Search, semi: seq<int>, d: int, w: int)
    requires SemiOk(next, s, semi) && Anc(s, d, w) && d != w
    ensures Dominates(next, d, w) <==> ClearBelow(next, s, semi, d, w)
  {
    hide DfsTree, SemiOk;
    SemiSizes(next, s, semi);
    if Dominates(next, d, w) {
      forall x | Anc(s, d, x) && x != d && Anc(s, x, w) ensures 0 <= semi[x] < |next| && s.pre[d] <= s.pre[semi[x]] {
        Climb(next, s, d, x);
        SemiFacts(next, s, semi, x);
        SamePreContra(next, s, d, x);
        if s.pre[semi[x]] < s.pre[d] {
          var p := PathAround(next, s, semi, d, x, w);
          assert false;
        }
      }
    }
    if ClearBelow(next, s, semi, d, w) {
      hide ClearBelow;
      forall p | IsPath(next, p) && p[0] == 0 && p[|p| - 1] == w ensures d in p {
        if d !in p {
          BlockedBelow(next, s, semi, d, w, p);
          assert false;
        }
      }
    }
  }

  /** The computed block is the immediate dominator if and only if no block on the tree path below it has a semidominator
      numbered before it. */
  lemma RightIffClear(next: Graph, s: Search, semi: seq<int>, w: int)
    requires SemiOk(next, s, semi) && 0 < w < |next|
    ensures IsImmediateDominator(next, Computed(next, s, semi, w), w) <==> ClearBelow(next, s, semi, Computed(next, s, semi, w), w)
  {
    hide SemiOk, Computed, Dominates, IsImmediateDominator, ClearBelow;
    ComputedAbove(next, s, semi, w);
    RightIffDominates(next, s, semi, w);
    DominatesIffClear(next, s, semi, Computed(next, s, semi, w), w);
  }

  /** Every computed block is right. */
  ghost predicate AllClear(next: Graph, s: Search, semi: seq<int>)
    requires SemiOk(next, s, semi)
  {
    forall w :: 0 < w < |next| ==> ClearBelow(next, s, semi, Computed(next, s, semi, w), w)
  }

  lemma DominatesTrans(next: Graph, a: int, b: int, c: int)
    requires Dominates(next, a, b) && Dominates(next, b, c)
    ensures Dominates(next, a, c)
  {
    forall p | IsPath(next, p) && p[0] == 0 && p[|p| - 1] == c ensures a in p {
      var i :| 0 <= i < |p| && p[i] == b;
      PathSplit(next, p, i);
      assert p[..i + 1][|p[..i + 1]| - 1] == b;
      assert a in p[..i + 1];
    }
  }

  /** `idom` gives every non-entry block its immediate dominator. */
  ghost predicate AllImmediate(next: Graph, t: DominatorTree.Tree) {
    |t.idom| == |next| && forall w :: 0 < w < |next| ==> IsImmediateDominator(next, t.idom[w], w)
  }

  lemma {:induction false} AboveDominates(next: Graph, t: DominatorTree.Tree, a: int, b: int)
    requires DominatorTree.IsTree(t) && AllImmediate(next, t) && DominatorTree.Above(t, a, b)
    ensures Dominates(next, a, b)
    decreases t.rank[b]
  {
    hide Dominates;
    if a == b {
      SelfDominates(next, a);
    } else {
      AboveDominates(next, t, a, t.idom[b]);
      DominatesTrans(next, a, t.idom[b], b);
    }
  }

  lemma {:induction false} DominatesAbove(next: Graph, t: DominatorTree.Tree, a: int, b: int)
    requires DominatorTree.IsTree(t) && AllImmediate(next, t) && Dominates(next, a, b)
    ensures DominatorTree.Above(t, a, b)
    decreases if 0 <= b < |t.rank| then t.rank[b] else 0
  {
    if a != b {
      if b == 0 { EntryDominator(next, a); assert false; }
      assert IsImmediateDominator(next, t.idom[b], b);
      hide Dominates;
      DominatesAbove(next, t, a, t.idom[b]);
    }
  }

  /** Only the entry dominates the entry. */
  lemma EntryDominator(next: Graph, a: int)
    requires Dominates(next, a, 0)
    ensures a == 0
  {
    var p := [0];
    assert IsPath(next, p) && p[|p| - 1] == 0;
  }

  /** The computed tree is the dominator tree if and only if every tree path below a computed block is clear. */
  lemma TreeRightIffClear(next: Graph, s: Search, semi: seq<int>, t: DominatorTree.Tree)
    requires SemiOk(next, s, semi) && DominatorTree.IsTree(t) && |t.idom| == |next|
    requires forall w :: 0 <= w < |next| ==> t.idom[w] == Computed(next, s, semi, w)
    ensures IsDominatorTree(next, t) <==> AllClear(next, s, semi)
  {
    hide SemiOk, Computed, Dominates, IsImmediateDominator, ClearBelow, DominatorTree.Above, DominatorTree.IsTree;
    if IsDominatorTree(next, t) {
      forall w | 0 < w < |next| ensures ClearBelow(next, s, semi, Computed(next, s, semi, w), w) {
        ParentAbove(t, w);
        RightIffDominates(next, s, semi, w);
        RightIffClear(next, s, semi, w);
      }
    }
    if AllClear(next, s, semi) {
      forall w | 0 < w < |next| ensures IsImmediateDominator(next, t.idom[w], w) { RightIffClear(next, s, semi, w); }
      forall a, b | 0 <= a < |next| && 0 <= b < |next| ensures DominatorTree.Above(t, a, b) <==> Dominates(next, a, b) {
        if DominatorTree.Above(t, a, b) { AboveDominates(next, t, a, b); }
        if Dominates(next, a, b) { DominatesAbove(next, t, a, b); }
      }
    }
  }

  lemma ParentAbove(t: DominatorTree.Tree, w: int)
    requires DominatorTree.IsTree(t) && 0 < w < |t.idom|
    ensures t.idom[w] < |t.idom| && DominatorTree.Above(t, t.idom[w], w)
  {
    DominatorTree.SelfAbove(t, t.idom[w]);
  }

  // ---------- where it goes wrong ----------

  /** Blocks 0 -> {1, 2}, 1 -> {3, 4}, 3 -> 2, 2 -> 4. */
  function WrongGraph(): Graph { [[1, 2], [3, 4], [4], [2], []] }

  /** Its depth-first search visits 0, 1, 3, 2, 4, one below the other. */
  function WrongSearch(): Search {
    Search([0, 1, 3, 2, 4], [0, 1, 3, 2, 4], [0, 0, 3, 1, 2], [4, 3, 1, 2, 0], [4, 4, 4, 4, 4])
  }

  function WrongSemi(): seq<int> { [0, 0, 0, 1, 1] }

  lemma WrongEdges(u: int, v: int)
    ensures Edge(WrongGraph(), u, v) <==> (u == 0 && v in {1, 2}) || (u == 1 && v in {3, 4}) || (u == 3 && v == 2) || (u == 2 && v == 4)
  {
    var g := WrongGraph();
    assert |g| == 5 && g[0] == [1, 2] && g[1] == [3, 4] && g[2] == [4] && g[3] == [2] && g[4] == [];
  }

  /** The search is one long branch. */
  lemma WrongBlock(x: int)
    requires 0 <= x < 5
    ensures var s := WrongSearch();
            && |s.pre| == |s.order| == |s.parent| == |s.post| == |s.last| == |WrongGraph()| == 5
            && 0 <= s.pre[x] < 5 && s.order[s.pre[x]] == x && s.last[x] == 4 && s.post[x] == 4 - s.pre[x]
            && 0 <= s.order[x] < 5 && s.pre[s.order[x]] == x
            && (x > 0 ==> 0 <= s.parent[x] < 5 && s.pre[s.parent[x]] == s.pre[x] - 1)
  {
  }

  /** A search that is one long branch of `n` blocks. */
  ghost predicate IsLine(next: Graph, s: Search, n: nat) {
    && |s.pre| == |s.order| == |s.parent| == |s.post| == |s.last| == |next| == n
    && (forall x :: 0 <= x < n ==> 0 <= s.pre[x] < n && s.order[s.pre[x]] == x && s.last[x] == n - 1 && s.post[x] == n - 1 - s.pre[x])
    && (forall k :: 0 <= k < n ==> 0 <= s.order[k] < n && s.pre[s.order[k]] == k)
    && (forall x :: 0 < x < n ==> 0 <= s.parent[x] < n && s.pre[s.parent[x]] == s.pre[x] - 1)
  }

  lemma LineIsTree(next: Graph, s: Search, n: nat)
    requires IsLine(next, s, n) && 0 < n && s.pre[0] == 0
    requires (forall x :: 0 < x < n ==> Edge(next, s.parent[x], x)) && forall x, z :: Edge(next, x, z) ==> 0 <= z < n
    ensures DfsTree(next, s)
  {
    hide Edge;
    forall v, w | v != w && Anc(s, v, w) ensures w != 0 && Anc(s, v, s.parent[w]) {
      assert s.order[s.pre[v]] == v && s.order[s.pre[w]] == w;
    }
    assert forall x, z :: Edge(next, x, z) ==> 0 <= x < n by { EdgeSources(next); }
  }

  lemma EdgeSources(next: Graph)
    ensures forall x, z :: Edge(next, x, z) ==> 0 <= x < |next|
  {
  }

  lemma WrongTree()
    ensures DfsTree(WrongGraph(), WrongSearch())
  {
    var g, s := WrongGraph(), WrongSearch();
    forall x | 0 < x < 5 ensures Edge(g, s.parent[x], x) { WrongEdges(s.parent[x], x); }
    forall x, z | Edge(g, x, z) ensures 0 <= z < 5 { WrongEdges(x, z); }
    assert s.pre[0] == 0;
    hide WrongSearch, WrongGraph, Edge, DfsTree;
    forall x | 0 <= x < 5 ensures 0 <= s.pre[x] < 5 && s.order[s.pre[x]] == x && s.last[x] == 4 && s.post[x] == 4 - s.pre[x]
      { WrongBlock(x); }
    forall k | 0 <= k < 5 ensures 0 <= s.order[k] < 5 && s.pre[s.order[k]] == k { WrongBlock(k); }
    forall x | 0 < x < 5 ensures 0 <= s.parent[x] < 5 && s.pre[s.parent[x]] == s.pre[x] - 1 { WrongBlock(x); }
    WrongBlock(0);
    assert IsLine(g, s, 5);
    LineIsTree(g, s, 5);
  }

  /** An edge into `w` from a lower-numbered block `v`, when no semidominator path starts lower. */
  lemma WrongSemiIs(w: int, v: int)
    requires (w == 1 && v == 0) || (w == 2 && v == 0) || (w == 3 && v == 1) || (w == 4 && v == 1)
    ensures |WrongSearch().pre| == |WrongGraph()| && IsSemidominator(WrongGraph(), WrongSearch(), w, v)
  {
    var g, s := WrongGraph(), WrongSearch();
    WrongBlock(w);
    WrongBlock(v);
    assert |g| == 5 && s.pre == [0, 1, 3, 2, 4];
    hide WrongSearch, WrongGraph, Edge;
    WrongEdges(v, w);
    assert SemiPath(g, s, w, [v, w]);
    forall p | SemiPath(g, s, w, p) ensures s.pre[v] <= s.pre[p[0]] {
      var n := |p|;
      WrongEdges(p[n - 2], p[n - 1]);
    }
  }

  lemma WrongParents()
    ensures var s := WrongSearch();
              |s.pre| == |s.parent| == |WrongGraph()| == 5 && s.parent[1] == 0 && s.parent[2] == 3 && s.parent[3] == 1 && s.parent[4] == 2
    ensures var semi := WrongSemi(); |semi| == 5 && semi[0] == 0 && semi[1] == 0 && semi[2] == 0 && semi[3] == 1 && semi[4] == 1
  {
  }

  lemma WrongSemiOk()
    ensures SemiOk(WrongGraph(), WrongSearch(), WrongSemi())
  {
    hide DfsTree, IsSemidominator, WrongGraph, WrongSearch, WrongSemi;
    WrongTree();
    WrongParents();
    forall w | 0 < w < 5 ensures IsSemidominator(WrongGraph(), WrongSearch(), w, WrongSemi()[w]) {
      WrongSemiIs(w, if w <= 2 then 0 else 1);
    }
  }

  lemma WrongComputed()
    ensures SemiOk(WrongGraph(), WrongSearch(), WrongSemi()) && |WrongGraph()| == 5
            && Computed(WrongGraph(), WrongSearch(), WrongSemi(), 4) == 1
  {
    hide WrongGraph, WrongSearch, WrongSemi, SemiOk, DfsTree, Computed, RelativeDominator, TopBelow, Anc;
    WrongSemiOk();
    WrongParents();
    var g, s, semi := WrongGraph(), WrongSearch(), WrongSemi();
    SemiSizes(g, s, semi);
    RelativeIs(g, s, semi, 4);
    RelativeIs(g, s, semi, 3);
    TopOfFour(g, s);
    ComputedIs(g, s, semi, 4);
    ComputedIs(g, s, semi, 3);
  }

  lemma WrongPath()
    ensures !Dominates(WrongGraph(), 1, 4)
  {
    WrongParents();
    hide WrongGraph, Edge;
    WrongEdges(0, 2);
    WrongEdges(2, 4);
    var p := [0, 2, 4];
    assert IsPath(WrongGraph(), p) && p[0] == 0 && p[|p| - 1] == 4 && 1 !in p;
  }

  /** The computed immediate dominator of block 4 is block 1, which the path 0, 2, 4 avoids. */
  lemma ComputedCanBeWrong()
    ensures SemiOk(WrongGraph(), WrongSearch(), WrongSemi()) && |WrongGraph()| == 5
    ensures Computed(WrongGraph(), WrongSearch(), WrongSemi(), 4) == 1 && !Dominates(WrongGraph(), 1, 4)
  {
    hide WrongGraph, WrongSearch, WrongSemi, SemiOk, Computed, Dominates;
    WrongComputed();
    WrongPath();
  }

  lemma TopOfFour(next: Graph, s: Search)
    requires DfsTree(next, s) && |s.parent| == |s.pre| == |next| == 5 && Anc(s, 1, 4) && Anc(s, 1, 3)
    requires s.parent[2] == 3 && s.parent[3] == 1 && s.parent[4] == 2
    ensures TopBelow(next, s, 1, 4) == 3 && TopBelow(next, s, 1, 3) == 3
  {
    hide DfsTree;
    Climb(next, s, 1, 4);
    Climb(next, s, 1, 2);
    assert TopBelow(next, s, 1, 3) == 3;
    assert TopBelow(next, s, 1, 2) == TopBelow(next, s, 1, 3);
  }
}
