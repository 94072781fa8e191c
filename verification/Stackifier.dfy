/** The "Stackifier": the order in which basic blocks are emitted, and the intervals of that order that wasm
    blocks and loops are requested for. */
module Stackifier {
  import opened DominatorTree
  import PointerSort
  import DepthFirst

  // ---------- what the walk must establish ----------

  /** `topo` places the blocks that satisfy `inside` in `lo..hi`, each subtree contiguously from its root up
      to `ends`, and of two siblings the one with the greater postorder number first; `inv` is its inverse. */
  ghost predicate Placed(t: Tree, post: seq<int>, topo: seq<int>, inv: seq<int>, ends: seq<int>, inside: int -> bool, lo: int, hi: int)
    requires IsTree(t) && |post| == |topo| == |inv| == |ends| == |t.idom| && 0 <= lo <= hi <= |inv|
  {
    && (forall x :: 0 <= x < |topo| && inside(x) ==> lo <= topo[x] < ends[x] <= hi && inv[topo[x]] == x)
    && (forall k :: lo <= k < hi ==> 0 <= inv[k] < |topo| && inside(inv[k]) && topo[inv[k]] == k)
    && (forall x, y :: 0 <= x < |topo| && 0 <= y < |topo| && inside(x) && inside(y) ==> (Above(t, x, y) <==> topo[x] <= topo[y] < ends[x]))
    && (forall c, e :: Siblings(t, c, e) && inside(c) && inside(e) && post[c] > post[e] ==> ends[c] <= topo[e])
  }

  ghost predicate Siblings(t: Tree, c: int, e: int) {
    0 < c < |t.idom| && 0 < e < |t.idom| && c != e && t.idom[c] == t.idom[e]
  }

  /** `x` lies below one of the first `i` blocks of `list`. */
  ghost predicate Under(t: Tree, list: seq<int>, i: int, x: int)
    requires IsTree(t) && 0 <= i <= |list|
  {
    exists k :: 0 <= k < i && Above(t, list[k], x)
  }

  /** Number of loop headers strictly above `x`. */
  ghost function LoopDepth(t: Tree, header: seq<bool>, x: int): nat
    requires IsTree(t) && |header| == |t.idom| && 0 <= x < |t.idom|
    decreases t.rank[x]
  {
    if x == 0 then 0 else LoopDepth(t, header, t.idom[x]) + if header[t.idom[x]] then 1 else 0
  }

  /** Every loop header of the segment requests one loop, up to the end of its subtree, at its own position. */
  ghost predicate LoopsRequested(header: seq<bool>, inv: seq<int>, ends: seq<int>, requests: seq<seq<int>>, lo: int, hi: int)
    requires |header| == |inv| == |ends| == |requests| && 0 <= lo <= hi <= |inv|
  {
    forall k :: lo <= k < hi && 0 <= inv[k] < |header| ==> requests[k] == if header[inv[k]] then [2 * ends[inv[k]]] else []
  }

  lemma PlacedKept(t: Tree, post: seq<int>, topo: seq<int>, inv: seq<int>, ends: seq<int>, topo': seq<int>, inv': seq<int>, ends': seq<int>,
                   inside: int -> bool, c: int, lo: int, hi: int)
    requires IsTree(t) && |post| == |topo| == |inv| == |ends| == |t.idom| && 0 <= lo <= hi <= |inv|
    requires Placed(t, post, topo, inv, ends, inside, lo, hi) && |topo'| == |inv'| == |ends'| == |t.idom|
    requires forall x :: 0 <= x < |topo| && !Above(t, c, x) ==> topo'[x] == topo[x] && ends'[x] == ends[x]
    requires forall k :: 0 <= k < hi ==> inv'[k] == inv[k]
    requires forall x :: inside(x) ==> !Above(t, c, x)
    ensures Placed(t, post, topo', inv', ends', inside, lo, hi)
  {
    hide Above, IsTree;
  }

  lemma PlacedJoin(t: Tree, post: seq<int>, topo: seq<int>, inv: seq<int>, ends: seq<int>,
                   f: int -> bool, g: int -> bool, h: int -> bool, lo: int, mid: int, hi: int)
    requires IsTree(t) && |post| == |topo| == |inv| == |ends| == |t.idom| && 0 <= lo <= mid <= hi <= |inv|
    requires Placed(t, post, topo, inv, ends, f, lo, mid) && Placed(t, post, topo, inv, ends, g, mid, hi)
    requires forall x :: h(x) <==> f(x) || g(x)
    requires forall x, y :: f(x) && g(y) ==> !Above(t, x, y) && !Above(t, y, x)
    requires forall c, e :: Siblings(t, c, e) && f(c) && g(e) ==> post[c] >= post[e]
    ensures Placed(t, post, topo, inv, ends, h, lo, hi)
  {
    hide Above, IsTree;
    forall c, e | Siblings(t, c, e) && h(c) && h(e) && post[c] > post[e] ensures ends[c] <= topo[e] {
      assert Siblings(t, e, c);
    }
  }

  // ---------- sorting children ----------

  /** Positions other than `j` of `a[..hi]` are in descending postorder with everything before them. */
  ghost predicate DescendingBut(post: seq<int>, a: seq<int>, j: int, hi: int)
    requires 0 <= hi <= |a| && forall k :: 0 <= k < |a| ==> 0 <= a[k] < |post|
  {
    forall k, l :: 0 <= k < l < hi && l != j ==> post[a[k]] >= post[a[l]]
  }

  lemma SwapDown(post: seq<int>, a: seq<int>, j: int, hi: int)
    requires 0 < j < hi <= |a| && forall k :: 0 <= k < |a| ==> 0 <= a[k] < |post|
    requires DescendingBut(post, a, j, hi) && post[a[j - 1]] < post[a[j]]
    ensures var b := a[j - 1 := a[j]][j := a[j - 1]];
            (forall k :: 0 <= k < |b| ==> 0 <= b[k] < |post|) && DescendingBut(post, b, j - 1, hi)
  {
  }

  /** The insertion sort of `topo_walk_idom`: children in descending postorder. */
  method SortChildren(list: seq<nat>, post: seq<int>) returns (sorted: seq<int>)
    requires forall k :: 0 <= k < |list| ==> list[k] < |post|
    ensures multiset(sorted) == multiset(list)
    ensures |sorted| == |list| && forall k :: 0 <= k < |sorted| ==> 0 <= sorted[k] < |post|
    ensures forall k, l :: 0 <= k < l < |sorted| ==> post[sorted[k]] >= post[sorted[l]]
  {
    var a := new int[|list|](k requires 0 <= k < |list| => list[k]);
    assert a[..] == list;
    var i := 1;
    while i < a.Length
      invariant 1 <= i && (a.Length > 0 ==> i <= a.Length)
      invariant forall k :: 0 <= k < a.Length ==> 0 <= a[k] < |post|
      invariant forall k, l :: 0 <= k < l < i && l < a.Length ==> post[a[k]] >= post[a[l]]
      invariant multiset(a[..]) == multiset(list)
    {
      InsertDown(a, i, post);
      i := i + 1;
    }
    sorted := a[..];
  }

  /** Swap elements `j - 1` and `j`, which are out of order. */
  method SwapStep(a: array<int>, j: nat, post: seq<int>, ghost hi: int)
    requires 0 < j < hi <= a.Length && (forall k :: 0 <= k < a.Length ==> 0 <= a[k] < |post|)
    requires DescendingBut(post, a[..], j, hi) && post[a[j - 1]] < post[a[j]]
    modifies a
    ensures forall k :: 0 <= k < a.Length ==> 0 <= a[k] < |post|
    ensures DescendingBut(post, a[..], j - 1, hi) && PointerSort.Permuted(old(a[..]), a[..], 0, a.Length)
  {
    hide DescendingBut, PointerSort.Permuted;
    ghost var b := a[..];
    SwapDown(post, b, j, hi);
    PointerSort.Swap(a, j - 1, j, 0, a.Length);
    assert a[..] == b[j - 1 := b[j]][j := b[j - 1]];
  }

  /** Move element `i` down to its place among the first `i`. */
  method InsertDown(a: array<int>, i: nat, post: seq<int>)
    requires 0 < i < a.Length && forall k :: 0 <= k < a.Length ==> 0 <= a[k] < |post|
    requires forall k, l :: 0 <= k < l < i ==> post[a[k]] >= post[a[l]]
    modifies a
    ensures forall k :: 0 <= k < a.Length ==> 0 <= a[k] < |post|
    ensures forall k, l :: 0 <= k < l < i + 1 ==> post[a[k]] >= post[a[l]]
    ensures multiset(a[..]) == multiset(old(a[..]))
  {
    hide DescendingBut, PointerSort.Permuted;
    ghost var a0 := a[..];
    var j := i;
    InsertStart(post, a0, i);
    PointerSort.PermutedSame(a0, 0, |a0|);
    while j > 0 && post[a[j - 1]] < post[a[j]]
      invariant 0 <= j <= i
      invariant forall k :: 0 <= k < a.Length ==> 0 <= a[k] < |post|
      invariant DescendingBut(post, a[..], j, i + 1)
      invariant PointerSort.Permuted(a0, a[..], 0, |a0|)
    {
      ghost var b := a[..];
      SwapStep(a, j, post, i + 1);
      PointerSort.PermutedTrans(a0, b, a[..], 0, |a0|);
      j := j - 1;
    }
    InsertEnd(post, a[..], j, i + 1);
    PermutedMultiset(a0, a[..]);
  }

  lemma PermutedMultiset(a: seq<int>, b: seq<int>)
    requires PointerSort.Permuted(a, b, 0, |a|)
    ensures multiset(a) == multiset(b)
  {
    assert a[0..|a|] == a && b[0..|a|] == b;
  }

  lemma InsertStart(post: seq<int>, a: seq<int>, i: int)
    requires 0 < i < |a| && forall k :: 0 <= k < |a| ==> 0 <= a[k] < |post|
    requires forall k, l :: 0 <= k < l < i ==> post[a[k]] >= post[a[l]]
    ensures DescendingBut(post, a, i, i + 1)
  {
  }

  lemma InsertEnd(post: seq<int>, a: seq<int>, j: int, hi: int)
    requires 0 <= j < hi <= |a| && forall k :: 0 <= k < |a| ==> 0 <= a[k] < |post|
    requires DescendingBut(post, a, j, hi) && (j == 0 || post[a[j - 1]] >= post[a[j]])
    ensures forall k, l :: 0 <= k < l < hi ==> post[a[k]] >= post[a[l]]
  {
    forall k, l | 0 <= k < l < hi ensures post[a[k]] >= post[a[l]] {
      if l == j && k < j - 1 { assert post[a[k]] >= post[a[j - 1]]; }
    }
  }

  // ---------- the walk ----------

  /** The arrays of a walk in progress. */
  datatype Order = Order(topo: seq<int>, inv: seq<int>, ends: seq<int>, depths: seq<int>, requests: seq<seq<int>>)

  ghost predicate Sized(t: Tree, o: Order) {
    |o.topo| == |o.inv| == |o.ends| == |o.depths| == |o.requests| == |t.idom|
  }

  /** The blocks that satisfy `inside` have been walked, and lie in `lo..hi`. */
  ghost predicate Walked(t: Tree, post: seq<int>, header: seq<bool>, o: Order, inside: int -> bool, lo: int, hi: int) {
    && IsTree(t) && Sized(t, o) && |post| == |header| == |t.idom| && 0 <= lo <= hi <= |t.idom|
    && Placed(t, post, o.topo, o.inv, o.ends, inside, lo, hi)
    && (forall x :: 0 <= x < |t.idom| && inside(x) ==> o.depths[x] == LoopDepth(t, header, x))
    && LoopsRequested(header, o.inv, o.ends, o.requests, lo, hi)
  }

  /** Only the subtree of `b` and the positions `lo..hi` have changed. */
  ghost predicate Changed(t: Tree, o: Order, o': Order, b: int, lo: int, hi: int)
    requires IsTree(t)
  {
    && Sized(t, o) && Sized(t, o')
    && (forall x :: 0 <= x < |t.idom| && !Above(t, b, x) ==>
         o'.topo[x] == o.topo[x] && o'.ends[x] == o.ends[x] && o'.depths[x] == o.depths[x])
    && (forall k :: 0 <= k < |t.idom| && !(lo <= k < hi) ==> o'.inv[k] == o.inv[k] && o'.requests[k] == o.requests[k])
  }

  ghost function Below(t: Tree, b: int): int -> bool {
    x => IsTree(t) && Above(t, b, x)
  }

  ghost function BelowFirst(t: Tree, list: seq<int>, i: int): int -> bool {
    x => IsTree(t) && 0 <= i <= |list| && Under(t, list, i, x)
  }

  ghost function Subtree(t: Tree, b: int): set<int>
    requires IsTree(t)
  {
    set x | 0 <= x < |t.idom| && Above(t, b, x)
  }

  ghost function SubtreeOfFirst(t: Tree, list: seq<int>, i: int): set<int>
    requires IsTree(t) && 0 <= i <= |list|
  {
    set x | 0 <= x < |t.idom| && Under(t, list, i, x)
  }

  /** `list` holds the children of `b`, in descending postorder. */
  ghost predicate ChildList(t: Tree, post: seq<int>, b: int, list: seq<int>) {
    && IsTree(t) && 0 <= b < |t.idom| && |post| == |t.idom|
    && (forall c :: c in list <==> 0 < c < |t.idom| && t.idom[c] == b)
    && (forall k, l :: 0 <= k < l < |list| ==> list[k] != list[l])
    && (forall k, l :: 0 <= k < l < |list| && 0 <= list[k] < |post| && 0 <= list[l] < |post| ==> post[list[k]] >= post[list[l]])
  }

  lemma SortedChildList(t: Tree, post: seq<int>, b: int, sorted: seq<int>)
    requires IsTree(t) && 0 <= b < |t.idom| && |post| == |t.idom| && multiset(sorted) == multiset(t.children[b])
    requires forall k :: 0 <= k < |sorted| ==> 0 <= sorted[k] < |post|
    requires forall k, l :: 0 <= k < l < |sorted| ==> post[sorted[k]] >= post[sorted[l]]
    ensures ChildList(t, post, b, sorted)
  {
    var list: seq<int> := t.children[b];
    assert multiset(list) == multiset(sorted);
    forall c: int ensures c in sorted <==> 0 < c < |t.idom| && t.idom[c] == b {
      assert c in sorted <==> c in multiset(sorted);
      assert c in multiset(list) <==> c in list;
      InChildren(t, b, c);
    }
    forall k, l | 0 <= k < l < |sorted| ensures sorted[k] != sorted[l] {
      if sorted[k] == sorted[l] {
        PointerSort.CountTwice(sorted, k, l);
        PointerSort.CountOnce(list, sorted[k]);
      }
    }
  }

  lemma InChildren(t: Tree, b: int, c: int)
    requires IsTree(t) && 0 <= b < |t.idom|
    ensures var list: seq<int> := t.children[b];
            c in list <==> 0 < c < |t.idom| && t.idom[c] == b
  {
    var list: seq<int> := t.children[b];
    if c in list {
      var k :| 0 <= k < |list| && list[k] == c;
      var child: nat := t.children[b][k];
      ChildIff(t, b, child);
    }
    if 0 < c < |t.idom| && t.idom[c] == b {
      var child: nat := c;
      ChildIff(t, b, child);
      var k :| 0 <= k < |t.children[b]| && t.children[b][k] == child;
      assert list[k] == c;
    }
  }

  lemma ChildIff(t: Tree, b: int, child: nat)
    requires IsTree(t) && 0 <= b < |t.idom|
    ensures child in t.children[b] <==> 0 < child < |t.idom| && t.idom[child] == b
  {
  }

  lemma ListChild(t: Tree, post: seq<int>, b: int, list: seq<int>, k: int)
    requires ChildList(t, post, b, list) && 0 <= k < |list|
    ensures 0 < list[k] < |t.idom| && list[k] in t.children[b] && |t.children| == |t.idom| && t.rank[b] < t.rank[list[k]]
    ensures Above(t, list[k], list[k]) && Above(t, b, list[k]) && list[k] != b
  {
    assert list[k] in list;
    ChildBelow(t, b, list[k]);
  }

  lemma ListDisjoint(t: Tree, post: seq<int>, b: int, list: seq<int>, k: int, l: int, x: int)
    requires ChildList(t, post, b, list) && 0 <= k < |list| && 0 <= l < |list| && Above(t, list[k], x) && Above(t, list[l], x)
    ensures k == l
  {
    hide Above;
    ListChild(t, post, b, list, k);
    ListChild(t, post, b, list, l);
    SiblingsDisjoint(t, b, list[k], list[l], x);
  }

  /** Counting the blocks below the first `i + 1` children. */
  lemma CountNext(t: Tree, post: seq<int>, b: int, list: seq<int>, i: int)
    requires ChildList(t, post, b, list) && 0 <= i < |list|
    ensures |SubtreeOfFirst(t, list, i + 1)| == |SubtreeOfFirst(t, list, i)| + |Subtree(t, list[i])|
    ensures 1 + |SubtreeOfFirst(t, list, i + 1)| <= |Subtree(t, b)|
  {
    hide Above, IsTree;
    SubtreesBelow(t, post, b, list, i);
    var f, c, g := SubtreeOfFirst(t, list, i), Subtree(t, list[i]), SubtreeOfFirst(t, list, i + 1);
    forall x | x in g ensures x in f || x in c {
      var k :| 0 <= k < i + 1 && Above(t, list[k], x);
    }
    assert g == f + c;
    assert f !! c by {
      forall x | x in f && x in c ensures false {
        var k :| 0 <= k < i && Above(t, list[k], x);
        ListDisjoint(t, post, b, list, k, i, x);
      }
    }
    CardLe(g + {b}, Subtree(t, b));
  }

  lemma SubtreesBelow(t: Tree, post: seq<int>, b: int, list: seq<int>, i: int)
    requires ChildList(t, post, b, list) && 0 <= i < |list|
    ensures b !in SubtreeOfFirst(t, list, i + 1) && SubtreeOfFirst(t, list, i + 1) + {b} <= Subtree(t, b)
  {
    hide Above, IsTree;
    forall x | x in SubtreeOfFirst(t, list, i + 1) ensures x in Subtree(t, b) && x != b {
      var k :| 0 <= k < i + 1 && Above(t, list[k], x);
      UnderChild(t, post, b, list, k, x);
    }
    SelfAbove(t, b);
    assert b in Subtree(t, b) && b !in SubtreeOfFirst(t, list, i + 1);
  }

  lemma CardLe(a: set<int>, b: set<int>)
    requires a <= b
    ensures |a| <= |b|
  {
    assert b == a + (b - a);
  }

  lemma UnderChild(t: Tree, post: seq<int>, b: int, list: seq<int>, k: int, x: int)
    requires ChildList(t, post, b, list) && 0 <= k < |list| && Above(t, list[k], x)
    ensures Above(t, b, x) && x != b && 0 <= x < |t.idom|
  {
    ListChild(t, post, b, list, k);
    NotAboveParent(t, b, list[k]);
    AboveTrans(t, b, list[k], x);
  }

  /** All children together make up the subtree without its root. */
  lemma CountAll(t: Tree, post: seq<int>, b: int, list: seq<int>)
    requires ChildList(t, post, b, list)
    ensures 1 + |SubtreeOfFirst(t, list, |list|)| == |Subtree(t, b)|
    ensures forall x :: Above(t, b, x) <==> x == b || Under(t, list, |list|, x)
  {
    hide Above;
    SelfAbove(t, b);
    forall x ensures Above(t, b, x) <==> x == b || Under(t, list, |list|, x) {
      if Above(t, b, x) && x != b {
        var c := ChildAbove(t, b, x);
        InChildren(t, b, c);
        var k :| 0 <= k < |list| && list[k] == c;
        assert Above(t, list[k], x);
      }
      if Under(t, list, |list|, x) {
        var k :| 0 <= k < |list| && Above(t, list[k], x);
        UnderChild(t, post, b, list, k, x);
      }
    }
    var g := SubtreeOfFirst(t, list, |list|);
    assert b !in g by {
      if b in g {
        var k :| 0 <= k < |list| && Above(t, list[k], b);
        UnderChild(t, post, b, list, k, b);
      }
    }
    forall x | x in Subtree(t, b) ensures x in g + {b} {}
    forall x | x in g ensures x in Subtree(t, b) {}
    assert Subtree(t, b) == g + {b};
  }

  lemma CountNone(t: Tree, list: seq<int>)
    requires IsTree(t)
    ensures |SubtreeOfFirst(t, list, 0)| == 0
  {
    assert SubtreeOfFirst(t, list, 0) == {};
  }

  /** Entering block `b`: it takes position `lo`. */
  lemma WalkEntered(t: Tree, post: seq<int>, header: seq<bool>, list: seq<int>, o0: Order, o: Order, b: int, lo: int)
    requires IsTree(t) && Sized(t, o0) && 0 <= b < |t.idom| == |post| == |header| && 0 <= lo < |t.idom|
    requires o == o0.(topo := o0.topo[b := lo], inv := o0.inv[lo := b], depths := o.depths)
    requires |o.depths| == |t.idom| && forall x :: 0 <= x < |t.idom| && x != b ==> o.depths[x] == o0.depths[x]
    ensures Walked(t, post, header, o, BelowFirst(t, list, 0), lo + 1, lo + 1)
    ensures Changed(t, o0, o, b, lo, lo + 1)
  {
    SelfAbove(t, b);
    hide Above;
  }

  /** After walking child `i`, the first `i + 1` children are placed. */
  lemma WalkAdvanced(t: Tree, post: seq<int>, header: seq<bool>, list: seq<int>, o0: Order, o1: Order, o: Order, b: int, i: int,
                     lo: int, mid: int, hi: int)
    requires ChildList(t, post, b, list) && 0 <= i < |list| && lo < mid <= hi
    requires Walked(t, post, header, o1, BelowFirst(t, list, i), lo + 1, mid) && Changed(t, o0, o1, b, lo, mid)
    requires Walked(t, post, header, o, Below(t, list[i]), mid, hi) && Changed(t, o1, o, list[i], mid, hi)
    ensures Walked(t, post, header, o, BelowFirst(t, list, i + 1), lo + 1, hi) && Changed(t, o0, o, b, lo, hi)
    ensures o.topo[b] == o1.topo[b] && o.depths[b] == o1.depths[b]
            && (0 <= lo ==> o.inv[lo] == o1.inv[lo] && o.requests[lo] == o1.requests[lo])
  {
    hide Above, Placed, LoopsRequested, IsTree, LoopDepth;
    var f, g, h, c := BelowFirst(t, list, i), Below(t, list[i]), BelowFirst(t, list, i + 1), list[i];
    ListChild(t, post, b, list, i);
    assert !Above(t, c, b) by { NotAboveParent(t, b, c); }
    FirstOutside(t, post, b, list, i);
    GroupsApart(t, post, b, list, i);
    hide BelowFirst, Below;
    PlacedKept(t, post, o1.topo, o1.inv, o1.ends, o.topo, o.inv, o.ends, f, c, lo + 1, mid);
    PlacedJoin(t, post, o.topo, o.inv, o.ends, f, g, h, lo + 1, mid, hi);
    LoopsKept(t, post, header, o1, o, f, c, lo + 1, mid);
    LoopsJoin(header, o.inv, o.ends, o.requests, lo + 1, mid, hi);
  }

  lemma FirstOutside(t: Tree, post: seq<int>, b: int, list: seq<int>, i: int)
    requires ChildList(t, post, b, list) && 0 <= i < |list|
    ensures forall x :: BelowFirst(t, list, i)(x) ==> !Above(t, list[i], x) && Above(t, b, x)
    ensures forall x :: !Above(t, b, x) ==> !Above(t, list[i], x)
  {
    hide Above, IsTree;
    var c := list[i];
    forall x | BelowFirst(t, list, i)(x) ensures !Above(t, c, x) && Above(t, b, x) {
      var k :| 0 <= k < i && Above(t, list[k], x);
      UnderChild(t, post, b, list, k, x);
      if Above(t, c, x) { ListDisjoint(t, post, b, list, k, i, x); assert false; }
    }
    forall x | Above(t, c, x) ensures Above(t, b, x) { UnderChild(t, post, b, list, i, x); }
  }

  lemma GroupsApart(t: Tree, post: seq<int>, b: int, list: seq<int>, i: int)
    requires ChildList(t, post, b, list) && 0 <= i < |list|
    ensures forall x :: BelowFirst(t, list, i + 1)(x) <==> BelowFirst(t, list, i)(x) || Below(t, list[i])(x)
    ensures forall x, y :: BelowFirst(t, list, i)(x) && Below(t, list[i])(y) ==> !Above(t, x, y) && !Above(t, y, x)
    ensures forall c, e :: Siblings(t, c, e) && BelowFirst(t, list, i)(c) && Below(t, list[i])(e) ==> post[c] >= post[e]
  {
    hide Above, IsTree;
    forall x, y | BelowFirst(t, list, i)(x) && Below(t, list[i])(y) ensures !Above(t, x, y) && !Above(t, y, x) {
      var k :| 0 <= k < i && Above(t, list[k], x);
      if Above(t, x, y) { AboveTrans(t, list[k], x, y); ListDisjoint(t, post, b, list, k, i, y); assert false; }
      if Above(t, y, x) { AboveTrans(t, list[i], y, x); ListDisjoint(t, post, b, list, k, i, x); assert false; }
    }
    forall c, e | Siblings(t, c, e) && BelowFirst(t, list, i)(c) && Below(t, list[i])(e) ensures post[c] >= post[e] {
      var k :| 0 <= k < i && Above(t, list[k], c);
      SiblingsInGroups(t, post, b, list, k, i, c, e);
    }
  }

  /** Siblings below different children of `b` are those children themselves. */
  lemma SiblingsInGroups(t: Tree, post: seq<int>, b: int, list: seq<int>, k: int, i: int, c: int, e: int)
    requires ChildList(t, post, b, list) && 0 <= k < i < |list| && Siblings(t, c, e) && Above(t, list[k], c) && Above(t, list[i], e)
    ensures c == list[k] && e == list[i]
  {
    ListChild(t, post, b, list, k);
    ListChild(t, post, b, list, i);
    var d := t.idom[c];
    if c != list[k] {
      assert Above(t, list[k], d);
      if e != list[i] {
        ListDisjoint(t, post, b, list, k, i, d);
      } else {
        NotAboveParent(t, b, list[k]);
      }
    } else if e != list[i] {
      assert Above(t, list[i], d);
      NotAboveParent(t, b, list[i]);
    }
  }

  lemma LoopsKept(t: Tree, post: seq<int>, header: seq<bool>, o1: Order, o: Order, f: int -> bool, c: int, lo: int, mid: int)
    requires IsTree(t) && Sized(t, o1) && Sized(t, o) && |post| == |header| == |t.idom| && 0 <= lo <= mid <= |t.idom|
    requires Placed(t, post, o1.topo, o1.inv, o1.ends, f, lo, mid) && LoopsRequested(header, o1.inv, o1.ends, o1.requests, lo, mid)
    requires forall x :: 0 <= x < |t.idom| && !Above(t, c, x) ==> o.ends[x] == o1.ends[x]
    requires forall k :: 0 <= k < mid ==> o.inv[k] == o1.inv[k] && o.requests[k] == o1.requests[k]
    requires forall x :: f(x) ==> !Above(t, c, x)
    ensures LoopsRequested(header, o.inv, o.ends, o.requests, lo, mid)
  {
    hide Above, IsTree;
  }

  lemma LoopsJoin(header: seq<bool>, inv: seq<int>, ends: seq<int>, requests: seq<seq<int>>, lo: int, mid: int, hi: int)
    requires |header| == |inv| == |ends| == |requests| && 0 <= lo <= mid <= hi <= |inv|
    requires LoopsRequested(header, inv, ends, requests, lo, mid) && LoopsRequested(header, inv, ends, requests, mid, hi)
    ensures LoopsRequested(header, inv, ends, requests, lo, hi)
  {
  }

  /** Leaving block `b`: its subtree occupies `lo..hi`. */
  lemma WalkLeft(t: Tree, post: seq<int>, header: seq<bool>, list: seq<int>, o0: Order, o1: Order, o: Order, b: int, lo: int, hi: int)
    requires ChildList(t, post, b, list) && 0 <= lo < hi && |header| == |t.idom|
    requires Walked(t, post, header, o1, BelowFirst(t, list, |list|), lo + 1, hi) && Changed(t, o0, o1, b, lo, hi)
    requires o1.topo[b] == lo && o1.inv[lo] == b && o1.requests[lo] == [] && o1.depths[b] == LoopDepth(t, header, b)
    requires o == o1.(ends := o1.ends[b := hi], requests := if header[b] then o1.requests[lo := [2 * hi]] else o1.requests)
    ensures Walked(t, post, header, o, Below(t, b), lo, hi) && Changed(t, o0, o, b, lo, hi)
  {
    SelfAbove(t, b);
    hide Above, IsTree, LoopDepth, Placed;
    SubtreeIs(t, post, b, list);
    LeftPlaced(t, post, list, o1.topo, o1.inv, o1.ends, b, lo, hi);
    LeftLoops(t, post, header, list, o1, o, b, lo, hi);
  }

  /** The subtree of `b` is `b` and what lies below its children. */
  lemma SubtreeIs(t: Tree, post: seq<int>, b: int, list: seq<int>)
    requires ChildList(t, post, b, list)
    ensures forall x :: Below(t, b)(x) <==> x == b || BelowFirst(t, list, |list|)(x)
    ensures forall x :: BelowFirst(t, list, |list|)(x) ==> x != b && Above(t, b, x) && !Above(t, x, b)
    ensures Above(t, b, b)
  {
    SelfAbove(t, b);
    CountAll(t, post, b, list);
    hide Above, IsTree;
    forall x | BelowFirst(t, list, |list|)(x) ensures x != b && Above(t, b, x) && !Above(t, x, b) {
      var k :| 0 <= k < |list| && Above(t, list[k], x);
      UnderChild(t, post, b, list, k, x);
      if Above(t, x, b) { AboveAntisym(t, x, b); assert false; }
    }
  }

  lemma LeftLoops(t: Tree, post: seq<int>, header: seq<bool>, list: seq<int>, o1: Order, o: Order, b: int, lo: int, hi: int)
    requires IsTree(t) && Sized(t, o1) && Sized(t, o) && |post| == |header| == |t.idom| && 0 <= lo < hi <= |t.idom| && 0 <= b < |t.idom|
    requires Placed(t, post, o1.topo, o1.inv, o1.ends, BelowFirst(t, list, |list|), lo + 1, hi)
    requires LoopsRequested(header, o1.inv, o1.ends, o1.requests, lo + 1, hi)
    requires o1.topo[b] == lo && o1.inv[lo] == b && o1.requests[lo] == []
    requires o == o1.(ends := o1.ends[b := hi], requests := if header[b] then o1.requests[lo := [2 * hi]] else o1.requests)
    ensures LoopsRequested(header, o.inv, o.ends, o.requests, lo, hi)
  {
    hide Above, IsTree;
    forall k | lo <= k < hi && 0 <= o.inv[k] < |header|
      ensures o.requests[k] == if header[o.inv[k]] then [2 * o.ends[o.inv[k]]] else []
    {
      if k > lo { assert o1.topo[o1.inv[k]] == k; }
    }
  }

  lemma LeftPlaced(t: Tree, post: seq<int>, list: seq<int>, topo: seq<int>, inv: seq<int>, ends: seq<int>, b: int, lo: int, hi: int)
    requires ChildList(t, post, b, list) && |topo| == |inv| == |ends| == |t.idom| && 0 <= lo < hi <= |inv|
    requires Placed(t, post, topo, inv, ends, BelowFirst(t, list, |list|), lo + 1, hi) && topo[b] == lo && inv[lo] == b
    ensures Placed(t, post, topo, inv, ends[b := hi], Below(t, b), lo, hi)
  {
    SubtreeIs(t, post, b, list);
    hide Above, IsTree, BelowFirst, Below, ChildList;
    CloseOver(t, post, topo, inv, ends, BelowFirst(t, list, |list|), Below(t, b), b, lo, hi);
  }

  /** Adding a block above a placed family. */
  lemma CloseOver(t: Tree, post: seq<int>, topo: seq<int>, inv: seq<int>, ends: seq<int>, f: int -> bool, g: int -> bool, b: int,
                  lo: int, hi: int)
    requires IsTree(t) && |post| == |topo| == |inv| == |ends| == |t.idom| && 0 <= lo < hi <= |inv| && 0 <= b < |t.idom|
    requires Placed(t, post, topo, inv, ends, f, lo + 1, hi) && topo[b] == lo && inv[lo] == b
    requires forall x :: g(x) <==> x == b || f(x)
    requires forall x :: f(x) ==> x != b && Above(t, b, x) && !Above(t, x, b)
    requires Above(t, b, b)
    ensures Placed(t, post, topo, inv, ends[b := hi], g, lo, hi)
  {
    hide Above, IsTree;
    forall c, e | Siblings(t, c, e) && g(c) && g(e) && post[c] > post[e] ensures ends[b := hi][c] <= topo[e] {
      SiblingsNotRoot(t, b, c, e);
    }
  }

  lemma SiblingsNotRoot(t: Tree, b: int, c: int, e: int)
    requires IsTree(t) && Siblings(t, c, e) && Above(t, b, c) && Above(t, b, e)
    ensures c != b && e != b
  {
    if c == b { AboveRank(t, b, t.idom[e]); }
    if e == b { AboveRank(t, b, t.idom[c]); }
  }

  class TopoWalk {
    const t: Tree
    const post: seq<int>     // postorder numbers of a depth-first search of the control-flow graph
    const header: seq<bool>  // loop headers
    const blockToTopo: array<int>
    const topoToBlock: array<int>
    const loopDepths: array<int>
    const requests: array<seq<int>> // encoded wasm blocks and loops to open at each position
    ghost var ends: seq<int>
    var topoI: nat
    var loopDepth: nat

    ghost predicate Valid()
      reads this
    {
      && IsTree(t) && |post| == |header| == |t.idom| == |ends|
      && blockToTopo.Length == topoToBlock.Length == loopDepths.Length == requests.Length == |t.idom|
      && blockToTopo != topoToBlock && blockToTopo != loopDepths && topoToBlock != loopDepths
    }

    ghost function S(): Order
      reads this, blockToTopo, topoToBlock, loopDepths, requests
    {
      Order(blockToTopo[..], topoToBlock[..], ends, loopDepths[..], requests[..])
    }

    constructor (t: Tree, post: seq<int>, header: seq<bool>)
      requires IsTree(t) && |post| == |header| == |t.idom|
      ensures Valid() && this.t == t && this.post == post && this.header == header && topoI == 0 && loopDepth == 0
      ensures fresh(blockToTopo) && fresh(topoToBlock) && fresh(loopDepths) && fresh(requests)
      ensures forall k :: 0 <= k < requests.Length ==> requests[k] == []
    {
      this.t, this.post, this.header := t, post, header;
      blockToTopo := new int[|t.idom|](_ => 0);
      topoToBlock := new int[|t.idom|](_ => 0);
      loopDepths := new int[|t.idom|](_ => 0);
      requests := new seq<int>[|t.idom|](_ => []);
      ends := seq(|t.idom|, _ => 0);
      topoI, loopDepth := 0, 0;
    }

    /** `topo_walk_idom`: place the subtree of `b`. */
    method Walk(b: nat)
      requires Valid() && b < |t.idom| && topoI + |Subtree(t, b)| <= |t.idom|
      requires loopDepth == LoopDepth(t, header, b)
      requires forall k :: topoI <= k < requests.Length ==> requests[k] == []
      modifies blockToTopo, topoToBlock, loopDepths, requests, `topoI, `loopDepth, `ends
      ensures Valid() && topoI == old(topoI) + |Subtree(t, b)| && loopDepth == old(loopDepth)
      ensures Walked(t, post, header, S(), Below(t, b), old(topoI), topoI)
      ensures Changed(t, old(S()), S(), b, old(topoI), topoI)
      ensures blockToTopo[b] == old(topoI) && ends[b] == topoI
      ensures forall k :: topoI <= k < requests.Length ==> requests[k] == []
      decreases |t.idom| - t.rank[b], 1
    {
      hide Above, IsTree, Walked, Changed, Subtree, SubtreeOfFirst, ChildList;
      ghost var o0, lo := S(), topoI;
      SubtreeNonempty(t, b);
      var start := topoI;
      blockToTopo[b] := topoI;
      topoToBlock[topoI] := b;
      topoI := topoI + 1;
      loopDepths[b] := loopDepth;
      ChildrenInRange(t, b);
      var sorted := SortChildren(t.children[b], post);
      SortedChildList(t, post, b, sorted);
      assert blockToTopo[..] == o0.topo[b := lo] && topoToBlock[..] == o0.inv[lo := b] && requests[..] == o0.requests;
      WalkEntered(t, post, header, sorted, o0, S(), b, lo);
      loopDepth := loopDepth + if header[b] then 1 else 0;
      WalkChildren(b, sorted, o0, lo);
      CountAll(t, post, b, sorted);
      loopDepth := loopDepth - if header[b] then 1 else 0;
      ghost var o1 := S();
      assert requests[start] + [2 * topoI] == [2 * topoI];
      if header[b] {
        requests[start] := requests[start] + [2 * topoI];
      }
      ends := ends[b := topoI];
      assert requests[..] == if header[b] then o1.requests[lo := [2 * topoI]] else o1.requests;
      WalkLeft(t, post, header, sorted, o0, o1, S(), b, lo, topoI);
    }

    /** Walk the children of `b` in turn, after `b` itself has taken position `lo`. */
    method WalkChildren(b: nat, sorted: seq<int>, ghost o0: Order, ghost lo: int)
      requires Valid() && b < |t.idom| == |t.rank| && t.rank[b] < |t.idom| && ChildList(t, post, b, sorted) && 0 <= lo && topoI == lo + 1
      requires lo + |Subtree(t, b)| <= |t.idom| && lo < |t.idom|
      requires loopDepth == LoopDepth(t, header, b) + if header[b] then 1 else 0
      requires Walked(t, post, header, S(), BelowFirst(t, sorted, 0), lo + 1, topoI) && Changed(t, o0, S(), b, lo, topoI)
      requires blockToTopo[b] == lo && topoToBlock[lo] == b && loopDepths[b] == LoopDepth(t, header, b)
      requires forall k :: lo <= k < requests.Length ==> requests[k] == []
      modifies blockToTopo, topoToBlock, loopDepths, requests, `topoI, `loopDepth, `ends
      ensures Valid() && loopDepth == old(loopDepth) && topoI == lo + 1 + |SubtreeOfFirst(t, sorted, |sorted|)|
      ensures Walked(t, post, header, S(), BelowFirst(t, sorted, |sorted|), lo + 1, topoI) && Changed(t, o0, S(), b, lo, topoI)
      ensures blockToTopo[b] == lo && topoToBlock[lo] == b && loopDepths[b] == LoopDepth(t, header, b) && requests[lo] == []
      ensures forall k :: topoI <= k < requests.Length ==> requests[k] == []
      decreases |t.idom| - t.rank[b], 0
    {
      hide Above, IsTree, Walked, Changed, Subtree, SubtreeOfFirst, ChildList;
      CountNone(t, sorted);
      for i := 0 to |sorted|
        invariant Valid() && loopDepth == old(loopDepth)
        invariant topoI == lo + 1 + |SubtreeOfFirst(t, sorted, i)|
        invariant Walked(t, post, header, S(), BelowFirst(t, sorted, i), lo + 1, topoI) && Changed(t, o0, S(), b, lo, topoI)
        invariant blockToTopo[b] == lo && topoToBlock[lo] == b && loopDepths[b] == LoopDepth(t, header, b) && requests[lo] == []
        invariant forall k :: topoI <= k < requests.Length ==> requests[k] == []
      {
        ghost var o1, mid := S(), topoI;
        CountNext(t, post, b, sorted, i);
        ChildDepth(t, post, header, b, sorted, i);
        Walk(sorted[i]);
        WalkAdvanced(t, post, header, sorted, o0, o1, S(), b, i, lo, mid, topoI);
      }
    }
  }

  lemma SubtreeNonempty(t: Tree, b: int)
    requires IsTree(t) && 0 <= b < |t.idom|
    ensures 1 <= |Subtree(t, b)| && |t.children| == |t.idom| == |t.rank| && t.rank[b] < |t.idom|
  {
    SelfAbove(t, b);
    CardLe({b}, Subtree(t, b));
  }

  lemma ChildrenInRange(t: Tree, b: int)
    requires IsTree(t) && 0 <= b < |t.idom|
    ensures |t.children| == |t.idom| && forall k :: 0 <= k < |t.children[b]| ==> t.children[b][k] < |t.idom|
  {
    var list: seq<int> := t.children[b];
    forall k | 0 <= k < |list| ensures list[k] < |t.idom| {
      assert list[k] in list;
      InChildren(t, b, list[k]);
    }
  }

  lemma ChildDepth(t: Tree, post: seq<int>, header: seq<bool>, b: int, list: seq<int>, i: int)
    requires ChildList(t, post, b, list) && 0 <= i < |list| && |header| == |t.idom|
    ensures 0 < list[i] < |t.idom| && |t.rank| == |t.idom| && t.rank[b] < t.rank[list[i]] < |t.idom|
    ensures LoopDepth(t, header, list[i]) == LoopDepth(t, header, b) + if header[b] then 1 else 0
  {
    ListChild(t, post, b, list, i);
  }

  // ---------- requesting wasm blocks ----------

  /** The whole tree has been walked. */
  ghost predicate IsTopo(t: Tree, post: seq<int>, topo: seq<int>, inv: seq<int>, ends: seq<int>) {
    && IsTree(t) && |post| == |topo| == |inv| == |ends| == |t.idom|
    && Placed(t, post, topo, inv, ends, _ => true, 0, |t.idom|)
  }

  /** Some predecessor of block `i` is placed before the position just before `i`. */
  predicate NeedsBlock(prev: seq<seq<nat>>, topo: seq<int>, i: int)
    requires 0 <= i < |prev| && i < |topo|
  {
    exists j :: 0 <= j < |prev[i]| && prev[i][j] < |topo| && topo[prev[i][j]] < topo[i] - 1
  }

  /** The requests that the first `n` blocks make for position `k`. */
  function BlockRequests(prev: seq<seq<nat>>, topo: seq<int>, idom: seq<nat>, k: int, n: nat): seq<int>
    requires n <= |prev| == |topo| == |idom|
  {
    if n == 0 then []
    else
      var rest := BlockRequests(prev, topo, idom, k, n - 1);
      if NeedsBlock(prev, topo, n - 1) && idom[n - 1] < |topo| && topo[idom[n - 1]] == k then rest + [2 * topo[n - 1] + 1] else rest
  }

  lemma {:induction false} BlockRequestsAre(prev: seq<seq<nat>>, topo: seq<int>, idom: seq<nat>, k: int, n: nat, e: int)
    requires n <= |prev| == |topo| == |idom|
    ensures e in BlockRequests(prev, topo, idom, k, n) <==>
            exists i :: 0 <= i < n && NeedsBlock(prev, topo, i) && idom[i] < |topo| && topo[idom[i]] == k && e == 2 * topo[i] + 1
  {
    hide NeedsBlock;
    if n > 0 { BlockRequestsAre(prev, topo, idom, k, n - 1, e); }
  }

  /** Whether a wasm block must be opened for block `i`. */
  method ScanPrev(prev: seq<seq<nat>>, topo: seq<int>, i: nat) returns (needed: bool)
    requires i < |prev| == |topo| && forall j :: 0 <= j < |prev[i]| ==> prev[i][j] < |topo|
    ensures needed <==> NeedsBlock(prev, topo, i)
  {
    for j := 0 to |prev[i]|
      invariant forall k :: 0 <= k < j ==> topo[prev[i][k]] >= topo[i] - 1
    {
      if topo[prev[i][j]] >= topo[i] - 1 {
        continue;
      }
      return true;
    }
    return false;
  }

  /** `find_block_insertion_points`: a block that is entered from before its predecessor in the order gets a
      wasm block, opened at its immediate dominator. */
  method FindBlockInsertionPoints(prev: seq<seq<nat>>, topo: seq<int>, idom: seq<nat>, requests: array<seq<int>>)
    requires |prev| == |topo| == |idom| == requests.Length && (forall i :: 0 <= i < |idom| ==> idom[i] < |idom|)
    requires forall i, j :: 0 <= i < |prev| && 0 <= j < |prev[i]| ==> prev[i][j] < |topo|
    requires forall i :: 0 <= i < |topo| ==> 0 <= topo[i] < |topo|
    modifies requests
    ensures forall k :: 0 <= k < requests.Length ==> requests[k] == old(requests[k]) + BlockRequests(prev, topo, idom, k, |topo|)
  {
    hide NeedsBlock;
    for i := 0 to |topo|
      invariant forall k :: 0 <= k < requests.Length ==> requests[k] == old(requests[k]) + BlockRequests(prev, topo, idom, k, i)
    {
      var needed := ScanPrev(prev, topo, i);
      if needed {
        var at := topo[idom[i]];
        assert requests[at] + [2 * topo[i] + 1] == old(requests[at]) + (BlockRequests(prev, topo, idom, at, i) + [2 * topo[i] + 1]);
        requests[at] := requests[at] + [2 * topo[i] + 1];
      }
    }
  }

  /** Position `k` opens a loop if it holds a loop header, and the blocks requested for it. */
  ghost predicate Requested(t: Tree, prev: seq<seq<nat>>, header: seq<bool>, topo: seq<int>, inv: seq<int>, ends: seq<int>,
                            requests: seq<seq<int>>) {
    && |prev| == |topo| == |inv| == |ends| == |header| == |requests| == |t.idom|
    && forall k :: 0 <= k < |requests| && 0 <= inv[k] < |header| ==>
                     requests[k] == (if header[inv[k]] then [2 * ends[inv[k]]] else []) + BlockRequests(prev, topo, t.idom, k, |topo|)
  }

  /** `make_topo`: the emission order of the blocks, its inverse, the loop depth of every block, and the wasm
      blocks and loops to open at each position. */
  method MakeTopo(t: Tree, prev: seq<seq<nat>>, post: seq<int>, header: seq<bool>)
    returns (topo: seq<int>, inv: seq<int>, depths: seq<int>, requests: seq<seq<int>>, ghost ends: seq<int>)
    requires IsTree(t) && |post| == |header| == |prev| == |t.idom| && t.idom[0] < |t.idom|
    requires forall i, j :: 0 <= i < |prev| && 0 <= j < |prev[i]| ==> prev[i][j] < |t.idom|
    ensures IsTopo(t, post, topo, inv, ends) && topo[0] == 0
    ensures |depths| == |t.idom| && forall x :: 0 <= x < |depths| ==> depths[x] == LoopDepth(t, header, x)
    ensures Requested(t, prev, header, topo, inv, ends, requests)
  {
    hide Above, BlockRequests, LoopDepth;
    var w := new TopoWalk(t, post, header);
    WholeTree(t, header);
    w.Walk(0);
    WholeWalked(t, post, header, w.S(), w.topoI);
    topo, inv, depths := w.blockToTopo[..], w.topoToBlock[..], w.loopDepths[..];
    ends := w.ends;
    ghost var loops := w.requests[..];
    FindBlockInsertionPoints(prev, topo, t.idom, w.requests);
    requests := w.requests[..];
    assert forall k :: 0 <= k < |requests| ==> requests[k] == loops[k] + BlockRequests(prev, topo, t.idom, k, |topo|);
  }

  lemma WholeTree(t: Tree, header: seq<bool>)
    requires IsTree(t) && |header| == |t.idom|
    ensures |Subtree(t, 0)| == |t.idom| && LoopDepth(t, header, 0) == 0
    ensures forall x :: 0 <= x < |t.idom| ==> Above(t, 0, x)
  {
    hide Above;
    forall x | 0 <= x < |t.idom| ensures Above(t, 0, x) { RootAbove(t, x); }
    assert Subtree(t, 0) == DepthFirst.Below(|t.idom|);
  }

  lemma WholeWalked(t: Tree, post: seq<int>, header: seq<bool>, o: Order, hi: int)
    requires Walked(t, post, header, o, Below(t, 0), 0, hi) && hi == |t.idom|
    requires forall x :: 0 <= x < |t.idom| ==> Above(t, 0, x)
    ensures IsTopo(t, post, o.topo, o.inv, o.ends)
    ensures forall x :: 0 <= x < |t.idom| ==> 0 <= o.topo[x] < |t.idom| && o.depths[x] == LoopDepth(t, header, x)
    ensures LoopsRequested(header, o.inv, o.ends, o.requests, 0, |t.idom|)
  {
    hide Above, LoopDepth;
    assert forall x :: 0 <= x < |t.idom| ==> Below(t, 0)(x);
  }
}
