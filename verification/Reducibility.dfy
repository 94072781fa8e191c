/** Marking back edges by dominance, and the three-colour test that the other edges form no cycle. */
module Reducibility {
  import opened Cfg
  import opened DominatorTree

  /** One flag per edge, in the order of the successor lists. */
  type EdgeFlags = seq<seq<bool>>

  ghost predicate FlagsFor(next: Graph, back: EdgeFlags) {
    |back| == |next| && forall b :: 0 <= b < |next| ==> |back[b]| == |next[b]|
  }

  /** The targets in `targets` whose flag is not set. */
  function Unflagged(targets: seq<nat>, flags: seq<bool>): (r: seq<nat>)
    requires |flags| == |targets|
    ensures forall v :: v in r <==> exists j :: 0 <= j < |targets| && targets[j] == v && !flags[j]
  {
    if targets == [] then []
    else
      var n := |targets| - 1;
      var rest := Unflagged(targets[..n], flags[..n]);
      if flags[n] then rest else rest + [targets[n]]
  }

  /** The graph of the edges that are not back edges. */
  ghost function ForwardGraph(next: Graph, back: EdgeFlags): Graph
    requires FlagsFor(next, back)
  {
    seq(|next|, b requires 0 <= b < |next| => Unflagged(next[b], back[b]))
  }

  /** A cycle is a path of at least one edge that ends where it starts. */
  ghost predicate IsCycle(g: Graph, p: seq<int>) {
    IsPath(g, p) && 2 <= |p| && p[0] == p[|p| - 1]
  }

  /** No cycle can be reached from block 0. */
  ghost predicate AcyclicFromEntry(g: Graph) {
    !exists p :: IsCycle(g, p) && Reaches(g, 0, p[0])
  }

  // ---------- marking back edges ----------

  /** A back edge enters `v`. */
  ghost predicate EntersLoop(next: Graph, t: Tree, v: int)
    requires IsTree(t)
  {
    exists b :: Edge(next, b, v) && Above(t, v, b)
  }

  /** One of the first `i` blocks has a back edge to `v`. */
  ghost predicate EntersLoopFrom(next: Graph, t: Tree, i: int, v: int)
    requires IsTree(t) && 0 <= i <= |next|
  {
    exists b, j :: 0 <= b < i && 0 <= j < |next[b]| && next[b][j] == v && Above(t, v, b)
  }

  /** One of the first `j` edges of block `i` is a back edge to `v`. */
  ghost predicate EntersLoopBy(next: Graph, t: Tree, i: int, j: int, v: int)
    requires IsTree(t) && 0 <= i < |next| && 0 <= j <= |next[i]|
  {
    Above(t, v, i) && v in next[i][..j]
  }

  /** Flag the edges of one block. */
  method FlagEdges(next: Graph, pre: seq<int>, post: seq<int>, i: nat, header: array<bool>, ghost t: Tree) returns (flags: seq<bool>)
    requires IsGraph(next) && IsTree(t) && |t.idom| == |next| == |pre| == |post| == header.Length && i < |next|
    requires forall x, y :: 0 <= x < |pre| && 0 <= y < |pre| ==> (Above(t, x, y) <==> Nests(pre, post, x, y))
    modifies header
    ensures |flags| == |next[i]| && forall k :: 0 <= k < |flags| ==> (flags[k] <==> Above(t, next[i][k], i))
    ensures forall v :: 0 <= v < header.Length ==> (header[v] <==> old(header[v]) || EntersLoopBy(next, t, i, |next[i]|, v))
  {
    hide Above, IsTree;
    flags := [];
    for j := 0 to |next[i]|
      invariant |flags| == j
      invariant forall k :: 0 <= k < j ==> (flags[k] <==> Above(t, next[i][k], i))
      invariant forall v :: 0 <= v < header.Length ==> (header[v] <==> old(header[v]) || EntersLoopBy(next, t, i, j, v))
    {
      var v := next[i][j];
      var isBack := pre[v] <= pre[i] && post[v] >= post[i]; // query_dominance
      assert isBack <==> Nests(pre, post, v, i);
      assert next[i][..j + 1] == next[i][..j] + [v];
      flags := flags + [isBack];
      header[v] := header[v] || isBack;
    }
  }

  lemma EntersLoopNext(next: Graph, t: Tree, i: int, v: int)
    requires IsTree(t) && 0 <= i < |next|
    ensures EntersLoopFrom(next, t, i + 1, v) <==> EntersLoopFrom(next, t, i, v) || EntersLoopBy(next, t, i, |next[i]|, v)
  {
    hide Above, IsTree;
    assert next[i][..|next[i]|] == next[i];
    if EntersLoopBy(next, t, i, |next[i]|, v) {
      var j :| 0 <= j < |next[i]| && next[i][j] == v;
      assert EntersLoopFrom(next, t, i + 1, v);
    }
    if EntersLoopFrom(next, t, i + 1, v) && !EntersLoopFrom(next, t, i, v) {
      var b, j :| 0 <= b < i + 1 && 0 <= j < |next[b]| && next[b][j] == v && Above(t, v, b);
      assert b == i && v in next[i];
    }
  }

  /** `attempt_reduce_cfg`, first part.  An edge is a back edge exactly when its target dominates its
      source, and a block is a loop header exactly when a back edge enters it. */
  method MarkBackEdges(next: Graph, t: Tree, pre: seq<int>, post: seq<int>) returns (back: EdgeFlags, header: array<bool>)
    requires IsGraph(next) && IsTree(t) && |t.idom| == |next| == |pre| == |post|
    requires forall x, y :: 0 <= x < |pre| && 0 <= y < |pre| ==> (Above(t, x, y) <==> Nests(pre, post, x, y))
    ensures FlagsFor(next, back) && header.Length == |next|
    ensures forall b, j :: 0 <= b < |next| && 0 <= j < |next[b]| ==> (back[b][j] <==> Above(t, next[b][j], b))
    ensures forall v :: 0 <= v < |next| ==> (header[v] <==> EntersLoop(next, t, v))
  {
    hide Above, IsTree, EntersLoop, EntersLoopFrom, EntersLoopBy;
    back := [];
    header := new bool[|next|](_ => false);
    NoneYet(next, t);
    for i := 0 to |next|
      invariant |back| == i && fresh(header) && header.Length == |next|
      invariant forall b :: 0 <= b < i ==> |back[b]| == |next[b]|
      invariant forall b, j :: 0 <= b < i && 0 <= j < |next[b]| ==> (back[b][j] <==> Above(t, next[b][j], b))
      invariant forall v :: 0 <= v < |next| ==> (header[v] <==> EntersLoopFrom(next, t, i, v))
    {
      var flags := FlagEdges(next, pre, post, i, header, t);
      forall v | 0 <= v < |next| ensures header[v] <==> EntersLoopFrom(next, t, i + 1, v) { EntersLoopNext(next, t, i, v); }
      back := back + [flags];
    }
    HeadersAsEdges(next, t);
  }

  lemma NoneYet(next: Graph, t: Tree)
    requires IsTree(t)
    ensures forall v :: !EntersLoopFrom(next, t, 0, v)
  {
  }

  lemma HeadersAsEdges(next: Graph, t: Tree)
    requires IsTree(t)
    ensures forall v :: EntersLoopFrom(next, t, |next|, v) <==> EntersLoop(next, t, v)
  {
    hide Above, IsTree;
    forall v, b | Edge(next, b, v) && Above(t, v, b) ensures EntersLoopFrom(next, t, |next|, v) {
      var j :| 0 <= j < |next[b]| && next[b][j] == v;
    }
  }

  // ---------- the cycle test ----------

  const WHITE := 0
  const GREY := 1
  const BLACK := 2

  /** What the colours mean: a black block has only black successors, and `fin` decreases along its edges. */
  ghost predicate ColoursOk(g: Graph, colour: seq<int>, fin: seq<int>, clock: int) {
    && |colour| == |fin| == |g|
    && (forall x :: 0 <= x < |g| && colour[x] == BLACK ==> fin[x] < clock)
    && (forall x, y :: Edge(g, x, y) && colour[x] == BLACK ==> 0 <= y < |g| && colour[y] == BLACK && fin[y] < fin[x])
  }

  /** Every grey block reaches `i`, the block being visited. */
  ghost predicate GreyReach(g: Graph, colour: seq<int>, i: int) {
    forall x :: 0 <= x < |colour| && colour[x] == GREY ==> Reaches(g, x, i)
  }

  ghost predicate OnlyNewBlack(c0: seq<int>, c1: seq<int>) {
    && |c1| == |c0|
    && forall x :: 0 <= x < |c0| ==> c1[x] == c0[x] || (c0[x] == WHITE && c1[x] == BLACK)
  }

  function Whites(colour: seq<int>): set<int> {
    set x | 0 <= x < |colour| && colour[x] == WHITE
  }

  lemma ReachesStep(g: Graph, u: int, v: int, w: int)
    requires Reaches(g, u, v) && Edge(g, v, w) && 0 <= w < |g|
    ensures Reaches(g, u, w)
  {
    var p :| IsPath(g, p) && p[0] == u && p[|p| - 1] == v;
    PathJoin(g, p, [v, w]);
    assert p + [v, w][1..] == p + [w];
    assert IsPath(g, p + [w]) && (p + [w])[0] == u && (p + [w])[|p + [w]| - 1] == w;
  }

  lemma ReachesSelf(g: Graph, u: int)
    requires 0 <= u < |g|
    ensures Reaches(g, u, u)
  {
    assert IsPath(g, [u]) && [u][0] == u && [u][|[u]| - 1] == u;
  }

  /** A grey successor closes a cycle. */
  lemma GreyCloses(g: Graph, i: int, v: int)
    requires Reaches(g, 0, i) && Reaches(g, v, i) && Edge(g, i, v) && 0 <= v < |g|
    ensures !AcyclicFromEntry(g)
  {
    var p :| IsPath(g, p) && p[0] == v && p[|p| - 1] == i;
    PathJoin(g, p, [i, v]);
    var q := p + [i, v][1..];
    assert q[0] == v && q[|q| - 1] == v;
    ReachesStep(g, 0, i, v);
    assert IsCycle(g, q) && Reaches(g, 0, q[0]);
  }

  lemma InForward(next: Graph, back: EdgeFlags, i: int, j: int)
    requires IsGraph(next) && FlagsFor(next, back) && 0 <= i < |next| && 0 <= j < |next[i]|
    ensures |ForwardGraph(next, back)| == |next| && next[i][j] < |next|
    ensures !back[i][j] ==> Edge(ForwardGraph(next, back), i, next[i][j])
  {
  }

  lemma FromForward(next: Graph, back: EdgeFlags, i: int, v: int) returns (j: int)
    requires IsGraph(next) && FlagsFor(next, back) && Edge(ForwardGraph(next, back), i, v)
    ensures 0 <= i < |next| && 0 <= j < |next[i]| && next[i][j] == v && !back[i][j]
  {
    j :| 0 <= j < |next[i]| && next[i][j] == v && !back[i][j];
  }

  class CycleTest {
    const next: Graph
    const back: EdgeFlags
    const colour: array<int>
    ghost var fin: seq<int>
    ghost var clock: int

    ghost predicate Valid()
      reads this, colour
    {
      && IsGraph(next) && FlagsFor(next, back) && colour.Length == |next|
      && |fin| == |next| && (forall x :: 0 <= x < colour.Length ==> WHITE <= colour[x] <= BLACK)
      && ColoursOk(ForwardGraph(next, back), colour[..], fin, clock)
    }

    constructor (next: Graph, back: EdgeFlags)
      requires IsGraph(next) && FlagsFor(next, back)
      ensures Valid() && this.next == next && this.back == back && fresh(colour)
      ensures forall x :: 0 <= x < colour.Length ==> colour[x] == WHITE
    {
      this.next, this.back := next, back;
      colour := new int[|next|](_ => WHITE);
      fin := seq(|next|, _ => 0);
      clock := 0;
    }

    /** `forward_edges_form_a_cycle`: search from white block `i`, which is reachable from the entry. */
    method Search(i: nat) returns (cycle: bool)
      requires Valid() && i < |next| && colour[i] == WHITE
      requires Reaches(ForwardGraph(next, back), 0, i) && GreyReach(ForwardGraph(next, back), colour[..], i)
      modifies colour, `fin, `clock
      ensures cycle ==> !AcyclicFromEntry(ForwardGraph(next, back))
      ensures !cycle ==> Valid() && colour[i] == BLACK && OnlyNewBlack(old(colour[..]), colour[..])
      decreases Whites(colour[..])
    {
      hide ColoursOk, AcyclicFromEntry, Reaches, GreyReach, ForwardGraph, OnlyNewBlack, IsGraph, Whites;
      ghost var g := ForwardGraph(next, back);
      ghost var c0 := colour[..];
      ForwardSize(next, back);
      colour[i] := GREY;
      assert colour[..] == c0[i := GREY];
      SearchStart(g, c0, fin, clock, i);
      for j := 0 to |next[i]|
        invariant Valid() && colour[i] == GREY && OnlyNewBlack(c0[i := GREY], colour[..])
        invariant GreyReach(g, colour[..], i)
        invariant forall k :: 0 <= k < j && !back[i][k] ==> next[i][k] < |next| && colour[next[i][k]] == BLACK
      {
        InForward(next, back, i, j);
        var v := next[i][j];
        if back[i][j] {
          continue;
        }
        ghost var c1 := colour[..];
        if colour[v] == WHITE {
          ChildReady(g, c0, c1, i, v);
          var found := Search(v);
          if found {
            return true;
          }
          ChildDone(g, c0[i := GREY], c1, colour[..], i);
        } else {
          if colour[v] == GREY {
            GreyFound(g, c1, i, v);
            return true;
          }
        }
      }
      ghost var c2 := colour[..];
      ForwardTargets(next, back, i, c2);
      colour[i] := BLACK;
      assert colour[..] == c2[i := BLACK];
      Blacken(g, c0, c2, fin, clock, i);
      fin := fin[i := clock];
      clock := clock + 1;
      cycle := false;
    }
  }

  lemma SearchStart(g: Graph, c0: seq<int>, fin: seq<int>, clock: int, i: int)
    requires ColoursOk(g, c0, fin, clock) && 0 <= i < |g| && c0[i] == WHITE && GreyReach(g, c0, i)
    ensures ColoursOk(g, c0[i := GREY], fin, clock) && GreyReach(g, c0[i := GREY], i)
    ensures OnlyNewBlack(c0[i := GREY], c0[i := GREY]) && Whites(c0[i := GREY]) < Whites(c0) && |c0| == |g|
  {
    hide Reaches;
    ReachesSelf(g, i);
    assert i in Whites(c0);
  }

  lemma ChildReady(g: Graph, c0: seq<int>, c1: seq<int>, i: int, v: int)
    requires 0 <= i < |g| == |c0| && c0[i] == WHITE && OnlyNewBlack(c0[i := GREY], c1) && GreyReach(g, c1, i)
    requires Reaches(g, 0, i) && Edge(g, i, v) && 0 <= v < |g|
    ensures Reaches(g, 0, v) && GreyReach(g, c1, v) && Whites(c1) < Whites(c0)
  {
    hide Reaches;
    ReachesStep(g, 0, i, v);
    forall x | 0 <= x < |c1| && c1[x] == GREY ensures Reaches(g, x, v) { ReachesStep(g, x, i, v); }
    assert i in Whites(c0) && i !in Whites(c1);
  }

  lemma ChildDone(g: Graph, c: seq<int>, c1: seq<int>, c2: seq<int>, i: int)
    requires OnlyNewBlack(c, c1) && OnlyNewBlack(c1, c2) && 0 <= i < |c| && c1[i] == GREY && GreyReach(g, c1, i)
    ensures OnlyNewBlack(c, c2) && c2[i] == GREY && GreyReach(g, c2, i)
    ensures forall x :: 0 <= x < |c1| && c1[x] == BLACK ==> c2[x] == BLACK
  {
    hide Reaches;
  }

  lemma GreyFound(g: Graph, c1: seq<int>, i: int, v: int)
    requires GreyReach(g, c1, i) && 0 <= v < |g| == |c1| && c1[v] == GREY && Reaches(g, 0, i) && Edge(g, i, v)
    ensures !AcyclicFromEntry(g)
  {
    hide Reaches, AcyclicFromEntry;
    GreyCloses(g, i, v);
  }

  lemma ForwardTargets(next: Graph, back: EdgeFlags, i: int, c: seq<int>)
    requires IsGraph(next) && FlagsFor(next, back) && 0 <= i < |next| == |c|
    requires forall k :: 0 <= k < |next[i]| && !back[i][k] ==> next[i][k] < |next| && c[next[i][k]] == BLACK
    ensures forall y :: Edge(ForwardGraph(next, back), i, y) ==> 0 <= y < |next| && c[y] == BLACK
  {
    hide ForwardGraph;
    forall y | Edge(ForwardGraph(next, back), i, y) ensures 0 <= y < |next| && c[y] == BLACK {
      var j := FromForward(next, back, i, y);
    }
  }

  /** Leaving a block: it becomes black and gets the next finishing number. */
  lemma Blacken(g: Graph, c0: seq<int>, c2: seq<int>, fin: seq<int>, clock: int, i: int)
    requires ColoursOk(g, c2, fin, clock) && 0 <= i < |g| == |c0| && c0[i] == WHITE && OnlyNewBlack(c0[i := GREY], c2) && c2[i] == GREY
    requires forall y :: Edge(g, i, y) ==> 0 <= y < |g| && c2[y] == BLACK
    ensures ColoursOk(g, c2[i := BLACK], fin[i := clock], clock + 1) && OnlyNewBlack(c0, c2[i := BLACK])
  {
  }

  /** Along a path of black blocks the finishing numbers decrease. */
  lemma {:induction false} BlackPath(g: Graph, colour: seq<int>, fin: seq<int>, clock: int, p: seq<int>)
    requires ColoursOk(g, colour, fin, clock) && IsPath(g, p) && colour[p[0]] == BLACK
    ensures colour[p[|p| - 1]] == BLACK && fin[p[|p| - 1]] <= fin[p[0]] - (|p| - 1)
    decreases |p|
  {
    if |p| > 1 {
      PathSplit(g, p, |p| - 2);
      BlackPath(g, colour, fin, clock, p[..|p| - 1]);
      assert Edge(g, p[|p| - 2], p[|p| - 1]);
    }
  }

  lemma BlackAcyclic(g: Graph, colour: seq<int>, fin: seq<int>, clock: int)
    requires ColoursOk(g, colour, fin, clock) && 0 < |g| && colour[0] == BLACK
    ensures AcyclicFromEntry(g)
  {
    forall p | IsCycle(g, p) && Reaches(g, 0, p[0]) ensures false {
      var q :| IsPath(g, q) && q[0] == 0 && q[|q| - 1] == p[0];
      BlackPath(g, colour, fin, clock, q);
      BlackPath(g, colour, fin, clock, p);
    }
  }

  /** The cycle test: the answer is exact. */
  method ForwardEdgesFormACycle(next: Graph, back: EdgeFlags) returns (cycle: bool)
    requires IsGraph(next) && FlagsFor(next, back)
    ensures cycle <==> !AcyclicFromEntry(ForwardGraph(next, back))
  {
    hide ColoursOk, AcyclicFromEntry, ForwardGraph, Reaches;
    var d := new CycleTest(next, back);
    ForwardSize(next, back);
    ReachesSelf(ForwardGraph(next, back), 0);
    cycle := d.Search(0);
    if !cycle {
      BlackAcyclic(ForwardGraph(next, back), d.colour[..], d.fin, d.clock);
    }
  }

  lemma ForwardSize(next: Graph, back: EdgeFlags)
    requires FlagsFor(next, back)
    ensures |ForwardGraph(next, back)| == |next|
  {
  }

  /** `attempt_reduce_cfg` for the dominator tree `t`: zero exactly when the edges whose target does not
      dominate their source form no cycle that can be reached from block 0. */
  method AttemptReduceCfg(next: Graph, t: Tree) returns (fail: int, back: EdgeFlags, header: array<bool>)
    requires IsGraph(next) && IsTree(t) && |t.idom| == |next|
    ensures FlagsFor(next, back) && header.Length == |next|
    ensures forall b, j :: 0 <= b < |next| && 0 <= j < |next[b]| ==> (back[b][j] <==> Above(t, next[b][j], b))
    ensures forall v :: 0 <= v < |next| ==> (header[v] <==> EntersLoop(next, t, v))
    ensures fail == 0 <==> AcyclicFromEntry(ForwardGraph(next, back))
  {
    hide AcyclicFromEntry, ForwardGraph, Above, IsTree;
    var pre, post := NumberTree(t);
    back, header := MarkBackEdges(next, t, pre, post);
    var cycle := ForwardEdgesFormACycle(next, back);
    fail := if cycle then 1 else 0;
  }
}
