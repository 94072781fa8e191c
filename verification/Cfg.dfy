/** Control-flow graphs: basic blocks `0..n` with successor and predecessor lists, and paths through them. */
module Cfg {

  /** `next[b]` lists the successors of block `b`, possibly with duplicates. */
  type Graph = seq<seq<nat>>

  ghost predicate IsGraph(next: Graph) {
    0 < |next| && forall b, j :: 0 <= b < |next| && 0 <= j < |next[b]| ==> next[b][j] < |next|
  }

  ghost predicate Edge(next: Graph, u: int, v: int) {
    0 <= u < |next| && v in next[u]
  }

  /** `prev` lists exactly the predecessors. */
  ghost predicate IsPrev(next: Graph, prev: Graph) {
    && |prev| == |next|
    && forall u, v :: 0 <= v < |prev| ==> (u in prev[v] <==> Edge(next, u, v))
  }

  ghost predicate IsPath(next: Graph, p: seq<int>) {
    && 0 < |p| && (forall i :: 0 <= i < |p| ==> 0 <= p[i] < |next|)
    && forall i :: 0 <= i < |p| - 1 ==> Edge(next, p[i], p[i + 1])
  }

  ghost predicate Reaches(next: Graph, u: int, v: int) {
    exists p :: IsPath(next, p) && p[0] == u && p[|p| - 1] == v
  }

  /** Every block is reachable from the entry block, as block scanning leaves it. */
  ghost predicate AllReachable(next: Graph) {
    forall b :: 0 <= b < |next| ==> Reaches(next, 0, b)
  }

  lemma PathSplit(next: Graph, p: seq<int>, i: int)
    requires IsPath(next, p) && 0 <= i < |p|
    ensures IsPath(next, p[..i + 1]) && IsPath(next, p[i..])
  {
    var q := p[i..];
    forall k | 0 <= k < |q| - 1 ensures Edge(next, q[k], q[k + 1]) {
      assert Edge(next, p[i + k], p[i + k + 1]);
    }
  }

  lemma PathJoin(next: Graph, p: seq<int>, q: seq<int>)
    requires IsPath(next, p) && IsPath(next, q) && p[|p| - 1] == q[0]
    ensures IsPath(next, p + q[1..])
    ensures (p + q[1..])[0] == p[0] && (p + q[1..])[|p + q[1..]| - 1] == q[|q| - 1]
  {
    var r := p + q[1..];
    forall i | 0 <= i < |r| - 1 ensures Edge(next, r[i], r[i + 1]) {
      if i < |p| - 1 {
        assert r[i] == p[i] && r[i + 1] == p[i + 1];
      } else {
        assert r[i] == q[i - (|p| - 1)] && r[i + 1] == q[i - (|p| - 1) + 1];
      }
    }
  }
}
