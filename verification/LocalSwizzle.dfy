/** Renumbering local variables so that a long or double takes one slot. */
module LocalSwizzle {
  import opened Wrappers
  import opened TwoSlot
  import DepthFirst

  /** Slots that the first `k` parameters take in the two-slot numbering. */
  function Start(params: seq<Kind>, k: nat): nat
    requires k <= |params|
  {
    if k == 0 then 0 else Start(params, k - 1) + if Wide(params[k - 1]) then 2 else 1
  }

  lemma {:induction false} StartMonotone(params: seq<Kind>, k: nat, l: nat)
    requires k <= l <= |params|
    ensures Start(params, k) + (l - k) <= Start(params, l)
  {
    if k < l { StartMonotone(params, k, l - 1); }
  }

  /** The receiver, if any, is the first parameter. */
  function Params(isStatic: bool, args: seq<Kind>): seq<Kind> {
    if isStatic then args else [Reference] + args
  }

  /** `sw` maps the first `c` indices' preimages `inv` to them; other locals are not mapped yet. */
  ghost predicate Mapped(sw: seq<int>, inv: seq<int>) {
    && (forall x :: 0 <= x < |sw| ==> sw[x] == -1 || (0 <= sw[x] < |inv| && inv[sw[x]] == x))
    && (forall k :: 0 <= k < |inv| ==> 0 <= inv[k] < |sw| && sw[inv[k]] == k)
  }

  /** `sw` is a permutation of the local variable indices. */
  ghost predicate IsPermutation(sw: seq<int>) {
    && (forall x :: 0 <= x < |sw| ==> 0 <= sw[x] < |sw|)
    && (forall x, y :: 0 <= x < y < |sw| ==> sw[x] != sw[y])
  }

  lemma MappedSize(sw: seq<int>, inv: seq<int>)
    requires Mapped(sw, inv)
    ensures |inv| <= |sw|
  {
    forall i, j | 0 <= i < j < |inv| ensures inv[i] != inv[j] { assert sw[inv[i]] == i && sw[inv[j]] == j; }
    DepthFirst.DistinctCard(inv);
    DepthFirst.SubsetCard((set x | x in inv), DepthFirst.Below(|sw|));
  }

  lemma AllMapped(sw: seq<int>, inv: seq<int>)
    requires Mapped(sw, inv) && forall x :: 0 <= x < |sw| ==> sw[x] != -1
    ensures IsPermutation(sw)
  {
    MappedSize(sw, inv);
    forall x, y | 0 <= x < y < |sw| ensures sw[x] != sw[y] { assert inv[sw[x]] == x && inv[sw[y]] == y; }
  }

  lemma MapOne(sw: seq<int>, inv: seq<int>, x: nat)
    requires Mapped(sw, inv) && x < |sw| && sw[x] == -1
    ensures Mapped(sw[x := |inv|], inv + [x])
  {
  }

  /** The first of the mapped locals are those where the first `c` parameters start. */
  ghost predicate AtStarts(params: seq<Kind>, inv: seq<int>, c: int) {
    0 <= c <= |params| && c <= |inv| && forall k :: 0 <= k < c ==> inv[k] == Start(params, k)
  }

  /** The kinds of the first `c` parameters have been recorded. */
  ghost predicate Recorded(params: seq<Kind>, kinds: seq<Option<Kind>>, c: int) {
    0 <= c <= |params| && forall k :: 0 <= k < |kinds| ==> kinds[k] == if k < c then Some(params[k]) else None
  }

  lemma NextParam(params: seq<Kind>, sw: seq<int>, inv: seq<int>, kinds: seq<Option<Kind>>, c: nat, j: nat)
    requires Mapped(sw, inv) && AtStarts(params, inv, c) && Recorded(params, kinds, c) && |inv| == c < |params| && |kinds| == |sw|
    requires j == Start(params, c) < |sw| && c <= j && forall x :: j <= x < |sw| ==> sw[x] == -1
    ensures Mapped(sw[j := c], inv + [j]) && AtStarts(params, inv + [j], c + 1) && Recorded(params, kinds[c := Some(params[c])], c + 1)
    ensures Start(params, c + 1) == j + (if Wide(params[c]) then 2 else 1) <= Start(params, |params|)
  {
    MapOne(sw, inv, j);
    StartMonotone(params, c + 1, |params|);
  }

  lemma NoParams(params: seq<Kind>, sw: seq<int>, kinds: seq<Option<Kind>>)
    requires |kinds| == |sw| && (forall x :: 0 <= x < |sw| ==> sw[x] == -1) && forall x :: 0 <= x < |kinds| ==> kinds[x] == None
    ensures Mapped(sw, []) && AtStarts(params, [], 0) && Recorded(params, kinds, 0) && Start(params, 0) == 0
  {
  }

  /** Map the parameters, and record their kinds. */
  method MapParams(sw: array<int>, kinds: array<Option<Kind>>, isStatic: bool, args: seq<Kind>) returns (ok: bool, ghost inv: seq<int>)
    requires sw.Length == kinds.Length && (forall x :: 0 <= x < sw.Length ==> sw[x] == -1) && forall x :: 0 <= x < kinds.Length ==>
             kinds[x] == None
    modifies sw, kinds
    ensures ok <==> Start(Params(isStatic, args), |Params(isStatic, args)|) <= sw.Length
    ensures ok ==>
              Mapped(sw[..], inv) && |inv| == |Params(isStatic, args)| && AtStarts(Params(isStatic, args), inv, |inv|)
                  && Recorded(Params(isStatic, args), kinds[..], |inv|)
  {
    hide Mapped, AtStarts, Recorded, Start;
    ghost var params := Params(isStatic, args);
    NoParams(params, sw[..], kinds[..]);
    inv := [];
    var i, j := 0, 0;
    var base := if isStatic then 0 else 1;
    if !isStatic {
      if sw.Length == 0 { StartMonotone(params, 0, |params|); return false, []; }
      NextParam(params, sw[..], inv, kinds[..], 0, 0);
      ghost var sw0, kinds0 := sw[..], kinds[..];
      sw[0] := 0;
      kinds[j] := Some(Reference);
      assert sw[..] == sw0[0 := 0] && kinds[..] == kinds0[0 := Some(params[0])];
      j := j + 1;
      inv := inv + [0];
    }
    while i < |args| && j < sw.Length
      invariant 0 <= i <= |args| && |params| == |args| + base && |inv| == i + base && j == Start(params, i + base) <= sw.Length
      invariant i + base <= j && Mapped(sw[..], inv) && AtStarts(params, inv, i + base) && Recorded(params, kinds[..], i + base)
      invariant forall x :: j <= x < sw.Length ==> sw[x] == -1
    {
      var arg := args[i];
      var swizzled := i + base;
      assert params[swizzled] == arg;
      NextParam(params, sw[..], inv, kinds[..], swizzled, j);
      ghost var sw0, kinds0 := sw[..], kinds[..];
      kinds[swizzled] := Some(arg);
      sw[j] := swizzled;
      assert sw[..] == sw0[j := swizzled] && kinds[..] == kinds0[swizzled := Some(arg)];
      inv := inv + [j];
      if Wide(arg) {
        j := j + 1;
        if j >= sw.Length { return false, inv; }
      }
      i, j := i + 1, j + 1;
    }
    ok := i == |args|;
    if !ok {
      StartMonotone(params, i + base, |params|);
    }
  }

  /** `locals_on_method_entry`: fails exactly when the parameters do not fit; otherwise the renumbering is a
      permutation that sends the k-th parameter to index k. */
  method LocalsOnMethodEntry(maxLocals: nat, isStatic: bool, args: seq<Kind>)
    returns (ok: bool, swizzle: seq<int>, kinds: seq<Option<Kind>>)
    ensures ok <==> Start(Params(isStatic, args), |Params(isStatic, args)|) <= maxLocals
    ensures ok ==> |swizzle| == |kinds| == maxLocals && IsPermutation(swizzle) && ParamsFirst(Params(isStatic, args), swizzle)
    ensures ok ==> Recorded(Params(isStatic, args), kinds, |Params(isStatic, args)|)
  {
    hide Mapped, AtStarts, Recorded, Start, IsPermutation, ParamsFirst;
    var sw := new int[maxLocals](_ => -1);
    var types := new Option<Kind>[maxLocals](_ => None);
    ghost var inv;
    ok, inv := MapParams(sw, types, isStatic, args);
    if !ok { return false, [], []; }
    ghost var params := Params(isStatic, args);
    var i := |args| + if isStatic then 0 else 1;
    for j := 0 to maxLocals
      invariant i == |inv| && |params| <= |inv| && Mapped(sw[..], inv) && AtStarts(params, inv, |params|)
      invariant Recorded(params, types[..], |params|) && forall x :: 0 <= x < j ==> sw[x] != -1
    {
      if sw[j] == -1 {
        MapOne(sw[..], inv, j);
        KeepStarts(params, inv, j);
        ghost var was := sw[..];
        sw[j] := i;
        assert sw[..] == was[j := i];
        inv := inv + [j];
        i := i + 1;
      }
    }
    AllMapped(sw[..], inv);
    StartsFirst(params, sw[..], inv);
    swizzle, kinds := sw[..], types[..];
  }

  lemma KeepStarts(params: seq<Kind>, inv: seq<int>, j: int)
    requires AtStarts(params, inv, |params|)
    ensures AtStarts(params, inv + [j], |params|)
  {
  }

  /** The k-th parameter has index k. */
  ghost predicate ParamsFirst(params: seq<Kind>, sw: seq<int>) {
    forall k :: 0 <= k < |params| ==> Start(params, k) < |sw| && sw[Start(params, k)] == k
  }

  lemma StartsFirst(params: seq<Kind>, sw: seq<int>, inv: seq<int>)
    requires Mapped(sw, inv) && AtStarts(params, inv, |params|)
    ensures ParamsFirst(params, sw)
  {
    forall k | 0 <= k < |params| ensures Start(params, k) < |sw| && sw[Start(params, k)] == k {
      assert inv[k] == Start(params, k);
    }
  }

  // ---------- access to renumbered locals ----------

  /** The two-slot local variables hold value `v` at index `n`. */
  ghost predicate Holds(ls: seq<Slot>, n: int, v: Value) {
    && 0 <= n < |ls|
    && if Wide(v.kind) then n + 1 < |ls| && ls[n] == First(v) && ls[n + 1] == Second(v) else ls[n] == Whole(v)
  }

  /** Storing `v` at index `n`, which takes `n + 1` too for a long or double. */
  function Store(ls: seq<Slot>, n: nat, v: Value): seq<Slot>
    requires n + |Slots(v)| <= |ls|
  {
    if Wide(v.kind) then ls[n := First(v)][n + 1 := Second(v)] else ls[n := Whole(v)]
  }

  /** Every value that the two-slot locals hold is found at its renumbered index. */
  ghost predicate Agree(ls: seq<Slot>, one: seq<Value>, sw: seq<int>) {
    && |ls| == |one| == |sw| && IsPermutation(sw)
    && forall n, v :: Holds(ls, n, v) ==> one[sw[n]] == v
  }

  /** A load finds the value that the specification's load finds. */
  lemma LoadAgrees(ls: seq<Slot>, one: seq<Value>, sw: seq<int>, n: nat, v: Value)
    requires Agree(ls, one, sw) && Holds(ls, n, v)
    ensures one[sw[n]] == v
  {
  }

  /** A store to the renumbered index keeps the agreement, even where it destroys half of another value. */
  lemma StoreAgrees(ls: seq<Slot>, one: seq<Value>, sw: seq<int>, n: nat, v: Value)
    requires Agree(ls, one, sw) && n + |Slots(v)| <= |ls|
    ensures Agree(Store(ls, n, v), one[sw[n] := v], sw) && Holds(Store(ls, n, v), n, v)
  {
    var ls', one' := Store(ls, n, v), one[sw[n] := v];
    forall m, u | Holds(ls', m, u) ensures one'[sw[m]] == u {
      if m != n {
        assert Holds(ls, m, u);
        assert sw[m] != sw[n];
      }
    }
  }

  /** A slot where a value can start. */
  predicate Starts(s: Slot) { s.Whole? || s.First? }

  lemma HoldsLast(a: seq<Slot>, last: Value, more: seq<Slot>, n: int, v: Value)
    requires Holds(a + Slots(last) + more, n, v) && |a| <= n && forall i :: 0 <= i < |more| ==> more[i] == Unset
    ensures n == |a| && v == last
  {
    var all := a + Slots(last) + more;
    assert forall i :: |a| <= i < |all| && Starts(all[i]) ==> i == |a|;
    assert Starts(all[n]);
  }

  lemma HoldsPrefix(a: seq<Slot>, last: Value, more: seq<Slot>, n: int, v: Value)
    requires Holds(a + Slots(last) + more, n, v) && n < |a|
    ensures Holds(a + [], n, v)
  {
    var all := a + Slots(last) + more;
    assert Starts(all[|a|]);
    assert a + [] == a && all[..|a|] == a;
    assert all[n] == all[..|a|][n];
    assert n + 1 < |a| ==> all[n + 1] == all[..|a|][n + 1];
  }

  /** Where a value starts in the expansion of a list of values. */
  lemma {:induction false} ExpandHolds(vs: seq<Value>, more: seq<Slot>, n: int, v: Value) returns (k: nat)
    requires Holds(Expand(vs) + more, n, v) && forall i :: 0 <= i < |more| ==> more[i] == Unset
    ensures k < |vs| && vs[k] == v && n == Start(Kinds(vs), k)
  {
    NonemptyHolds(vs, more, n, v);
    hide Holds, Start;
    var init, last := vs[..|vs| - 1], vs[|vs| - 1];
    ExpandLength(init);
    KindsSlice(vs, |init|);
    var a := Expand(init);
    assert Expand(vs) == a + Slots(last);
    hide Expand;
    if n < |a| {
      HoldsPrefix(a, last, more, n, v);
      k := ExpandHolds(init, [], n, v);
    } else {
      HoldsLast(a, last, more, n, v);
      k := |init|;
    }
    assert Kinds(vs)[..k] == Kinds(init)[..k];
    StartSame(Kinds(vs), Kinds(init), k);
  }

  lemma NonemptyHolds(vs: seq<Value>, more: seq<Slot>, n: int, v: Value)
    requires Holds(Expand(vs) + more, n, v) && forall i :: 0 <= i < |more| ==> more[i] == Unset
    ensures vs != []
  {
  }

  lemma {:induction false} ExpandLength(vs: seq<Value>)
    ensures |Expand(vs)| == Start(Kinds(vs), |vs|)
  {
    if vs != [] {
      ExpandLength(vs[..|vs| - 1]);
      KindsSlice(vs, |vs| - 1);
      StartSame(Kinds(vs), Kinds(vs[..|vs| - 1]), |vs| - 1);
    }
  }

  lemma {:induction false} StartSame(p: seq<Kind>, q: seq<Kind>, k: nat)
    requires k <= |p| && k <= |q| && p[..k] == q[..k]
    ensures Start(p, k) == Start(q, k)
  {
    if k > 0 {
      assert p[k - 1] == p[..k][k - 1] && q[k - 1] == q[..k][k - 1];
      assert p[..k - 1] == p[..k][..k - 1] && q[..k - 1] == q[..k][..k - 1];
      StartSame(p, q, k - 1);
    }
  }

  /** On entry, the parameters `vs` lie first in both numberings. */
  lemma {:induction false} EntryAgrees(vs: seq<Value>, ls: seq<Slot>, one: seq<Value>, sw: seq<int>)
    requires |ls| == |one| == |sw| && IsPermutation(sw) && |vs| <= |one| && |Expand(vs)| <= |ls|
    requires ParamsFirst(Kinds(vs), sw)
    requires ls[..|Expand(vs)|] == Expand(vs) && (forall i :: |Expand(vs)| <= i < |ls| ==> ls[i] == Unset) && one[..|vs|] == vs
    ensures Agree(ls, one, sw)
  {
    var more := ls[|Expand(vs)|..];
    assert ls == Expand(vs) + more;
    forall n, v | Holds(ls, n, v) ensures one[sw[n]] == v {
      var k := ExpandHolds(vs, more, n, v);
      assert one[k] == one[..|vs|][k];
    }
  }
}
