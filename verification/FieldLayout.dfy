/** Field offsets and reference lists, as class linking lays them out (pointers of eight bytes). */
module FieldLayout {
  import DepthFirst
  import Memory

  datatype Kind = Boolean | Byte | Char | Short | Int | Float | Long | Double | Reference

  datatype Field = Field(kind: Kind, isStatic: bool)

  function Size(k: Kind): nat {
    match k
    case Boolean => 1 case Byte => 1
    case Char => 2 case Short => 2
    case Int => 4 case Float => 4
    case Long => 8 case Double => 8 case Reference => 8
  }

  /** The least multiple of the size of `k` that is not below `x`. */
  function AlignUp(x: nat, k: Kind): (r: nat)
    ensures Aligned(r, k) && x <= r < x + Size(k)
  {
    match Size(k)
    case 1 => x
    case 2 => UpToEven(x)
    case 4 => UpToFour(x)
    case _ => UpToEight(x)
  }

  function UpToEven(x: nat): (r: nat)
    ensures r % 2 == 0 && x <= r < x + 2
  {
    (x + 1) / 2 * 2
  }

  function UpToFour(x: nat): (r: nat)
    ensures r % 4 == 0 && x <= r < x + 4
  {
    (x + 3) / 4 * 4
  }

  function UpToEight(x: nat): (r: nat)
    ensures r % 8 == 0 && x <= r < x + 8
  {
    (x + 7) / 8 * 8
  }

  predicate Aligned(x: int, k: Kind) {
    match Size(k) case 1 => true case 2 => x % 2 == 0 case 4 => x % 4 == 0 case _ => x % 8 == 0
  }

  /** `allocate_field`: the offset of the field, and the new value of the running offset. */
  method AllocateField(current: nat, k: Kind) returns (offset: nat, current': nat)
    ensures offset == AlignUp(current, k) && current' == offset + Size(k)
  {
    match Size(k) {
      case 1 => offset := current;
      case 2 => offset := UpToEven(current);
      case 4 => offset := UpToFour(current);
      case _ => offset := UpToEight(current);
    }
    current' := offset + Size(k);
  }

  // ---------- the order of allocation ----------

  /** Every field index occurs exactly once. */
  ghost predicate IsOrder(order: seq<nat>, n: nat) {
    && |order| == n && (forall j :: 0 <= j < n ==> order[j] < n)
    && (forall i, j :: 0 <= i < j < n ==> order[i] != order[j])
  }

  lemma InOrder(order: seq<nat>, n: nat, i: nat) returns (j: nat)
    requires IsOrder(order, n) && i < n
    ensures j < n && order[j] == i
  {
    var q: seq<int> := order;
    DepthFirst.DistinctCard(q);
    var s := set x | x in q;
    DepthFirst.SubsetCard(s, DepthFirst.Below(n));
    assert i in DepthFirst.Below(n);
    assert i in q;
    j :| 0 <= j < |q| && q[j] == i;
  }

  /** The indices below `n` of the fields of size `size`, in ascending order. */
  function OfSize(fields: seq<Field>, size: nat, n: nat): seq<nat>
    requires n <= |fields|
  {
    if n == 0 then []
    else if Size(fields[n - 1].kind) == size then OfSize(fields, size, n - 1) + [n - 1] else OfSize(fields, size, n - 1)
  }

  /** Largest fields first, fields of one size in declaration order. */
  function BySize(fields: seq<Field>): seq<nat> {
    OfSize(fields, 8, |fields|) + OfSize(fields, 4, |fields|) + OfSize(fields, 2, |fields|) + OfSize(fields, 1, |fields|)
  }

  lemma {:induction false} BucketSizes(fields: seq<Field>, n: nat)
    requires n <= |fields|
    ensures |OfSize(fields, 8, n)| + |OfSize(fields, 4, n)| + |OfSize(fields, 2, n)| + |OfSize(fields, 1, n)| == n
  {
    if n > 0 { BucketSizes(fields, n - 1); }
  }

  /** Distinct field indices, of sizes from `lo` to `hi`. */
  ghost predicate Picked(fields: seq<Field>, q: seq<nat>, lo: nat, hi: nat) {
    && (forall j :: 0 <= j < |q| ==> q[j] < |fields| && lo <= Size(fields[q[j]].kind) <= hi)
    && (forall i, j :: 0 <= i < j < |q| ==> q[i] != q[j])
  }

  lemma {:induction false} BucketFacts(fields: seq<Field>, size: nat, n: nat)
    requires n <= |fields|
    ensures Picked(fields, OfSize(fields, size, n), size, size)
    ensures forall j :: 0 <= j < |OfSize(fields, size, n)| ==> OfSize(fields, size, n)[j] < n
  {
    if n > 0 { BucketFacts(fields, size, n - 1); }
  }

  lemma JoinBuckets(fields: seq<Field>, q: seq<nat>, r: seq<nat>, lo: nat, size: nat)
    requires Picked(fields, q, lo, 8) && Picked(fields, r, size, size) && size < lo <= 8
    ensures Picked(fields, q + r, size, 8)
  {
    var s := q + r;
    forall i, j | 0 <= i < j < |s| ensures s[i] != s[j] {
      if i < |q| <= j { assert s[i] == q[i] && s[j] == r[j - |q|]; }
    }
  }

  lemma BySizeIsOrder(fields: seq<Field>)
    ensures IsOrder(BySize(fields), |fields|)
  {
    hide OfSize, Size;
    var n := |fields|;
    var a, b, c, d := OfSize(fields, 8, n), OfSize(fields, 4, n), OfSize(fields, 2, n), OfSize(fields, 1, n);
    BucketSizes(fields, n);
    BucketFacts(fields, 8, n);
    BucketFacts(fields, 4, n);
    BucketFacts(fields, 2, n);
    BucketFacts(fields, 1, n);
    JoinBuckets(fields, a, b, 8, 4);
    JoinBuckets(fields, a + b, c, 4, 2);
    JoinBuckets(fields, a + b + c, d, 2, 1);
  }

  /** `reorder_fields_for_compactness`: one bucket per size, emptied from the largest to the smallest. */
  method ReorderFields(fields: seq<Field>) returns (order: seq<nat>)
    ensures order == BySize(fields) && IsOrder(order, |fields|)
  {
    hide IsOrder;
    var b8, b4, b2, b1: seq<nat> := [], [], [], [];
    for i := 0 to |fields|
      invariant b8 == OfSize(fields, 8, i) && b4 == OfSize(fields, 4, i) && b2 == OfSize(fields, 2, i) && b1 == OfSize(fields, 1, i)
    {
      match Size(fields[i].kind) {
        case 8 => b8 := b8 + [i];
        case 4 => b4 := b4 + [i];
        case 2 => b2 := b2 + [i];
        case _ => b1 := b1 + [i];
      }
    }
    order := b8 + b4 + b2 + b1;
    BySizeIsOrder(fields);
  }

  function Declared(n: nat): (r: seq<nat>)
    ensures IsOrder(r, n) && forall j :: 0 <= j < n ==> r[j] == j
  {
    seq(n, j requires 0 <= j => j)
  }

  // ---------- offsets ----------

  /** The running offset of the static or instance fields after the first `n` fields of the order. */
  function Cursor(fields: seq<Field>, order: seq<nat>, n: nat, isStatic: bool, start: nat): nat
    requires n <= |order| && forall j :: 0 <= j < |order| ==> order[j] < |fields|
  {
    if n == 0 then start
    else
      var c, f := Cursor(fields, order, n - 1, isStatic, start), fields[order[n - 1]];
      if f.isStatic == isStatic then AlignUp(c, f.kind) + Size(f.kind) else c
  }

  /** Static fields are laid out from zero, instance fields from `base`. */
  function StartOf(isStatic: bool, base: nat): nat { if isStatic then 0 else base }

  ghost predicate LaidOut(fields: seq<Field>, order: seq<nat>, base: nat, offsets: seq<nat>) {
    && |offsets| == |fields| && IsOrder(order, |fields|)
    && forall j :: 0 <= j < |order| ==> OffsetAt(fields, order, base, offsets, j)
  }

  /** The static and the instance fields end at these offsets. */
  ghost predicate EndsAt(fields: seq<Field>, order: seq<nat>, base: nat, staticBytes: nat, instanceBytes: nat) {
    && (forall j :: 0 <= j < |order| ==> order[j] < |fields|)
    && staticBytes == Cursor(fields, order, |order|, true, 0) && instanceBytes == Cursor(fields, order, |order|, false, base)
  }

  ghost predicate OffsetAt(fields: seq<Field>, order: seq<nat>, base: nat, offsets: seq<nat>, j: nat)
    requires IsOrder(order, |fields|) && j < |order| && |offsets| == |fields|
  {
    var f := fields[order[j]];
    offsets[order[j]] == AlignUp(Cursor(fields, order, j, f.isStatic, StartOf(f.isStatic, base)), f.kind)
  }

  lemma {:induction false} CursorGrows(fields: seq<Field>, order: seq<nat>, m: nat, n: nat, isStatic: bool, start: nat)
    requires m <= n <= |order| && forall j :: 0 <= j < |order| ==> order[j] < |fields|
    ensures Cursor(fields, order, m, isStatic, start) <= Cursor(fields, order, n, isStatic, start)
  {
    if m < n { CursorGrows(fields, order, m, n - 1, isStatic, start); }
  }

  /** Where a field lies. */
  lemma FieldBounds(fields: seq<Field>, order: seq<nat>, base: nat, offsets: seq<nat>, i: nat) returns (j: nat)
    requires LaidOut(fields, order, base, offsets) && i < |fields|
    ensures j < |order| && order[j] == i && Aligned(offsets[i], fields[i].kind)
    ensures var s := fields[i].isStatic;
            && StartOf(s, base) <= Cursor(fields, order, j, s, StartOf(s, base)) <= offsets[i]
            && offsets[i] + Size(fields[i].kind) == Cursor(fields, order, j + 1, s, StartOf(s, base))
            && offsets[i] + Size(fields[i].kind) <= Cursor(fields, order, |order|, s, StartOf(s, base))
  {
    hide AlignUp, Size, Aligned;
    j := InOrder(order, |fields|, i);
    var s := fields[i].isStatic;
    CursorGrows(fields, order, 0, j, s, StartOf(s, base));
    CursorGrows(fields, order, j + 1, |order|, s, StartOf(s, base));
    assert OffsetAt(fields, order, base, offsets, j);
  }

  /** Two fields of the same storage do not overlap. */
  lemma FieldsDisjoint(fields: seq<Field>, order: seq<nat>, base: nat, offsets: seq<nat>, i: nat, k: nat)
    requires LaidOut(fields, order, base, offsets) && i < |fields| && k < |fields| && i != k && fields[i].isStatic == fields[k].isStatic
    ensures offsets[i] + Size(fields[i].kind) <= offsets[k] || offsets[k] + Size(fields[k].kind) <= offsets[i]
  {
    var a := FieldBounds(fields, order, base, offsets, i);
    var b := FieldBounds(fields, order, base, offsets, k);
    hide LaidOut, Cursor, Size;
    var s := fields[i].isStatic;
    OrderRange(fields, order, base, offsets);
    if a < b {
      CursorGrows(fields, order, a + 1, b, s, StartOf(s, base));
    } else {
      CursorGrows(fields, order, b + 1, a, s, StartOf(s, base));
    }
  }

  lemma OrderRange(fields: seq<Field>, order: seq<nat>, base: nat, offsets: seq<nat>)
    requires LaidOut(fields, order, base, offsets)
    ensures |offsets| == |fields| == |order| && forall j :: 0 <= j < |order| ==> order[j] < |fields|
  {
  }

  /** Assign offsets to all fields, in the given order. */
  method AssignOffsets(fields: seq<Field>, order: seq<nat>, base: nat) returns (offsets: seq<nat>, staticBytes: nat, instanceBytes: nat)
    requires IsOrder(order, |fields|)
    ensures LaidOut(fields, order, base, offsets)
    ensures staticBytes == Cursor(fields, order, |order|, true, 0) && instanceBytes == Cursor(fields, order, |order|, false, base)
  {
    hide AlignUp, Size;
    offsets := seq(|fields|, _ => 0);
    staticBytes, instanceBytes := 0, base;
    for n := 0 to |fields|
      invariant |offsets| == |fields|
      invariant staticBytes == Cursor(fields, order, n, true, 0) && instanceBytes == Cursor(fields, order, n, false, base)
      invariant forall j :: 0 <= j < n ==> OffsetAt(fields, order, base, offsets, j)
    {
      var f := fields[order[n]];
      var offset;
      if f.isStatic {
        offset, staticBytes := AllocateField(staticBytes, f.kind);
      } else {
        offset, instanceBytes := AllocateField(instanceBytes, f.kind);
      }
      ghost var was := offsets;
      offsets := offsets[order[n] := offset];
      forall j | 0 <= j < n + 1 ensures OffsetAt(fields, order, base, offsets, j) {
        if j < n { assert OffsetAt(fields, order, base, was, j); }
      }
    }
  }

  // ---------- class chains ----------

  datatype Placed = Placed(kind: Kind, offset: nat)

  /** All instance fields, inherited ones first and each class's in declaration order; the instance size; and the
      reference list, in 16-bit word indices. */
  datatype Layout = Layout(fields: seq<Placed>, bytes: nat, refs: seq<nat>)

  const OBJECT_HEADER := 16
  const U16 := 0x1_0000

  /** The instance fields among the first `n`. */
  function Own(fields: seq<Field>, offsets: seq<nat>, n: nat): seq<Placed>
    requires n <= |fields| == |offsets|
  {
    if n == 0 then []
    else
      var rest := Own(fields, offsets, n - 1);
      if fields[n - 1].isStatic then rest else rest + [Placed(fields[n - 1].kind, offsets[n - 1])]
  }

  /** The reference list that belongs to a list of fields. */
  function RefSlots(q: seq<Placed>): seq<nat> {
    if q == [] then []
    else
      var rest, f := RefSlots(q[..|q| - 1]), q[|q| - 1];
      if f.kind == Reference then rest + [f.offset / 8 % U16] else rest
  }

  lemma {:induction false} RefSlotsAppend(q: seq<Placed>, r: seq<Placed>)
    ensures RefSlots(q + r) == RefSlots(q) + RefSlots(r)
  {
    if r == [] {
      assert q + r == q;
    } else {
      assert (q + r)[..|q + r| - 1] == q + r[..|r| - 1];
      RefSlotsAppend(q, r[..|r| - 1]);
    }
  }

  ghost predicate Apart(f: Placed, g: Placed) {
    f.offset + Size(f.kind) <= g.offset || g.offset + Size(g.kind) <= f.offset
  }

  ghost predicate Within(f: Placed, lo: nat, hi: nat) {
    lo <= f.offset && f.offset + Size(f.kind) <= hi && Aligned(f.offset, f.kind)
  }

  /** Fields within `lo..hi`, aligned and pairwise disjoint. */
  ghost predicate Tidy(q: seq<Placed>, lo: nat, hi: nat) {
    && lo <= hi && (forall i :: 0 <= i < |q| ==> Within(q[i], lo, hi))
    && (forall i, j :: 0 <= i < j < |q| ==> Apart(q[i], q[j]))
  }

  ghost predicate LayoutOk(l: Layout) {
    Tidy(l.fields, OBJECT_HEADER, l.bytes) && l.refs == RefSlots(l.fields)
  }

  lemma TidyJoin(q: seq<Placed>, r: seq<Placed>, lo: nat, mid: nat, base: nat, hi: nat)
    requires Tidy(q, lo, mid) && Tidy(r, base, hi) && mid <= base
    ensures Tidy(q + r, lo, hi)
  {
    var s := q + r;
    forall i | 0 <= i < |s| ensures Within(s[i], lo, hi) {
      if i < |q| { assert Within(q[i], lo, mid); } else { assert Within(r[i - |q|], base, hi); }
    }
    forall i, j | 0 <= i < j < |s| ensures Apart(s[i], s[j]) {
      if i < |q| <= j {
        assert Within(q[i], lo, mid) && Within(r[j - |q|], base, hi);
      } else if |q| <= i {
        assert Apart(r[i - |q|], r[j - |q|]);
      }
    }
  }

  lemma {:induction false} OwnIndex(fields: seq<Field>, offsets: seq<nat>, n: nat, a: nat) returns (i: nat)
    requires n <= |fields| == |offsets| && a < |Own(fields, offsets, n)|
    ensures i < n && !fields[i].isStatic && Own(fields, offsets, n)[a] == Placed(fields[i].kind, offsets[i])
    ensures a == |Own(fields, offsets, i)|
  {
    if !fields[n - 1].isStatic && a == |Own(fields, offsets, n)| - 1 {
      i := n - 1;
    } else {
      i := OwnIndex(fields, offsets, n - 1, a);
    }
  }

  /** The own instance fields of a laid-out class are tidy. */
  lemma OwnTidy(fields: seq<Field>, order: seq<nat>, base: nat, offsets: seq<nat>)
    requires LaidOut(fields, order, base, offsets)
    ensures |offsets| == |fields| == |order| && forall j :: 0 <= j < |order| ==> order[j] < |fields|
    ensures Tidy(Own(fields, offsets, |fields|), base, Cursor(fields, order, |order|, false, base))
  {
    hide LaidOut, Own, Cursor;
    OrderRange(fields, order, base, offsets);
    var q, hi := Own(fields, offsets, |fields|), Cursor(fields, order, |order|, false, base);
    CursorGrows(fields, order, 0, |order|, false, base);
    CursorStart(fields, order, base);
    forall a | 0 <= a < |q| ensures Within(q[a], base, hi) {
      var i := OwnIndex(fields, offsets, |fields|, a);
      var j := FieldBounds(fields, order, base, offsets, i);
    }
    forall a, b | 0 <= a < b < |q| ensures Apart(q[a], q[b]) {
      var i := OwnIndex(fields, offsets, |fields|, a);
      var k := OwnIndex(fields, offsets, |fields|, b);
      FieldsDisjoint(fields, order, base, offsets, i, k);
    }
  }

  lemma CursorStart(fields: seq<Field>, order: seq<nat>, base: nat)
    requires forall j :: 0 <= j < |order| ==> order[j] < |fields|
    ensures Cursor(fields, order, 0, false, base) == base
  {
  }

  /** The layout part of `link_class`: `super` is the superclass's layout, if there is one. */
  method LinkLayout(super: seq<Layout>, padding: nat, cLayout: bool, fields: seq<Field>)
    returns (l: Layout, offsets: seq<nat>, staticRefs: seq<nat>, staticBytes: nat)
    requires |super| <= 1 && forall i :: 0 <= i < |super| ==> LayoutOk(super[i])
    ensures LayoutOk(l) && |offsets| == |fields|
    ensures var inherited := if super == [] then [] else super[0].fields;
            var bytes := if super == [] then OBJECT_HEADER else super[0].bytes;
            && l.fields == inherited + Own(fields, offsets, |fields|)
            && LaidOut(fields, if cLayout then Declared(|fields|) else BySize(fields), bytes + padding, offsets)
            && EndsAt(fields, if cLayout then Declared(|fields|) else BySize(fields), bytes + padding, staticBytes, l.bytes)
    ensures super != [] ==> |super[0].refs| <= |l.refs| && l.refs[..|super[0].refs|] == super[0].refs
    ensures forall s :: s in staticRefs <==> exists i :: 0 <= i < |fields| && IsStaticRef(fields[i]) && s == offsets[i] / 8 % U16
    ensures |staticRefs| == StaticRefs(fields, |fields|)
  {
    hide LaidOut, IsOrder, Tidy, BySize, Own, RefSlots, Cursor, Aligned, Size;
    var bytes := if super == [] then OBJECT_HEADER else super[0].bytes;
    ghost var inherited := if super == [] then [] else super[0].fields;
    var base := bytes + padding;
    var order;
    if cLayout {
      order := Declared(|fields|);
    } else {
      order := ReorderFields(fields);
    }
    var instanceBytes;
    offsets, staticBytes, instanceBytes := AssignOffsets(fields, order, base);
    OrderRange(fields, order, base, offsets);
    assert EndsAt(fields, order, base, staticBytes, instanceBytes);
    OwnTidy(fields, order, base, offsets);
    var superRefs := if super == [] then [] else super[0].refs;
    var refs := superRefs;
    staticRefs := [];
    OwnNone(fields, offsets);
    for i := 0 to |fields|
      invariant refs == superRefs + RefSlots(Own(fields, offsets, i))
      invariant forall s :: s in staticRefs <==> exists k :: 0 <= k < i && IsStaticRef(fields[k]) && s == offsets[k] / 8 % U16
      invariant |staticRefs| == StaticRefs(fields, i)
    {
      OwnNext(fields, offsets, i);
      if fields[i].kind == Reference {
        if fields[i].isStatic {
          staticRefs := staticRefs + [offsets[i] / 8 % U16];
        } else {
          refs := refs + [offsets[i] / 8 % U16];
        }
      }
    }
    l := Layout((if super == [] then [] else super[0].fields) + Own(fields, offsets, |fields|), instanceBytes, refs);
    EmptyTidy();
    TidyJoin(inherited, Own(fields, offsets, |fields|), OBJECT_HEADER, bytes, base, instanceBytes);
    RefSlotsAppend(inherited, Own(fields, offsets, |fields|));
    assert l.fields == inherited + Own(fields, offsets, |fields|);
  }

  predicate IsStaticRef(f: Field) { f.isStatic && f.kind == Reference }

  /** How many of the first `n` fields are static references. */
  function StaticRefs(fields: seq<Field>, n: nat): nat
    requires n <= |fields|
  {
    if n == 0 then 0 else StaticRefs(fields, n - 1) + if IsStaticRef(fields[n - 1]) then 1 else 0
  }

  lemma EmptyTidy()
    ensures Tidy([], OBJECT_HEADER, OBJECT_HEADER) && RefSlots([]) == []
  {
  }

  lemma OwnNone(fields: seq<Field>, offsets: seq<nat>)
    requires |fields| == |offsets|
    ensures RefSlots(Own(fields, offsets, 0)) == []
  {
  }

  lemma OwnNext(fields: seq<Field>, offsets: seq<nat>, i: nat)
    requires i < |fields| == |offsets|
    ensures RefSlots(Own(fields, offsets, i + 1)) ==
            RefSlots(Own(fields, offsets, i)) + if !fields[i].isStatic && fields[i].kind == Reference then [offsets[i] / 8 % U16] else []
  {
    var q := Own(fields, offsets, i);
    if !fields[i].isStatic { assert (q + [Placed(fields[i].kind, offsets[i])])[..|q|] == q; }
  }

  // ---------- the reference list ----------

  /** Word indices of all reference fields fit in sixteen bits. */
  ghost predicate Indexable(q: seq<Placed>) {
    forall i :: 0 <= i < |q| && q[i].kind == Reference ==> q[i].offset < 8 * U16
  }

  /** The list names every reference field exactly once, and nothing else. */
  ghost predicate Exact(q: seq<Placed>) {
    && (forall s :: s in RefSlots(q) <==> NamesField(q, s))
    && (forall i, j :: 0 <= i < j < |RefSlots(q)| ==> RefSlots(q)[i] != RefSlots(q)[j])
  }

  ghost predicate NamesField(q: seq<Placed>, s: nat) {
    exists i :: 0 <= i < |q| && q[i].kind == Reference && q[i].offset == 8 * s
  }

  /** The reference list is exact if and only if the word indices of all reference fields fit in sixteen bits. */
  lemma RefsExact(q: seq<Placed>, lo: nat, hi: nat)
    requires Tidy(q, lo, hi)
    ensures Exact(q) <==> Indexable(q)
  {
    if Indexable(q) { IndexableIsExact(q, lo, hi); }
    if Exact(q) {
      forall i | 0 <= i < |q| && q[i].kind == Reference ensures q[i].offset < 8 * U16 {
        assert Within(q[i], lo, hi);
        var s := q[i].offset / 8;
        assert q[i].offset == 8 * s;
        assert NamesField(q, s);
        SlotsSmall(q, s);
      }
    }
  }

  lemma {:induction false} SlotsSmall(q: seq<Placed>, s: nat)
    requires s in RefSlots(q)
    ensures s < U16
  {
    var n := |q| - 1;
    if s in RefSlots(q[..n]) { SlotsSmall(q[..n], s); }
  }

  lemma {:induction false} IndexableIsExact(q: seq<Placed>, lo: nat, hi: nat)
    requires Tidy(q, lo, hi) && Indexable(q)
    ensures Exact(q)
  {
    if q != [] {
      var n := |q| - 1;
      var r, f := q[..n], q[n];
      TidyPrefix(q, lo, hi);
      IndexableIsExact(r, lo, hi);
      hide Tidy, Exact;
      if f.kind == Reference {
        LastApart(q, lo, hi);
        LastSlot(q, lo, hi);
      }
      SlotsSnoc(r, f, q);
    } else {
      assert RefSlots(q) == [];
    }
  }

  lemma TidyPrefix(q: seq<Placed>, lo: nat, hi: nat)
    requires Tidy(q, lo, hi) && q != []
    ensures Tidy(q[..|q| - 1], lo, hi)
  {
  }

  lemma LastSlot(q: seq<Placed>, lo: nat, hi: nat)
    requires Tidy(q, lo, hi) && q != [] && q[|q| - 1].kind == Reference && q[|q| - 1].offset < 8 * U16
    ensures var f := q[|q| - 1]; f.offset / 8 % U16 == f.offset / 8 && 8 * (f.offset / 8) == f.offset
  {
    assert Within(q[|q| - 1], lo, hi);
  }

  lemma LastApart(q: seq<Placed>, lo: nat, hi: nat)
    requires Tidy(q, lo, hi) && q != [] && q[|q| - 1].kind == Reference
    ensures forall i :: 0 <= i < |q| - 1 ==> q[i].offset != q[|q| - 1].offset
  {
    forall i | 0 <= i < |q| - 1 ensures q[i].offset != q[|q| - 1].offset { assert Apart(q[i], q[|q| - 1]); }
  }

  lemma SlotsSnoc(r: seq<Placed>, f: Placed, q: seq<Placed>)
    requires q == r + [f] && Exact(r)
    requires f.kind == Reference ==>
               f.offset / 8 % U16 == f.offset / 8 && 8 * (f.offset / 8) == f.offset && forall i :: 0 <= i < |r| ==> r[i].offset != f.offset
    ensures Exact(q)
  {
    assert q[..|r|] == r;
    var a, b := RefSlots(r), RefSlots(q);
    assert b == a + if f.kind == Reference then [f.offset / 8] else [];
    hide RefSlots;
    forall s: nat ensures s in b <==> NamesField(q, s) {
      NamesSnoc(r, f, q, s);
    }
    if f.kind == Reference { assert !NamesField(r, f.offset / 8); }
  }

  lemma NamesSnoc(r: seq<Placed>, f: Placed, q: seq<Placed>, s: nat)
    requires q == r + [f]
    ensures NamesField(q, s) <==> NamesField(r, s) || (f.kind == Reference && f.offset == 8 * s)
  {
    if NamesField(r, s) {
      var i :| 0 <= i < |r| && r[i].kind == Reference && r[i].offset == 8 * s;
      assert q[i] == r[i];
    }
    assert q[|r|] == f;
  }

  /** A laid-out class whose reference fields can be indexed is one that the collector can work with. */
  lemma LayoutForCollector(l: Layout)
    requires LayoutOk(l) && Indexable(l.fields)
    ensures Memory.ClassOk(Memory.Ordinary(l.bytes, l.refs, false))
  {
    hide Tidy, RefSlots;
    RefsExact(l.fields, OBJECT_HEADER, l.bytes);
    TidyBounds(l);
    forall a | 0 <= a < |l.refs| ensures 2 <= l.refs[a] && 8 * l.refs[a] + 8 <= l.bytes {
      assert l.refs[a] in l.refs;
      var i :| 0 <= i < |l.fields| && l.fields[i].kind == Reference && l.fields[i].offset == 8 * l.refs[a];
      assert Within(l.fields[i], OBJECT_HEADER, l.bytes);
    }
  }

  lemma TidyBounds(l: Layout)
    requires LayoutOk(l)
    ensures OBJECT_HEADER <= l.bytes && forall i :: 0 <= i < |l.fields| ==> Within(l.fields[i], OBJECT_HEADER, l.bytes)
  {
  }

  /** With nothing but references among the instance fields, declaration order puts them one after another. */
  lemma {:induction false} PlainCursor(fields: seq<Field>, offsets: seq<nat>, n: nat)
    requires n <= |fields| == |offsets| && forall i :: 0 <= i < |fields| && !fields[i].isStatic ==> fields[i].kind == Reference
    ensures Cursor(fields, Declared(|fields|), n, false, OBJECT_HEADER) == OBJECT_HEADER + 8 * |Own(fields, offsets, n)|
  {
    if n > 0 {
      PlainCursor(fields, offsets, n - 1);
      assert Declared(|fields|)[n - 1] == n - 1;
    }
  }

  /** java.lang.ref.Reference, whose four instance fields are references laid out in declaration order directly above
      the object header, has its referent in word 2, first in the list, and its discovered link in word 5. */
  lemma ReferenceClass(fields: seq<Field>, offsets: seq<nat>, l: Layout)
    requires LaidOut(fields, Declared(|fields|), OBJECT_HEADER, offsets) && l.fields == Own(fields, offsets, |fields|) && LayoutOk(l)
    requires (forall i :: 0 <= i < |fields| && !fields[i].isStatic ==> fields[i].kind == Reference) && |l.fields| == 4
    ensures l.refs == [Memory.REFERENT, 3, 4, Memory.DISCOVERED]
  {
    forall a | 0 <= a < 4 ensures l.fields[a] == Placed(Reference, OBJECT_HEADER + 8 * a) {
      var i := OwnIndex(fields, offsets, |fields|, a);
      PlainCursor(fields, offsets, i);
      assert OffsetAt(fields, Declared(|fields|), OBJECT_HEADER, offsets, i);
    }
    assert l.fields == [Placed(Reference, 16), Placed(Reference, 24), Placed(Reference, 32), Placed(Reference, 40)];
    FourSlots();
  }

  lemma FourSlots()
    ensures RefSlots([Placed(Reference, 16), Placed(Reference, 24), Placed(Reference, 32), Placed(Reference, 40)]) == [2, 3, 4, 5]
  {
    hide RefSlots;
    OneSlot([], 16);
    OneSlot([Placed(Reference, 16)], 24);
    OneSlot([Placed(Reference, 16), Placed(Reference, 24)], 32);
    OneSlot([Placed(Reference, 16), Placed(Reference, 24), Placed(Reference, 32)], 40);
    assert RefSlots([]) == [] by { NoSlots(); }
    assert [] + [Placed(Reference, 16)] == [Placed(Reference, 16)];
    assert [Placed(Reference, 16)] + [Placed(Reference, 24)] == [Placed(Reference, 16), Placed(Reference, 24)];
    assert [Placed(Reference, 16), Placed(Reference, 24)] + [Placed(Reference, 32)]
           == [Placed(Reference, 16), Placed(Reference, 24), Placed(Reference, 32)];
    assert [Placed(Reference, 16), Placed(Reference, 24), Placed(Reference, 32)] + [Placed(Reference, 40)]
           == [Placed(Reference, 16), Placed(Reference, 24), Placed(Reference, 32), Placed(Reference, 40)];
  }

  lemma NoSlots()
    ensures RefSlots([]) == []
  {
  }

  lemma OneSlot(q: seq<Placed>, offset: nat)
    requires offset < 8 * U16
    ensures RefSlots(q + [Placed(Reference, offset)]) == RefSlots(q) + [offset / 8]
  {
    var f := Placed(Reference, offset);
    assert (q + [f])[..|q + [f]| - 1] == q;
  }

  /** A class declaration: padding for internal fields, whether declaration order is kept, and the declared fields. */
  datatype Decl = Decl(padding: nat, cLayout: bool, fields: seq<Field>)

  /** `layouts[i]` is the layout of the i-th class of a chain, each a direct subclass of the one before: it is tidy, and extends
      the fields and the reference list of every class above it. */
  ghost predicate IsChain(layouts: seq<Layout>) {
    && (forall i :: 0 <= i < |layouts| ==> LayoutOk(layouts[i]))
    && (forall i, j :: 0 <= i <= j < |layouts| ==> Extends(layouts[i], layouts[j]))
  }

  ghost predicate Extends(k: Layout, l: Layout) {
    && |k.refs| <= |l.refs| && l.refs[..|k.refs|] == k.refs
    && |k.fields| <= |l.fields| && l.fields[..|k.fields|] == k.fields
  }

  lemma ExtendsTrans(k: Layout, l: Layout, n: Layout)
    requires Extends(k, l) && Extends(l, n)
    ensures Extends(k, n)
  {
    assert n.refs[..|k.refs|] == n.refs[..|l.refs|][..|k.refs|];
    assert n.fields[..|k.fields|] == n.fields[..|l.fields|][..|k.fields|];
  }

  /** Link a whole chain of classes, the topmost first. */
  method LinkChain(decls: seq<Decl>) returns (layouts: seq<Layout>)
    ensures |layouts| == |decls| && IsChain(layouts)
    ensures forall i :: 0 <= i < |decls| ==> LinkedFrom(layouts, i, decls[i])
  {
    hide LayoutOk, Extends, LaidOut, EndsAt, Own, BySize, Declared, LinkedFrom;
    layouts := [];
    for i := 0 to |decls|
      invariant |layouts| == i && IsChain(layouts)
      invariant forall k :: 0 <= k < i ==> LinkedFrom(layouts, k, decls[k])
    {
      ghost var was := layouts;
      var l, offsets, staticRefs, staticBytes :=
        LinkLayout(if i == 0 then [] else [layouts[i - 1]], decls[i].padding, decls[i].cLayout, decls[i].fields);
      layouts := layouts + [l];
      SelfExtends(l);
      if i > 0 { LinkExtends(was[i - 1], l, decls[i].fields, offsets); }
      forall k | 0 <= k < i + 1 ensures Extends(layouts[k], l) {
        if k < i { ExtendsTrans(was[k], was[i - 1], l); }
      }
      forall k | 0 <= k < i + 1 ensures LinkedFrom(layouts, k, decls[k]) {
        if k < i { LinkedKept(was, l, k, decls[k]); } else { LinkedHere(layouts, i, decls[i], offsets); }
      }
    }
  }

  /** The i-th layout adds the declared fields to the one above it. */
  ghost predicate LinkedFrom(layouts: seq<Layout>, i: nat, d: Decl) {
    i < |layouts| && exists offsets: seq<nat> :: LinkedBy(layouts, i, d, offsets)
  }

  ghost predicate LinkedBy(layouts: seq<Layout>, i: nat, d: Decl, offsets: seq<nat>)
    requires i < |layouts|
  {
    var inherited, bytes := if i == 0 then [] else layouts[i - 1].fields, if i == 0 then OBJECT_HEADER else layouts[i - 1].bytes;
    && |offsets| == |d.fields| && layouts[i].fields == inherited + Own(d.fields, offsets, |d.fields|)
    && LaidOut(d.fields, if d.cLayout then Declared(|d.fields|) else BySize(d.fields), bytes + d.padding, offsets)
  }

  lemma LinkedKept(layouts: seq<Layout>, l: Layout, k: nat, d: Decl)
    requires LinkedFrom(layouts, k, d)
    ensures LinkedFrom(layouts + [l], k, d)
  {
    hide LaidOut, Own, Declared, BySize;
    var offsets: seq<nat> :| LinkedBy(layouts, k, d, offsets);
    assert (layouts + [l])[k] == layouts[k] && (k > 0 ==> (layouts + [l])[k - 1] == layouts[k - 1]);
    assert LinkedBy(layouts + [l], k, d, offsets);
  }

  lemma LinkedHere(layouts: seq<Layout>, i: nat, d: Decl, offsets: seq<nat>)
    requires i < |layouts| && LinkedBy(layouts, i, d, offsets)
    ensures LinkedFrom(layouts, i, d)
  {
  }

  lemma SelfExtends(l: Layout)
    ensures Extends(l, l)
  {
  }

  lemma LinkExtends(k: Layout, l: Layout, fields: seq<Field>, offsets: seq<nat>)
    requires |fields| == |offsets| && l.fields == k.fields + Own(fields, offsets, |fields|)
    requires |k.refs| <= |l.refs| && l.refs[..|k.refs|] == k.refs
    ensures Extends(k, l)
  {
  }

  /** In every chain through java.lang.ref.Reference, the slot that the marker skips is the referent in every subclass too. */
  lemma ReferenceSubclass(layouts: seq<Layout>, decls: seq<Decl>, j: nat)
    requires |decls| == |layouts| && IsChain(layouts) && 1 <= j < |layouts|
    requires forall i :: 0 <= i < |decls| ==> LinkedFrom(layouts, i, decls[i])
    requires layouts[0].fields == [] && layouts[0].bytes == OBJECT_HEADER && |layouts[1].fields| == 4
    requires decls[1].padding == 0 && decls[1].cLayout
    requires forall i :: 0 <= i < |decls[1].fields| && !decls[1].fields[i].isStatic ==> decls[1].fields[i].kind == Reference
    requires Indexable(layouts[j].fields)
    ensures Memory.ClassOk(Memory.Ordinary(layouts[j].bytes, layouts[j].refs, true))
  {
    hide LayoutOk, LaidOut, Own, IsChain, Indexable, LinkedBy;
    InChain(layouts, 1, j);
    assert LinkedFrom(layouts, 1, decls[1]);
    var offsets: seq<nat> :| LinkedBy(layouts, 1, decls[1], offsets);
    FirstOwn(layouts, decls[1], offsets);
    ReferenceClass(decls[1].fields, offsets, layouts[1]);
    LayoutForCollector(layouts[j]);
    var refs := layouts[j].refs;
    assert refs[0] == refs[..4][0] && refs[3] == refs[..4][3];
  }

  lemma InChain(layouts: seq<Layout>, i: nat, j: nat)
    requires IsChain(layouts) && i <= j < |layouts|
    ensures LayoutOk(layouts[i]) && LayoutOk(layouts[j]) && Extends(layouts[i], layouts[j])
  {
  }

  /** The class below an empty one starts behind the object header, in declaration order if it asks for that. */
  lemma FirstOwn(layouts: seq<Layout>, d: Decl, offsets: seq<nat>)
    requires 1 < |layouts| && LinkedBy(layouts, 1, d, offsets) && d.padding == 0 && d.cLayout
    requires layouts[0].fields == [] && layouts[0].bytes == OBJECT_HEADER
    ensures LaidOut(d.fields, Declared(|d.fields|), OBJECT_HEADER, offsets) && layouts[1].fields == Own(d.fields, offsets, |d.fields|)
  {
    assert [] + Own(d.fields, offsets, |d.fields|) == Own(d.fields, offsets, |d.fields|);
  }

  // ---------- where sixteen bits are not enough ----------

  lemma {:induction false} AllEight(fields: seq<Field>, n: nat)
    requires n <= |fields| && forall i :: 0 <= i < |fields| ==> fields[i] == Field(Reference, false)
    ensures OfSize(fields, 8, n) == Declared(n)
    ensures OfSize(fields, 4, n) == [] && OfSize(fields, 2, n) == [] && OfSize(fields, 1, n) == []
  {
    if n > 0 {
      AllEight(fields, n - 1);
      assert Declared(n) == Declared(n - 1) + [n - 1];
    }
  }

  /** A class of 65535 reference fields: the last one is listed as word 0, the object header. */
  lemma ListsTheHeader(fields: seq<Field>, offsets: seq<nat>)
    requires |fields| == U16 - 1 && forall i :: 0 <= i < |fields| ==> fields[i] == Field(Reference, false)
    requires LaidOut(fields, BySize(fields), OBJECT_HEADER, offsets)
    ensures offsets[U16 - 2] == 8 * U16 && offsets[U16 - 2] / 8 % U16 == 0
  {
    AllEight(fields, |fields|);
    assert BySize(fields) == Declared(|fields|);
    var i := U16 - 2;
    PlainCursor(fields, offsets, i);
    AllOwn(fields, offsets, i);
    assert OffsetAt(fields, BySize(fields), OBJECT_HEADER, offsets, i);
  }

  lemma {:induction false} AllOwn(fields: seq<Field>, offsets: seq<nat>, n: nat)
    requires n <= |fields| == |offsets| && forall i :: 0 <= i < |fields| ==> !fields[i].isStatic
    ensures |Own(fields, offsets, n)| == n
  {
    if n > 0 { AllOwn(fields, offsets, n - 1); }
  }
}
