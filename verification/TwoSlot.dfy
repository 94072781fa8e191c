/** The operand stack and local variables of the Java Virtual Machine Specification (sections 2.6.1, 2.6.2, 2.11.1 and 6.5),
    where a long or double takes two slots. */
module TwoSlot {
  import opened Wrappers

  datatype Kind = Int | Float | Reference | Long | Double

  datatype Value = Value(kind: Kind, bits: int)

  predicate Wide(k: Kind) { k == Long || k == Double }

  datatype Op = Pop | Pop2 | Swap | Dup | DupX1 | DupX2 | Dup2 | Dup2X1 | Dup2X2

  /** A slot holds a category 1 value or one half of a category 2 value. */
  datatype Slot = Unset | Whole(v: Value) | First(v: Value) | Second(v: Value)

  function Slots(v: Value): seq<Slot> {
    if Wide(v.kind) then [First(v), Second(v)] else [Whole(v)]
  }

  /** Section 2.6.1: a long or a double takes two slots, any other value one. */
  lemma CategoryIs(v: Value)
    ensures |Slots(v)| == if v.kind in {Long, Double} then 2 else 1
  {
  }

  function Expand(vs: seq<Value>): (r: seq<Slot>)
    ensures |vs| <= |r|
  {
    if vs == [] then [] else Expand(vs[..|vs| - 1]) + Slots(vs[|vs| - 1])
  }

  // ---------- operations on anonymous entries ----------

  /** How many entries a `dup` form copies, and beneath how many others it puts the copy. */
  function Copies(op: Op): nat {
    match op case Dup => 1 case DupX1 => 1 case DupX2 => 1 case Dup2 => 2 case Dup2X1 => 2 case Dup2X2 => 2 case _ => 0
  }

  function Beneath(op: Op): nat {
    match op case DupX1 => 1 case Dup2X1 => 1 case DupX2 => 2 case Dup2X2 => 2 case _ => 0
  }

  function Drops(op: Op): nat {
    match op case Pop => 1 case Pop2 => 2 case _ => 0
  }

  function Needs(op: Op): nat {
    if op == Swap then 2 else Copies(op) + Beneath(op) + Drops(op)
  }

  /** Copy the top `n` entries beneath the `d` entries below them. */
  function CopyBeneath<T>(s: seq<T>, n: nat, d: nat): seq<T>
    requires n + d <= |s|
  {
    s[..|s| - n - d] + s[|s| - n..] + s[|s| - n - d..]
  }

  /** The effect of an operation on a stack whose entries all have the same size. */
  function Shuffle<T>(op: Op, s: seq<T>): seq<T>
    requires Needs(op) <= |s|
  {
    if op == Swap then s[..|s| - 2] + [s[|s| - 1], s[|s| - 2]]
    else CopyBeneath(s[..|s| - Drops(op)], Copies(op), Beneath(op))
  }

  // ---------- the forms of section 6.5 ----------

  function Kinds(vs: seq<Value>): (ks: seq<Kind>)
    ensures |ks| == |vs| && forall i :: 0 <= i < |vs| ==> ks[i] == vs[i].kind
  {
    seq(|vs|, i requires 0 <= i < |vs| => vs[i].kind)
  }

  /** Whether the i-th value from the top, counted from 1, is of category 1, or of category 2. */
  predicate Cat1(ks: seq<Kind>, i: nat) { 1 <= i <= |ks| && !Wide(ks[|ks| - i]) }
  predicate Cat2(ks: seq<Kind>, i: nat) { 1 <= i <= |ks| && Wide(ks[|ks| - i]) }

  /** The stack after `op`, for the form that the categories of the top values select; none if no form applies. */
  function Form(op: Op, vs: seq<Value>): Option<seq<Value>> {
    var n, ks := |vs|, Kinds(vs);
    match op
    case Pop => if Cat1(ks, 1) then Some(vs[..n - 1]) else None
    case Pop2 =>
      if Cat1(ks, 1) && Cat1(ks, 2) then Some(vs[..n - 2])
      else if Cat2(ks, 1) then Some(vs[..n - 1]) else None
    case Swap => if Cat1(ks, 1) && Cat1(ks, 2) then Some(vs[..n - 2] + [vs[n - 1], vs[n - 2]]) else None
    case Dup => if Cat1(ks, 1) then Some(vs + [vs[n - 1]]) else None
    case DupX1 => if Cat1(ks, 1) && Cat1(ks, 2) then Some(vs[..n - 2] + [vs[n - 1], vs[n - 2], vs[n - 1]]) else None
    case DupX2 =>
      if Cat1(ks, 1) && Cat1(ks, 2) && Cat1(ks, 3) then Some(vs[..n - 3] + [vs[n - 1], vs[n - 3], vs[n - 2], vs[n - 1]])
      else if Cat1(ks, 1) && Cat2(ks, 2) then Some(vs[..n - 2] + [vs[n - 1], vs[n - 2], vs[n - 1]]) else None
    case Dup2 =>
      if Cat1(ks, 1) && Cat1(ks, 2) then Some(vs + [vs[n - 2], vs[n - 1]])
      else if Cat2(ks, 1) then Some(vs + [vs[n - 1]]) else None
    case Dup2X1 =>
      if Cat1(ks, 1) && Cat1(ks, 2) && Cat1(ks, 3) then Some(vs[..n - 3] + [vs[n - 2], vs[n - 1], vs[n - 3], vs[n - 2], vs[n - 1]])
      else if Cat2(ks, 1) && Cat1(ks, 2) then Some(vs[..n - 2] + [vs[n - 1], vs[n - 2], vs[n - 1]]) else None
    case Dup2X2 =>
      if Cat1(ks, 1) && Cat1(ks, 2) && Cat1(ks, 3) && Cat1(ks, 4) then
        Some(vs[..n - 4] + [vs[n - 2], vs[n - 1], vs[n - 4], vs[n - 3], vs[n - 2], vs[n - 1]])
      else if Cat2(ks, 1) && Cat1(ks, 2) && Cat1(ks, 3) then Some(vs[..n - 3] + [vs[n - 1], vs[n - 3], vs[n - 2], vs[n - 1]])
      else if Cat1(ks, 1) && Cat1(ks, 2) && Cat2(ks, 3) then Some(vs[..n - 3] + [vs[n - 2], vs[n - 1], vs[n - 3], vs[n - 2], vs[n - 1]])
      else if Cat2(ks, 1) && Cat2(ks, 2) then Some(vs[..n - 2] + [vs[n - 1], vs[n - 2], vs[n - 1]]) else None
  }

  // ---------- how many values make up so many slots ----------

  /** The number of values that make up exactly the top `n` slots, if no value is split. */
  function Count(ks: seq<Kind>, n: nat): (r: Option<nat>)
    ensures r.Some? ==> r.value <= |ks| && r.value <= n
  {
    if n == 0 then Some(0)
    else if ks == [] then None
    else
      var top := ks[|ks| - 1];
      if Wide(top) && n == 1 then None
      else
        var rest := Count(ks[..|ks| - 1], if Wide(top) then n - 2 else n - 1);
        if rest.None? then None else Some(1 + rest.value)
  }

  /** The operation that copies `k` entries beneath `d`. */
  function Copying(k: nat, d: nat): Op {
    if k <= 1 then (if d == 0 then Dup else if d == 1 then DupX1 else DupX2)
    else (if d == 0 then Dup2 else if d == 1 then Dup2X1 else Dup2X2)
  }

  /** No value is split: the cuts that `op` makes in the two-slot stack fall between values. */
  predicate Unsplit(op: Op, ks: seq<Kind>) {
    if op == Swap then Cat1(ks, 1) && Cat1(ks, 2)
    else
      var n := Drops(op) + Copies(op);
      Count(ks, n).Some? && Count(ks[..|ks| - Count(ks, n).value], Beneath(op)).Some?
  }

  /** The operation that does on one-slot values what `op` does on two-slot values: it handles as many values
      as there are in the slots that `op` handles. */
  function Collapsed(op: Op, ks: seq<Kind>): (r: Op)
    requires Unsplit(op, ks)
    ensures Needs(r) <= |ks|
  {
    if op == Swap then Swap
    else
      var n := Drops(op) + Copies(op);
      var k := Count(ks, n).value;
      if Drops(op) > 0 then (if k == 1 then Pop else Pop2)
      else Copying(k, Count(ks[..|ks| - k], Beneath(op)).value)
  }

  // ---------- the forms are slot shuffles, and collapse to value shuffles ----------

  lemma {:induction false} ExpandAppend(a: seq<Value>, b: seq<Value>)
    ensures Expand(a + b) == Expand(a) + Expand(b)
  {
    if b != [] {
      var c := b[..|b| - 1];
      assert (a + b)[..|a + b| - 1] == a + c;
      ExpandAppend(a, c);
    } else {
      assert a + b == a;
    }
  }

  lemma KindsSlice(vs: seq<Value>, k: nat)
    requires k <= |vs|
    ensures Kinds(vs)[..k] == Kinds(vs[..k])
  {
  }

  /** The counted values expand to exactly `n` slots. */
  lemma {:induction false} CountExpands(vs: seq<Value>, n: nat, k: nat)
    requires Count(Kinds(vs), n) == Some(k) && k <= |vs|
    ensures |Expand(vs[|vs| - k..])| == n && (n > 0 ==> k > 0)
  {
    hide Count, Expand;
    CountTop(Kinds(vs), n, k);
    var last := vs[|vs| - k..];
    ExpandTop(last);
    if n > 0 {
      var init := vs[..|vs| - 1];
      KindsSlice(vs, |vs| - 1);
      CountExpands(init, n - Width(Kinds(vs)[|vs| - 1]), k - 1);
      assert last[..|last| - 1] == init[|init| - (k - 1)..];
    }
  }

  function Width(k: Kind): nat { if Wide(k) then 2 else 1 }

  lemma CountTop(ks: seq<Kind>, n: nat, k: nat)
    requires Count(ks, n) == Some(k)
    ensures n == 0 ==> k == 0
    ensures n > 0 ==> && 0 < k <= |ks| && Width(ks[|ks| - 1]) <= n
                      && Count(ks[..|ks| - 1], n - Width(ks[|ks| - 1])) == Some(k - 1)
  {
  }

  lemma ExpandTop(vs: seq<Value>)
    ensures vs == [] ==> Expand(vs) == []
    ensures vs != [] ==> |Expand(vs)| == |Expand(vs[..|vs| - 1])| + Width(vs[|vs| - 1].kind)
  {
  }

  /** Cutting the two-slot stack where a value ends. */
  lemma ExpandSplit(vs: seq<Value>, n: nat, k: nat)
    requires Count(Kinds(vs), n) == Some(k) && k <= |vs|
    ensures var s := Expand(vs);
            n <= |s| && Expand(vs[..|vs| - k]) == s[..|s| - n] && Expand(vs[|vs| - k..]) == s[|s| - n..]
  {
    hide Expand, Count;
    CountExpands(vs, n, k);
    ExpandAppend(vs[..|vs| - k], vs[|vs| - k..]);
    assert vs[..|vs| - k] + vs[|vs| - k..] == vs;
  }

  lemma CopyPieces<T>(a: seq<T>, b: seq<T>, c: seq<T>)
    ensures CopyBeneath(a + b + c, |c|, |b|) == (a + c) + (b + c)
  {
  }

  lemma ExpandCopy(vs: seq<Value>, n: nat, d: nat, k: nat, e: nat)
    requires Count(Kinds(vs), n) == Some(k) && k <= |vs| && Count(Kinds(vs)[..|vs| - k], d) == Some(e)
    ensures k + e <= |vs| && n + d <= |Expand(vs)| && Expand(CopyBeneath(vs, k, e)) == CopyBeneath(Expand(vs), n, d)
  {
    hide Expand, Count, CopyBeneath;
    var s, rest := Expand(vs), vs[..|vs| - k];
    KindsSlice(vs, |vs| - k);
    ExpandSplit(vs, n, k);
    ExpandSplit(rest, d, e);
    var a, b, c := rest[..|rest| - e], rest[|rest| - e..], vs[|vs| - k..];
    ExpandAppend(a + c, b + c);
    ExpandAppend(a, c);
    ExpandAppend(b, c);
    CopyPieces(a, b, c);
    CopyPieces(Expand(a), Expand(b), Expand(c));
    assert vs == a + b + c;
    assert s == Expand(a) + Expand(b) + Expand(c);
  }

  lemma NoCopy<T>(s: seq<T>)
    ensures CopyBeneath(s, 0, 0) == s && s[..|s| - 0] == s
  {
  }

  /** Shuffling two-slot values slot by slot is shuffling one-slot values with the collapsed operation. */
  lemma CollapseCommutes(op: Op, vs: seq<Value>)
    requires Unsplit(op, Kinds(vs))
    ensures Needs(op) <= |Expand(vs)| && Expand(Shuffle(Collapsed(op, Kinds(vs)), vs)) == Shuffle(op, Expand(vs))
  {
    if op == Swap {
      SwapCommutes(vs);
    } else if Drops(op) > 0 {
      DropCommutes(op, vs);
    } else {
      CopyCommutes(op, vs);
    }
  }

  /** `op` copies `k` whole values beneath `d` whole values. */
  predicate CopiesValues(op: Op, ks: seq<Kind>, k: nat, d: nat) {
    Copies(op) > 0 && k <= |ks| && Count(ks, Copies(op)) == Some(k) && Count(ks[..|ks| - k], Beneath(op)) == Some(d)
  }

  lemma ValuesCopied(op: Op, ks: seq<Kind>) returns (k: nat, d: nat)
    requires Copies(op) > 0 && Unsplit(op, ks)
    ensures CopiesValues(op, ks, k, d)
  {
    hide Count;
    k := Count(ks, Copies(op)).value;
    d := Count(ks[..|ks| - k], Beneath(op)).value;
  }

  lemma CopyingIs(k: nat, d: nat)
    requires 0 < k <= 2 && d <= 2
    ensures var r := Copying(k, d); Copies(r) == k && Beneath(r) == d && Drops(r) == 0 && r != Swap
  {
  }

  /** What the collapsed form of a copying operation copies. */
  lemma CollapsedCopies(op: Op, ks: seq<Kind>, k: nat, d: nat)
    requires CopiesValues(op, ks, k, d)
    ensures 0 < k <= 2 && d <= 2 && k + d <= |ks| && Unsplit(op, ks) && Collapsed(op, ks) == Copying(k, d)
  {
    hide Count;
    CountSmall(ks);
  }

  lemma CopyCommutes(op: Op, vs: seq<Value>)
    requires Copies(op) > 0 && Unsplit(op, Kinds(vs))
    ensures Needs(op) <= |Expand(vs)| && Expand(Shuffle(Collapsed(op, Kinds(vs)), vs)) == Shuffle(op, Expand(vs))
  {
    hide Expand, Count, CopyBeneath, Shuffle, Unsplit, Collapsed, Copying;
    var k, d := ValuesCopied(op, Kinds(vs));
    CollapsedCopies(op, Kinds(vs), k, d);
    CopyingIs(k, d);
    ExpandCopy(vs, Copies(op), Beneath(op), k, d);
    ShuffleCopies(Copying(k, d), vs);
    ShuffleCopies(op, Expand(vs));
  }

  lemma SwapCommutes(vs: seq<Value>)
    requires Unsplit(Swap, Kinds(vs))
    ensures Needs(Swap) <= |Expand(vs)| && Expand(Shuffle(Swap, vs)) == Shuffle(Swap, Expand(vs))
  {
    hide Expand;
    var n := |vs|;
    var a, x, y := vs[..n - 2], vs[n - 2], vs[n - 1];
    ExpandTwo(a, x, y);
    ExpandTwo(a, y, x);
    assert vs == a + [x, y];
  }

  lemma CollapsedDrops(op: Op, ks: seq<Kind>) returns (k: nat)
    requires Drops(op) > 0 && Unsplit(op, ks)
    ensures Count(ks, Drops(op)) == Some(k) && 0 < k <= |ks| && Drops(Collapsed(op, ks)) == k
  {
    hide Count;
    CountSmall(ks);
    k := Count(ks, Drops(op)).value;
  }

  lemma DropCommutes(op: Op, vs: seq<Value>)
    requires Drops(op) > 0 && Unsplit(op, Kinds(vs))
    ensures Needs(op) <= |Expand(vs)| && Expand(Shuffle(Collapsed(op, Kinds(vs)), vs)) == Shuffle(op, Expand(vs))
  {
    hide Expand, Count, CopyBeneath, Shuffle, Unsplit, Collapsed;
    var k := CollapsedDrops(op, Kinds(vs));
    CountExpands(vs, Drops(op), k);
    ExpandSplit(vs, Drops(op), k);
    ShuffleDrops(op, Expand(vs));
    ShuffleDrops(Collapsed(op, Kinds(vs)), vs);
  }

  lemma ShuffleDrops<T>(op: Op, s: seq<T>)
    requires Drops(op) > 0 && Drops(op) <= |s|
    ensures Needs(op) == Drops(op) && Shuffle(op, s) == s[..|s| - Drops(op)]
  {
    NoCopy(s[..|s| - Drops(op)]);
  }

  lemma ExpandTwo(a: seq<Value>, x: Value, y: Value)
    requires !Wide(x.kind) && !Wide(y.kind)
    ensures Expand(a + [x, y]) == Expand(a) + [Whole(x), Whole(y)]
  {
    assert (a + [x, y])[..|a| + 1] == a + [x];
    assert (a + [x])[..|a|] == a;
  }

  lemma CountSmall(ks: seq<Kind>)
    ensures Count(ks, 0) == Some(0)
    ensures Count(ks, 1) == if Cat1(ks, 1) then Some(1) else None
    ensures Count(ks, 2) == if Cat2(ks, 1) then Some(1) else if Cat1(ks, 1) && Cat1(ks, 2) then Some(2) else None
  {
  }

  /** The six copying shuffles, spelled out. */
  lemma CopyIs<T>(s: seq<T>, k: nat, d: nat)
    requires k + d <= |s| && 1 <= k <= 2 && d <= 2
    ensures var n := |s|;
            CopyBeneath(s, k, d) ==
            if k == 1 then
              (if d == 0 then s + [s[n - 1]]
               else if d == 1 then s[..n - 2] + [s[n - 1], s[n - 2], s[n - 1]]
               else s[..n - 3] + [s[n - 1], s[n - 3], s[n - 2], s[n - 1]])
            else
              (if d == 0 then s + [s[n - 2], s[n - 1]]
               else if d == 1 then s[..n - 3] + [s[n - 2], s[n - 1], s[n - 3], s[n - 2], s[n - 1]]
               else s[..n - 4] + [s[n - 2], s[n - 1], s[n - 4], s[n - 3], s[n - 2], s[n - 1]])
  {
  }

  lemma ShuffleCopies<T>(r: Op, s: seq<T>)
    requires Needs(r) <= |s| && Copies(r) > 0
    ensures Shuffle(r, s) == CopyBeneath(s, Copies(r), Beneath(r))
  {
    NoCopy(s);
  }

  /** A form of section 6.5 applies exactly when no value is split; it is then the collapsed operation. */
  lemma FormIsCollapsed(op: Op, vs: seq<Value>)
    ensures Form(op, vs).Some? <==> Unsplit(op, Kinds(vs))
    ensures Unsplit(op, Kinds(vs)) ==> Form(op, vs).value == Shuffle(Collapsed(op, Kinds(vs)), vs)
  {
    if op in {Pop, Pop2, Swap} {
      CountSmall(Kinds(vs));
    } else {
      CopyForms(op, vs);
    }
  }

  lemma CopyForms(op: Op, vs: seq<Value>)
    requires Copies(op) > 0
    ensures Form(op, vs).Some? <==> Unsplit(op, Kinds(vs))
    ensures Unsplit(op, Kinds(vs)) ==> Form(op, vs).value == Shuffle(Collapsed(op, Kinds(vs)), vs)
  {
    hide Count, CopyBeneath, Shuffle, Unsplit, Collapsed, Form, Copying, CopiesValues;
    FormApplies(op, vs);
    if Unsplit(op, Kinds(vs)) {
      var k, d := ValuesCopied(op, Kinds(vs));
      CollapsedCopies(op, Kinds(vs), k, d);
      CopyingIs(k, d);
      FormCopies(op, vs, k, d);
      ShuffleCopies(Copying(k, d), vs);
    }
  }

  lemma FormApplies(op: Op, vs: seq<Value>)
    requires Copies(op) > 0
    ensures Form(op, vs).Some? <==> Unsplit(op, Kinds(vs))
  {
    hide Count;
    var ks := Kinds(vs);
    CountSmall(ks);
    if Count(ks, Copies(op)).Some? { CountSmall(ks[..|ks| - Count(ks, Copies(op)).value]); }
  }

  lemma FormCopies(op: Op, vs: seq<Value>, k: nat, d: nat)
    requires CopiesValues(op, Kinds(vs), k, d)
    ensures k + d <= |vs| && Form(op, vs) == Some(CopyBeneath(vs, k, d))
  {
    hide Count, CopyBeneath;
    var ks := Kinds(vs);
    CountSmall(ks);
    CountSmall(ks[..|ks| - k]);
    CopyIs(vs, k, d);
  }
}
