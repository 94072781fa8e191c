/** Collapsing two-slot values to one slot: the stack instructions of `analyze_instruction` and the
    renumbering of local variables. */
module WidthAnalysis {
  import opened Wrappers
  import opened TwoSlot

  /** The operand combinations that the analysis accepts although `op` would split a category 2 value. */
  predicate Lenient(op: Op, ks: seq<Kind>) {
    match op
    case Dup => Cat2(ks, 1)
    case DupX2 => Cat1(ks, 1) && Cat1(ks, 2) && Cat2(ks, 3)
    case Dup2X1 => (Cat2(ks, 1) && Cat2(ks, 2)) || (Cat1(ks, 1) && Cat2(ks, 2) && Cat1(ks, 3))
    case Dup2X2 => Cat1(ks, 1) && Cat2(ks, 2) && (Cat2(ks, 3) || (Cat1(ks, 3) && Cat1(ks, 4)))
    case _ => false
  }

  /** What an accepted instruction that splits a value is rewritten to. */
  function LenientAs(op: Op, ks: seq<Kind>): Op {
    match op
    case Dup2X1 => if Cat2(ks, 1) then DupX1 else Dup2X1
    case Dup2X2 => if Cat2(ks, 3) then Dup2X1 else Dup2X2
    case _ => op
  }

  /** The answer `ok`, the rewritten instruction `r` and the new stack `ks'` are right for `op` on stack `ks`. */
  ghost predicate Analyzed(op: Op, ks: seq<Kind>, cap: nat, ok: bool, r: Op, ks': seq<Kind>) {
    && (ok ==> Needs(r) <= |ks| && ks' == Shuffle(r, ks) && |ks'| <= cap)
    && (ok ==> Unsplit(op, ks) || Lenient(op, ks))
    && (Unsplit(op, ks) ==> (ok <==> |Shuffle(Collapsed(op, ks), ks)| <= cap) && (ok ==> r == Collapsed(op, ks)))
    && (Lenient(op, ks) && !Unsplit(op, ks) ==> (ok <==> |ks| + Copies(LenientAs(op, ks)) <= cap) && (ok ==> r == LenientAs(op, ks)))
  }

  /** Closed form of `Unsplit` and `Collapsed`. */
  lemma CollapsedIs(op: Op, ks: seq<Kind>)
    ensures Unsplit(op, ks) <==>
            match op
            case Pop => Cat1(ks, 1)
            case Pop2 => Cat2(ks, 1) || (Cat1(ks, 1) && Cat1(ks, 2))
            case Swap => Cat1(ks, 1) && Cat1(ks, 2)
            case Dup => Cat1(ks, 1)
            case DupX1 => Cat1(ks, 1) && Cat1(ks, 2)
            case DupX2 => Cat1(ks, 1) && (Cat2(ks, 2) || (Cat1(ks, 2) && Cat1(ks, 3)))
            case Dup2 => Cat2(ks, 1) || (Cat1(ks, 1) && Cat1(ks, 2))
            case Dup2X1 => (Cat2(ks, 1) && Cat1(ks, 2)) || (Cat1(ks, 1) && Cat1(ks, 2) && Cat1(ks, 3))
            case Dup2X2 => (Cat2(ks, 1) && (Cat2(ks, 2) || (Cat1(ks, 2) && Cat1(ks, 3))))
                           || (Cat1(ks, 1) && Cat1(ks, 2) && (Cat2(ks, 3) || (Cat1(ks, 3) && Cat1(ks, 4))))
    ensures Unsplit(op, ks) ==> Collapsed(op, ks) ==
                                match op
                                case Pop2 => if Cat2(ks, 1) then Pop else Pop2
                                case DupX2 => if Cat2(ks, 2) then DupX1 else DupX2
                                case Dup2 => if Cat2(ks, 1) then Dup else Dup2
                                case Dup2X1 => if Cat2(ks, 1) then DupX1 else Dup2X1
                                case Dup2X2 => if Cat2(ks, 1) then (if Cat2(ks, 2) then DupX1 else DupX2)
                                               else if Cat2(ks, 3) then Dup2X1 else Dup2X2
                                case _ => op
  {
    hide Count;
    CountSmall(ks);
    if op != Swap && Count(ks, Drops(op) + Copies(op)).Some? {
      CountSmall(ks[..|ks| - Count(ks, Drops(op) + Copies(op)).value]);
    }
  }

  lemma CopyAbove<T>(rest: seq<T>, top: seq<T>, k: nat, d: nat)
    requires k + d <= |top|
    ensures CopyBeneath(rest + top, k, d) == rest + CopyBeneath(top, k, d)
  {
    var s, n := rest + top, |top|;
    CutAbove(rest, top, n - k - d);
    CutAbove(rest, top, n - k);
  }

  lemma CutAbove<T>(rest: seq<T>, top: seq<T>, i: nat)
    requires i <= |top|
    ensures (rest + top)[..|rest| + i] == rest + top[..i] && (rest + top)[|rest| + i..] == top[i..]
  {
  }

  lemma CopySize<T>(s: seq<T>, k: nat, d: nat)
    requires k + d <= |s|
    ensures |CopyBeneath(s, k, d)| == |s| + k
  {
  }

  /** `r` takes `popped` to `pushed`. */
  ghost predicate Replaces(r: Op, popped: seq<Kind>, pushed: seq<Kind>) {
    Copies(r) > 0 && |popped| == Needs(r) && CopyBeneath(popped, Copies(r), Beneath(r)) == pushed
  }

  /** The stack has become `rest + pushed`, if it fits, and the instruction has become `r`. */
  lemma Rewritten(op: Op, ks: seq<Kind>, cap: nat, r: Op, ok: bool, ks': seq<Kind>, rest: seq<Kind>, popped: seq<Kind>, pushed: seq<Kind>)
    requires if Unsplit(op, ks) then r == Collapsed(op, ks) else Lenient(op, ks) && r == LenientAs(op, ks)
    requires ks == rest + popped && Replaces(r, popped, pushed)
    requires (ok <==> |rest| + |pushed| <= cap) && (ok ==> ks' == rest + pushed)
    ensures Analyzed(op, ks, cap, ok, r, ks')
  {
    hide Unsplit, Lenient, Count, Shuffle, Collapsed, CopyBeneath;
    ShuffleCopies(r, ks);
    CopyAbove(rest, popped, Copies(r), Beneath(r));
    CopySize(popped, Copies(r), Beneath(r));
    assert Shuffle(r, ks) == rest + pushed;
  }

  lemma Replaced(a: Kind, b: Kind, c: Kind, d: Kind)
    ensures Replaces(Dup, [a], [a, a])
    ensures Replaces(DupX1, [b, a], [a, b, a])
    ensures Replaces(DupX2, [c, b, a], [a, c, b, a])
    ensures Replaces(Dup2, [b, a], [b, a, b, a])
    ensures Replaces(Dup2X1, [c, b, a], [b, a, c, b, a])
    ensures Replaces(Dup2X2, [d, c, b, a], [b, a, d, c, b, a])
  {
    ReplacedOne(a, b, c);
    ReplacedTwo(a, b, c, d);
    hide Replaces;
  }

  lemma ReplacedOne(a: Kind, b: Kind, c: Kind)
    ensures Replaces(Dup, [a], [a, a])
    ensures Replaces(DupX1, [b, a], [a, b, a])
    ensures Replaces(DupX2, [c, b, a], [a, c, b, a])
  {
    hide CopyBeneath;
    CopyIs([a], 1, 0);
    CopyIs([b, a], 1, 1);
    CopyIs([c, b, a], 1, 2);
  }

  lemma ReplacedTwo(a: Kind, b: Kind, c: Kind, d: Kind)
    ensures Replaces(Dup2, [b, a], [b, a, b, a])
    ensures Replaces(Dup2X1, [c, b, a], [b, a, c, b, a])
    ensures Replaces(Dup2X2, [d, c, b, a], [b, a, d, c, b, a])
  {
    hide CopyBeneath;
    CopyIs([b, a], 2, 0);
    CopyIs([c, b, a], 2, 1);
    CopyIs([d, c, b, a], 2, 2);
  }

  lemma Rejected(op: Op, ks: seq<Kind>, cap: nat, r: Op, ks': seq<Kind>)
    requires !Unsplit(op, ks) && !Lenient(op, ks)
    ensures Analyzed(op, ks, cap, false, r, ks')
  {
  }

  lemma Dropped(op: Op, ks: seq<Kind>, cap: nat, r: Op, ks': seq<Kind>)
    requires Unsplit(op, ks) && r == Collapsed(op, ks) && Drops(r) > 0 && !Lenient(op, ks)
    requires |ks| <= cap && Drops(r) <= |ks| && ks' == ks[..|ks| - Drops(r)]
    ensures Analyzed(op, ks, cap, true, r, ks')
  {
    hide Unsplit, Collapsed, Shuffle, Lenient;
    ShuffleDrops(r, ks);
  }

  lemma Swapped(ks: seq<Kind>, cap: nat, ok: bool, ks': seq<Kind>, rest: seq<Kind>, k2: Kind, k: Kind)
    requires ks == rest + [k2, k] && Unsplit(Swap, ks) && Collapsed(Swap, ks) == Swap && |ks| <= cap
    requires (ok <==> |rest| + 2 <= cap) && (ok ==> ks' == rest + [k, k2])
    ensures Analyzed(Swap, ks, cap, ok, Swap, ks')
  {
    hide Unsplit, Collapsed;
    assert Shuffle(Swap, ks) == rest + [k, k2];
  }

  class StackAnalyzer {
    const cap: nat // one more than max_stack
    var stack: seq<Kind>

    constructor (cap: nat)
      ensures stack == [] && this.cap == cap
    {
      this.cap := cap;
      stack := [];
    }

    /** POP_VAL */
    method PopVal() returns (ok: bool, k: Kind)
      modifies this
      ensures ok <==> old(stack) != []
      ensures ok ==> old(stack) == stack + [k]
      ensures !ok ==> stack == old(stack)
    {
      if |stack| == 0 {
        return false, Int;
      }
      k := stack[|stack| - 1];
      stack := stack[..|stack| - 1];
      ok := true;
    }

    /** PUSH_ENTRY, for each of `ks` in turn. */
    method Push(ks: seq<Kind>) returns (ok: bool)
      requires |stack| <= cap
      modifies this
      ensures ok <==> |old(stack)| + |ks| <= cap
      ensures ok ==> stack == old(stack) + ks
    {
      for i := 0 to |ks|
        invariant stack == old(stack) + ks[..i] && |stack| <= cap
      {
        if |stack| == cap {
          return false;
        }
        stack := stack + [ks[i]];
      }
      ok := true;
    }

    method AnalyzePop() returns (ok: bool, r: Op)
      requires |stack| <= cap
      modifies this
      ensures Analyzed(Pop, old(stack), cap, ok, r, stack)
    {
      CollapsedIs(Pop, stack);
      hide Unsplit, Collapsed, Shuffle, Analyzed;
      ghost var ks := stack;
      r := Pop;
      var k;
      ok, k := PopVal();
      if !ok || Wide(k) { Rejected(Pop, ks, cap, r, stack); return false, r; }
      Dropped(Pop, ks, cap, r, stack);
    }

    method AnalyzePop2() returns (ok: bool, r: Op)
      requires |stack| <= cap
      modifies this
      ensures Analyzed(Pop2, old(stack), cap, ok, r, stack)
    {
      CollapsedIs(Pop2, stack);
      hide Unsplit, Collapsed, Shuffle, Analyzed;
      ghost var ks := stack;
      r := Pop2;
      var k, k2;
      ok, k := PopVal();
      if !ok { Rejected(Pop2, ks, cap, r, stack); return; }
      if !Wide(k) {
        ok, k2 := PopVal();
        if !ok { Rejected(Pop2, ks, cap, r, stack); return; }
        assert ks == stack + [k2, k];
        if Wide(k2) { Rejected(Pop2, ks, cap, r, stack); return false, r; }
      } else {
        r := Pop;
      }
      Dropped(Pop2, ks, cap, r, stack);
    }

    method AnalyzeSwap() returns (ok: bool, r: Op)
      requires |stack| <= cap
      modifies this
      ensures Analyzed(Swap, old(stack), cap, ok, r, stack)
    {
      CollapsedIs(Swap, stack);
      hide Unsplit, Collapsed, Analyzed;
      ghost var ks := stack;
      r := Swap;
      var k, k2;
      ok, k := PopVal();
      if !ok { Rejected(Swap, ks, cap, r, stack); return; }
      ok, k2 := PopVal();
      if !ok { Rejected(Swap, ks, cap, r, stack); return; }
      ghost var rest := stack;
      assert ks == rest + [k2, k];
      if Wide(k) || Wide(k2) { Rejected(Swap, ks, cap, r, stack); return false, r; }
      ok := Push([k, k2]);
      Swapped(ks, cap, ok, stack, rest, k2, k);
    }

    method AnalyzeDup() returns (ok: bool, r: Op)
      requires |stack| <= cap
      modifies this
      ensures Analyzed(Dup, old(stack), cap, ok, r, stack)
    {
      CollapsedIs(Dup, stack);
      hide Unsplit, Collapsed, Shuffle, Replaces, Count, Analyzed;
      r := Dup;
      if |stack| == 0 { Rejected(Dup, stack, cap, r, stack); return false, r; }
      ghost var ks := stack;
      assert ks[..|ks| - 1] + [ks[|ks| - 1]] == ks;
      ok := Push([stack[|stack| - 1]]);
      Replaced(ks[|ks| - 1], Int, Int, Int);
      Rewritten(Dup, ks, cap, r, ok, stack, ks[..|ks| - 1], [ks[|ks| - 1]], [ks[|ks| - 1], ks[|ks| - 1]]);
    }

    method AnalyzeDupX1() returns (ok: bool, r: Op)
      requires |stack| <= cap
      modifies this
      ensures Analyzed(DupX1, old(stack), cap, ok, r, stack)
    {
      CollapsedIs(DupX1, stack);
      hide Unsplit, Collapsed, Shuffle, Replaces, Count, Analyzed;
      r := DupX1;
      if |stack| <= 1 { Rejected(DupX1, stack, cap, r, stack); return false, r; }
      ghost var ks := stack;
      var k1, k2;
      ok, k1 := PopVal();
      ok, k2 := PopVal();
      assert ks == stack + [k2, k1];
      if Wide(k1) || Wide(k2) { Rejected(DupX1, ks, cap, r, stack); return false, r; }
      ghost var rest := stack;
      ok := Push([k1, k2, k1]);
      assert ks == rest + [k2, k1];
      Replaced(k1, k2, k2, k2);
      Rewritten(DupX1, ks, cap, r, ok, stack, rest, [k2, k1], [k1, k2, k1]);
    }

    method AnalyzeDupX2() returns (ok: bool, r: Op)
      requires |stack| <= cap
      modifies this
      ensures Analyzed(DupX2, old(stack), cap, ok, r, stack)
    {
      CollapsedIs(DupX2, stack);
      hide Unsplit, Collapsed, Analyzed, Shuffle, Replaces, Count;
      ghost var ks := stack;
      r := DupX2;
      var toDup, k2, k3;
      ok, toDup := PopVal();
      if !ok { Rejected(DupX2, ks, cap, r, stack); return; }
      ok, k2 := PopVal();
      if !ok { Rejected(DupX2, ks, cap, r, stack); return; }
      assert ks == stack + [k2, toDup];
      if Wide(toDup) { Rejected(DupX2, ks, cap, r, stack); return false, r; }
      if Wide(k2) {
        ghost var rest := stack;
        r := DupX1;
        ok := Push([toDup, k2, toDup]);
        Replaced(toDup, k2, k2, k2);
        Rewritten(DupX2, ks, cap, r, ok, stack, rest, [k2, toDup], [toDup, k2, toDup]);
      } else {
        ok, k3 := PopVal();
        if !ok { Rejected(DupX2, ks, cap, r, stack); return; }
        ghost var rest := stack;
        assert ks == rest + [k3, k2, toDup];
        ok := Push([toDup, k3, k2, toDup]);
        Replaced(toDup, k2, k3, k3);
        Rewritten(DupX2, ks, cap, r, ok, stack, rest, [k3, k2, toDup], [toDup, k3, k2, toDup]);
      }
    }

    method AnalyzeDup2() returns (ok: bool, r: Op)
      requires |stack| <= cap
      modifies this
      ensures Analyzed(Dup2, old(stack), cap, ok, r, stack)
    {
      CollapsedIs(Dup2, stack);
      hide Unsplit, Collapsed, Analyzed, Shuffle, Replaces, Count;
      ghost var ks := stack;
      r := Dup2;
      var toDup, k2;
      ok, toDup := PopVal();
      if !ok { Rejected(Dup2, ks, cap, r, stack); return; }
      if Wide(toDup) {
        ghost var rest := stack;
        r := Dup;
        ok := Push([toDup, toDup]);
        Replaced(toDup, Int, Int, Int);
        Rewritten(Dup2, ks, cap, r, ok, stack, rest, [toDup], [toDup, toDup]);
      } else {
        ok, k2 := PopVal();
        if !ok { Rejected(Dup2, ks, cap, r, stack); return; }
        assert ks == stack + [k2, toDup];
        if Wide(k2) { Rejected(Dup2, ks, cap, r, stack); return false, r; }
        ghost var rest := stack;
        ok := Push([k2, toDup, k2, toDup]);
        Replaced(toDup, k2, k2, k2);
        Rewritten(Dup2, ks, cap, r, ok, stack, rest, [k2, toDup], [k2, toDup, k2, toDup]);
      }
    }

    method AnalyzeDup2X1() returns (ok: bool, r: Op)
      requires |stack| <= cap
      modifies this
      ensures Analyzed(Dup2X1, old(stack), cap, ok, r, stack)
    {
      CollapsedIs(Dup2X1, stack);
      hide Unsplit, Collapsed, Analyzed, Shuffle, Replaces, Count;
      ghost var ks := stack;
      r := Dup2X1;
      var toDup, k2, k3;
      ok, toDup := PopVal();
      if !ok { Rejected(Dup2X1, ks, cap, r, stack); return; }
      ok, k2 := PopVal();
      if !ok { Rejected(Dup2X1, ks, cap, r, stack); return; }
      assert ks == stack + [k2, toDup];
      if Wide(toDup) {
        ghost var rest := stack;
        r := DupX1;
        ok := Push([toDup, k2, toDup]);
        Replaced(toDup, k2, k2, k2);
        Rewritten(Dup2X1, ks, cap, r, ok, stack, rest, [k2, toDup], [toDup, k2, toDup]);
      } else {
        ok, k3 := PopVal();
        if !ok { Rejected(Dup2X1, ks, cap, r, stack); return; }
        ghost var rest := stack;
        assert ks == rest + [k3, k2, toDup];
        if Wide(k3) { Rejected(Dup2X1, ks, cap, r, stack); return false, r; }
        ok := Push([k2, toDup, k3, k2, toDup]);
        Replaced(toDup, k2, k3, k3);
        Rewritten(Dup2X1, ks, cap, r, ok, stack, rest, [k3, k2, toDup], [k2, toDup, k3, k2, toDup]);
      }
    }

    method AnalyzeDup2X2() returns (ok: bool, r: Op)
      requires |stack| <= cap
      modifies this
      ensures Analyzed(Dup2X2, old(stack), cap, ok, r, stack)
    {
      CollapsedIs(Dup2X2, stack);
      hide Unsplit, Collapsed, Analyzed, Shuffle, Replaces, Count;
      ghost var ks := stack;
      r := Dup2X2;
      var toDup, k2, k3;
      ok, toDup := PopVal();
      if !ok { Rejected(Dup2X2, ks, cap, r, stack); return; }
      ok, k2 := PopVal();
      if !ok { Rejected(Dup2X2, ks, cap, r, stack); return; }
      assert ks == stack + [k2, toDup];
      if Wide(toDup) && Wide(k2) {
        ghost var rest := stack;
        r := DupX1;
        ok := Push([toDup, k2, toDup]);
        Replaced(toDup, k2, k2, k2);
        Rewritten(Dup2X2, ks, cap, r, ok, stack, rest, [k2, toDup], [toDup, k2, toDup]);
        return;
      }
      ok, k3 := PopVal();
      if !ok { Rejected(Dup2X2, ks, cap, r, stack); return; }
      assert ks == stack + [k3, k2, toDup];
      ok, r := AnalyzeDup2X2Third(toDup, k2, k3, ks);
    }

    /** `dup2_x2` after three pops. */
    method AnalyzeDup2X2Third(toDup: Kind, k2: Kind, k3: Kind, ghost ks: seq<Kind>) returns (ok: bool, r: Op)
      requires ks == stack + [k3, k2, toDup] && |ks| <= cap && !(Wide(toDup) && Wide(k2))
      modifies this
      ensures Analyzed(Dup2X2, ks, cap, ok, r, stack)
    {
      CollapsedIs(Dup2X2, ks);
      hide Unsplit, Collapsed, Analyzed, Shuffle, Replaces, Count;
      ghost var rest := stack;
      r := Dup2X2;
      if Wide(toDup) {
        if Wide(k3) { Rejected(Dup2X2, ks, cap, r, stack); return false, r; }
        r := DupX2;
        ok := Push([toDup, k3, k2, toDup]);
        Replaced(toDup, k2, k3, k3);
        Rewritten(Dup2X2, ks, cap, r, ok, stack, rest, [k3, k2, toDup], [toDup, k3, k2, toDup]);
      } else if Wide(k3) {
        r := Dup2X1;
        ok := Push([k2, toDup, k3, k2, toDup]);
        Replaced(toDup, k2, k3, k3);
        Rewritten(Dup2X2, ks, cap, r, ok, stack, rest, [k3, k2, toDup], [k2, toDup, k3, k2, toDup]);
      } else {
        var k4;
        ok, k4 := PopVal();
        if !ok { Rejected(Dup2X2, ks, cap, r, stack); return; }
        rest := stack;
        assert ks == rest + [k4, k3, k2, toDup];
        if Wide(k4) { Rejected(Dup2X2, ks, cap, r, stack); return false, r; }
        ok := Push([k2, toDup, k4, k3, k2, toDup]);
        Replaced(toDup, k2, k3, k4);
        Rewritten(Dup2X2, ks, cap, r, ok, stack, rest, [k4, k3, k2, toDup], [k2, toDup, k4, k3, k2, toDup]);
      }
    }

    /** The stack instructions of `analyze_instruction`. */
    method AnalyzeStackOp(op: Op) returns (ok: bool, r: Op)
      requires |stack| <= cap
      modifies this
      ensures Analyzed(op, old(stack), cap, ok, r, stack)
    {
      hide Analyzed;
      match op
      case Dup => ok, r := AnalyzeDup();
      case DupX1 => ok, r := AnalyzeDupX1();
      case DupX2 => ok, r := AnalyzeDupX2();
      case Dup2 => ok, r := AnalyzeDup2();
      case Dup2X1 => ok, r := AnalyzeDup2X1();
      case Dup2X2 => ok, r := AnalyzeDup2X2();
      case Pop => ok, r := AnalyzePop();
      case Pop2 => ok, r := AnalyzePop2();
      case Swap => ok, r := AnalyzeSwap();
    }
  }
}
