/** Analysis, rewriting and execution put together: a method's straight-line code runs on the one-slot interpreter as the
    specification says. */
module CompiledCode {
  import opened Wrappers
  import opened TwoSlot
  import opened LocalSwizzle
  import opened WidthAnalysis
  import opened WidthCollapse
  import opened StackHandlers

  // ---------- what the analysis checks and records ----------

  /** The operands and the local of `i` have the kinds that it names. */
  predicate WellKinded(i: Insn, ks: seq<Kind>, lk: seq<Option<Kind>>, sw: seq<int>) {
    && Analyzable(i, ks, sw)
    && match i
       case Load(n, k) => sw[n] < |lk| && lk[sw[n]] == Some(k)
       case Save(n, k) => sw[n] < |lk| && ks[|ks| - 1] == k
       case _ => true
  }

  function LocalsAfter(i: Insn, lk: seq<Option<Kind>>, sw: seq<int>): seq<Option<Kind>> {
    if i.Save? && i.n < |sw| && 0 <= sw[i.n] < |lk| then lk[sw[i.n] := Some(i.kind)] else lk
  }

  /** Every instruction is well kinded, and the stack never has more than `cap` entries. */
  predicate Checks(prog: seq<Insn>, ks: seq<Kind>, lk: seq<Option<Kind>>, sw: seq<int>, cap: nat) {
    prog == [] ||
    (&& WellKinded(prog[0], ks, lk, sw) && |KindsAfter(prog[0], ks, sw)| <= cap
     && Checks(prog[1..], KindsAfter(prog[0], ks, sw), LocalsAfter(prog[0], lk, sw), sw, cap))
  }

  /** The handler tables by which each instruction, and whatever follows the program, is entered. */
  function TosBefore(prog: seq<Insn>, ks: seq<Kind>, sw: seq<int>): (r: seq<Tos>)
    ensures 0 < |r|
  {
    [TosOf(ks)] + if prog == [] || !Analyzable(prog[0], ks, sw) then [] else TosBefore(prog[1..], KindsAfter(prog[0], ks, sw), sw)
  }

  // ---------- the analysis of a program ----------

  class ProgramAnalyzer {
    const stack: StackAnalyzer
    const sw: seq<int>
    var locals: seq<Option<Kind>>

    ghost predicate Valid()
      reads this, stack
    {
      |stack.stack| <= stack.cap && |locals| == |sw| && IsPermutation(sw)
    }

    constructor (sw: seq<int>, locals: seq<Option<Kind>>, cap: nat)
      requires |locals| == |sw| && IsPermutation(sw)
      ensures Valid() && this.sw == sw && this.locals == locals && fresh(stack) && stack.stack == [] && stack.cap == cap
    {
      this.sw, this.locals := sw, locals;
      stack := new StackAnalyzer(cap);
    }

    /** One instruction of `analyze_instruction`.  A well-kinded instruction that fits is accepted and rewritten. */
    method Analyze(i: Insn) returns (ok: bool, r: Insn)
      requires Valid()
      modifies this, stack
      ensures ok ==> Valid()
      ensures WellKinded(i, old(stack.stack), old(locals), sw) && |KindsAfter(i, old(stack.stack), sw)| <= stack.cap ==>
                && ok && r == Rewrite(i, old(stack.stack), sw)
                && stack.stack == KindsAfter(i, old(stack.stack), sw) && locals == LocalsAfter(i, old(locals), sw)
    {
      hide Unsplit, Collapsed, Shuffle;
      match i
      case Stack(op) =>
        var rop;
        ok, rop := stack.AnalyzeStackOp(op);
        r := Stack(rop);
      case Load(n, k) =>
        r := i;
        if n >= |sw| { return false, r; }
        r := Load(sw[n], k);
        if locals[sw[n]] != Some(k) { return false, r; }
        ok := stack.Push([k]);
      case Save(n, k) =>
        r := i;
        var top;
        ok, top := stack.PopVal();
        if !ok || top != k || n >= |sw| { return false, r; }
        r := Save(sw[n], k);
        locals := locals[sw[n] := Some(k)];
      case Const(v) =>
        r := i;
        ok := stack.Push([v.kind]);
    }
  }

  /** Analyze a program.  If it checks, it is accepted; the result is its rewriting, and the tables recorded are those of the
      analysed kinds. */
  method AnalyzeProgram(prog: seq<Insn>, sw: seq<int>, lk: seq<Option<Kind>>, cap: nat) returns (ok: bool, out: seq<Insn>, before: seq<Tos>)
    requires |lk| == |sw| && IsPermutation(sw)
    ensures Checks(prog, [], lk, sw, cap) ==> ok && RewriteAll(prog, [], sw) == Some(out) && before == TosBefore(prog, [], sw)
  {
    hide Checks, RewriteAll, TosBefore, WellKinded, KindsAfter, Rewrite, LocalsAfter, Analyzable;
    var a := new ProgramAnalyzer(sw, lk, cap);
    ghost var good := Checks(prog, [], lk, sw, cap);
    out, before := [], [];
    AnalysisStart(prog, sw);
    for i := 0 to |prog|
      invariant a.Valid() && fresh(a) && fresh(a.stack) && a.sw == sw && a.stack.cap == cap
      invariant good ==> Checks(prog[i..], a.stack.stack, a.locals, sw, cap) && AnalyzedSoFar(prog, i, a.stack.stack, sw, out, before)
    {
      ghost var ks, lk1, before0 := a.stack.stack, a.locals, before;
      before := before + [TosOf(a.stack.stack)];
      if good { CheckedNext(prog, i, ks, lk1, sw, cap); }
      var accepted, r := a.Analyze(prog[i]);
      if !accepted { return false, out, before; }
      if good { AnalyzedNext(prog, i, ks, sw, out, before0, r); }
      out := out + [r];
    }
    assert prog[|prog|..] == [];
    if good { AnalysisEnd(prog, a.stack.stack, sw, out, before); }
    before := before + [TosOf(a.stack.stack)];
    ok := true;
  }

  /** After `i` instructions the stack has kinds `ks`, and `out` and `before` hold the results for them. */
  ghost predicate AnalyzedSoFar(prog: seq<Insn>, i: nat, ks: seq<Kind>, sw: seq<int>, out: seq<Insn>, before: seq<Tos>) {
    && i <= |prog| && TosBefore(prog, [], sw) == before + TosBefore(prog[i..], ks, sw)
    && (RewriteAll(prog[i..], ks, sw).Some? ==> RewriteAll(prog, [], sw) == Some(out + RewriteAll(prog[i..], ks, sw).value))
  }

  lemma AnalysisStart(prog: seq<Insn>, sw: seq<int>)
    ensures prog[0..] == prog && AnalyzedSoFar(prog, 0, [], sw, [], [])
  {
    hide RewriteAll, TosBefore;
    assert prog[0..] == prog;
    assert [] + TosBefore(prog, [], sw) == TosBefore(prog, [], sw);
    if RewriteAll(prog, [], sw).Some? { assert [] + RewriteAll(prog, [], sw).value == RewriteAll(prog, [], sw).value; }
  }

  lemma CheckedNext(prog: seq<Insn>, i: nat, ks: seq<Kind>, lk: seq<Option<Kind>>, sw: seq<int>, cap: nat)
    requires i < |prog| && Checks(prog[i..], ks, lk, sw, cap)
    ensures WellKinded(prog[i], ks, lk, sw) && Analyzable(prog[i], ks, sw) && |KindsAfter(prog[i], ks, sw)| <= cap
    ensures Checks(prog[i + 1..], KindsAfter(prog[i], ks, sw), LocalsAfter(prog[i], lk, sw), sw, cap)
  {
    hide KindsAfter, LocalsAfter;
    assert prog[i..][0] == prog[i] && prog[i..][1..] == prog[i + 1..];
  }

  lemma AnalyzedNext(prog: seq<Insn>, i: nat, ks: seq<Kind>, sw: seq<int>, out: seq<Insn>, before: seq<Tos>, r: Insn)
    requires i < |prog| && AnalyzedSoFar(prog, i, ks, sw, out, before) && Analyzable(prog[i], ks, sw) && r == Rewrite(prog[i], ks, sw)
    ensures AnalyzedSoFar(prog, i + 1, KindsAfter(prog[i], ks, sw), sw, out + [r], before + [TosOf(ks)])
  {
    hide KindsAfter, Rewrite, Analyzable, TosOf;
    var rest, ks' := prog[i + 1..], KindsAfter(prog[i], ks, sw);
    assert prog[i..][0] == prog[i] && prog[i..][1..] == rest;
    assert before + ([TosOf(ks)] + TosBefore(rest, ks', sw)) == before + [TosOf(ks)] + TosBefore(rest, ks', sw);
    if RewriteAll(rest, ks', sw).Some? {
      var tail := RewriteAll(rest, ks', sw).value;
      assert out + ([r] + tail) == out + [r] + tail;
    }
  }

  lemma AnalysisEnd(prog: seq<Insn>, ks: seq<Kind>, sw: seq<int>, out: seq<Insn>, before: seq<Tos>)
    requires AnalyzedSoFar(prog, |prog|, ks, sw, out, before)
    ensures RewriteAll(prog, [], sw) == Some(out) && TosBefore(prog, [], sw) == before + [TosOf(ks)]
  {
    assert prog[|prog|..] == [];
    assert out + [] == out && [TosOf(ks)] + [] == [TosOf(ks)];
  }

  // ---------- what the specification's run guarantees ----------

  /** Every value that the two-slot locals hold has its kind recorded at the renumbered index. */
  ghost predicate KindsAgree(ls: seq<Slot>, lk: seq<Option<Kind>>, sw: seq<int>) {
    && |ls| == |lk| == |sw| && IsPermutation(sw)
    && forall n, v :: Holds(ls, n, v) ==> lk[sw[n]] == Some(v.kind)
  }

  lemma KindsStore(ls: seq<Slot>, lk: seq<Option<Kind>>, sw: seq<int>, n: nat, v: Value)
    requires KindsAgree(ls, lk, sw) && n + |Slots(v)| <= |ls|
    ensures KindsAgree(Store(ls, n, v), lk[sw[n] := Some(v.kind)], sw)
  {
    var ls', lk' := Store(ls, n, v), lk[sw[n] := Some(v.kind)];
    forall m, u | Holds(ls', m, u) ensures lk'[sw[m]] == Some(u.kind) {
      if m != n {
        assert Holds(ls, m, u);
        assert sw[m] != sw[n];
      }
    }
  }

  /** One instruction: what the specification executes is well kinded, and recorded kinds stay right. */
  lemma StepWellKinded(i: Insn, s: SpecState, o: OneState, lk: seq<Option<Kind>>, sw: seq<int>)
    requires Simulates(s, o, sw) && SpecStep(i, s).Some? && KindsAgree(s.locals, lk, sw)
    ensures WellKinded(i, Kinds(s.stack), lk, sw) && KindsAgree(SpecStep(i, s).value.locals, LocalsAfter(i, lk, sw), sw)
  {
    hide Form, Unsplit, Collapsed, Shuffle, Store, Slots, KindsAgree;
    StepAnalyzable(i, s, o, sw);
    AgreeSizes(s.locals, lk, sw);
    match i
    case Stack(op) =>
    case Load(n, k) => LoadKind(s.locals, lk, sw, n, Held(s.locals, n, k).value);
    case Save(n, k) =>
      var v := s.stack[|s.stack| - 1];
      SlotsTaken(v);
      KindsStore(s.locals, lk, sw, n, v);
    case Const(v) =>
  }

  lemma AgreeSizes(ls: seq<Slot>, lk: seq<Option<Kind>>, sw: seq<int>)
    requires KindsAgree(ls, lk, sw)
    ensures |ls| == |lk| == |sw| && IsPermutation(sw)
  {
  }

  lemma LoadKind(ls: seq<Slot>, lk: seq<Option<Kind>>, sw: seq<int>, n: nat, v: Value)
    requires KindsAgree(ls, lk, sw) && Holds(ls, n, v)
    ensures n < |sw| && 0 <= sw[n] < |lk| && lk[sw[n]] == Some(v.kind)
  {
  }

  /** Whatever the specification can run within `maxStack` slots checks. */
  lemma {:induction false} FitsChecks(prog: seq<Insn>, s: SpecState, o: OneState, lk: seq<Option<Kind>>, sw: seq<int>,
                                      maxStack: nat, cap: nat)
    requires Simulates(s, o, sw) && Fits(prog, s, maxStack) && KindsAgree(s.locals, lk, sw) && maxStack <= cap
    ensures Checks(prog, Kinds(s.stack), lk, sw, cap)
  {
    hide SpecStep, OneStep, Simulates, KindsAfter, Rewrite, Analyzable, WellKinded, KindsAgree, LocalsAfter, Ready;
    if prog != [] {
      var i := prog[0];
      StepAnalyzable(i, s, o, sw);
      StepSimulates(i, s, o, sw);
      StepWellKinded(i, s, o, lk, sw);
      var s', o' := SpecStep(i, s).value, OneStep(Rewrite(i, Kinds(s.stack), sw), o);
      DepthShrinks(s'.stack, maxStack);
      FitsChecks(prog[1..], s', o', LocalsAfter(i, lk, sw), sw, maxStack, cap);
    }
  }

  /** The tables recorded from the analysed kinds are those of the values at run time. */
  lemma {:induction false} TablesRecorded(prog: seq<Insn>, s: SpecState, o: OneState, sw: seq<int>)
    requires Simulates(s, o, sw) && SpecRun(prog, s).Some?
    ensures RewriteAll(prog, Kinds(s.stack), sw).Some?
    ensures Tables(RewriteAll(prog, Kinds(s.stack), sw).value, o) == TosBefore(prog, Kinds(s.stack), sw)[1..]
  {
    hide SpecStep, OneStep, Simulates, KindsAfter, Rewrite, Analyzable, Ready, TosOf;
    if prog != [] {
      var i, ks := prog[0], Kinds(s.stack);
      StepAnalyzable(i, s, o, sw);
      StepSimulates(i, s, o, sw);
      var r := Rewrite(i, ks, sw);
      var s', o' := SpecStep(i, s).value, OneStep(r, o);
      assert s'.stack == o'.stack by { SameStack(s', o', sw); }
      TablesRecorded(prog[1..], s', o', sw);
      var rest, after := RewriteAll(prog[1..], KindsAfter(i, ks, sw), sw), TosBefore(prog[1..], KindsAfter(i, ks, sw), sw);
      assert ([r] + rest.value)[1..] == rest.value;
      assert ([TosOf(ks)] + after)[1..] == after;
      FirstTos(prog[1..], KindsAfter(i, ks, sw), sw);
    } else {
      assert TosBefore(prog, Kinds(s.stack), sw)[1..] == [];
    }
  }

  lemma SameStack(s: SpecState, o: OneState, sw: seq<int>)
    requires Simulates(s, o, sw)
    ensures s.stack == o.stack
  {
  }

  lemma FirstTos(prog: seq<Insn>, ks: seq<Kind>, sw: seq<int>)
    ensures TosBefore(prog, ks, sw) == [TosOf(ks)] + TosBefore(prog, ks, sw)[1..]
  {
  }

  // ---------- from method entry to the result ----------

  /** The specification's state on method entry: the parameters, from local 0 on. */
  function EntryState(args: seq<Value>, maxLocals: nat): SpecState
    requires |Expand(args)| <= maxLocals
  {
    SpecState([], Expand(args) + seq(maxLocals - |Expand(args)|, _ => Unset))
  }

  lemma EntryKinds(args: seq<Value>, maxLocals: nat, lk: seq<Option<Kind>>, sw: seq<int>)
    requires |Expand(args)| <= maxLocals == |lk| == |sw| && IsPermutation(sw) && ParamsFirst(Kinds(args), sw)
    requires Recorded(Kinds(args), lk, |args|)
    ensures KindsAgree(EntryState(args, maxLocals).locals, lk, sw)
  {
    var ls := EntryState(args, maxLocals).locals;
    var more := ls[|Expand(args)|..];
    assert ls == Expand(args) + more;
    forall n, v | Holds(ls, n, v) ensures lk[sw[n]] == Some(v.kind) {
      var k := ExpandHolds(args, more, n, v);
    }
  }

  /** The one-slot locals on method entry. */
  function EntryLocals(args: seq<Value>, maxLocals: nat): seq<Value>
    requires |args| <= maxLocals
  {
    args + seq(maxLocals - |args|, _ => Value(Int, 0))
  }

  lemma EntrySimulates(args: seq<Value>, maxLocals: nat, sw: seq<int>)
    requires |Expand(args)| <= maxLocals == |sw| && IsPermutation(sw) && ParamsFirst(Kinds(args), sw)
    ensures |args| <= maxLocals && Simulates(EntryState(args, maxLocals), OneState([], EntryLocals(args, maxLocals)), sw)
  {
    hide Agree;
    EntryAgrees(args, EntryState(args, maxLocals).locals, EntryLocals(args, maxLocals), sw);
  }

  /** Analyze and run the code of a method.  If the specification can run it from the parameters `args`, within `maxStack` and without
      a float-topped `dup2`, it is accepted, and the final frame holds the specification's result in one-slot form. */
  method RunMethod(prog: seq<Insn>, isStatic: bool, argKinds: seq<Kind>, args: seq<Value>, maxLocals: nat, maxStack: nat,
                   truncate: int -> int)
    returns (frame: Frame, sw: seq<int>)
    requires Kinds(args) == Params(isStatic, argKinds) && |Expand(args)| <= maxLocals
    requires Fits(prog, EntryState(args, maxLocals), maxStack)
    ensures frame.Valid() && SpecRun(prog, EntryState(args, maxLocals)).Some?
    ensures Simulates(SpecRun(prog, EntryState(args, maxLocals)).value, frame.One(), sw)
  {
    hide Fits, SpecRun, OneRun, RewriteAll, Runnable, Tables, TosBefore, Checks, IsPermutation, ParamsFirst, Recorded, Simulates,
         Expand, EntryState,
      EntryLocals, KindsAgree;
    ExpandLength(args);
    var ok, lk, out, before;
    ok, sw, lk := LocalsOnMethodEntry(maxLocals, isStatic, argKinds);
    EntrySimulates(args, maxLocals, sw);
    EntryKinds(args, maxLocals, lk, sw);
    ghost var s, o := EntryState(args, maxLocals), OneState([], EntryLocals(args, maxLocals));
    assert s.stack == [] && Kinds(s.stack) == [] && Expand(s.stack) == [] by { EntryStack(args, maxLocals); }
    FitsChecks(prog, s, o, lk, sw, maxStack, maxStack + 1);
    RewrittenRunnable(prog, s, o, sw, maxStack);
    TablesRecorded(prog, s, o, sw);
    RunSimulates(prog, s, o, sw);
    ok, out, before := AnalyzeProgram(prog, sw, lk, maxStack + 1);
    var locals := NewLocals(args, maxLocals);
    frame := new Frame(maxStack, locals, truncate);
    frame.Run(out, before[1..]);
  }

  lemma EntryStack(args: seq<Value>, maxLocals: nat)
    requires |Expand(args)| <= maxLocals
    ensures EntryState(args, maxLocals).stack == [] && Kinds([]) == [] && Expand([]) == []
  {
  }

  method NewLocals(args: seq<Value>, maxLocals: nat) returns (locals: array<Value>)
    requires |args| <= maxLocals
    ensures fresh(locals) && locals[..] == EntryLocals(args, maxLocals)
  {
    locals := new Value[maxLocals](i => if 0 <= i < |args| then args[i] else Value(Int, 0));
  }
}
