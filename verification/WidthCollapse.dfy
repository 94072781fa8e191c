/** Collapsing two-slot values to one slot preserves the meaning of stack and local variable instructions. */
module WidthCollapse {
  import opened Wrappers
  import opened TwoSlot
  import opened LocalSwizzle

  /** Stack instructions, and loads, stores and constants of every kind. */
  datatype Insn = Stack(op: Op) | Load(n: nat, kind: Kind) | Save(n: nat, kind: Kind) | Const(v: Value)

  // ---------- the specification's machine ----------

  /** Operand stack of values and two-slot local variables. */
  datatype SpecState = SpecState(stack: seq<Value>, locals: seq<Slot>)

  /** The value of kind `k` at local `n`. */
  function Held(ls: seq<Slot>, n: nat, k: Kind): (r: Option<Value>)
    ensures r.Some? ==> Holds(ls, n, r.value) && r.value.kind == k
    ensures forall v :: Holds(ls, n, v) && v.kind == k ==> r == Some(v)
  {
    if n >= |ls| then None
    else if Wide(k) then
      if ls[n].First? && ls[n].v.kind == k && n + 1 < |ls| && ls[n + 1] == Second(ls[n].v) then Some(ls[n].v) else None
    else
      if ls[n].Whole? && ls[n].v.kind == k then Some(ls[n].v) else None
  }

  /** No successor for an instruction that is not category-correct. */
  function SpecStep(i: Insn, s: SpecState): Option<SpecState> {
    match i
    case Stack(op) =>
      var r := Form(op, s.stack);
      if r.None? then None else Some(s.(stack := r.value))
    case Load(n, k) =>
      var v := Held(s.locals, n, k);
      if v.None? then None else Some(s.(stack := s.stack + [v.value]))
    case Save(n, k) =>
      if s.stack == [] then None
      else
        var v := s.stack[|s.stack| - 1];
        if v.kind == k && n + |Slots(v)| <= |s.locals| then Some(SpecState(s.stack[..|s.stack| - 1], Store(s.locals, n, v))) else None
    case Const(v) => Some(s.(stack := s.stack + [v]))
  }

  function SpecRun(prog: seq<Insn>, s: SpecState): Option<SpecState> {
    if prog == [] then Some(s)
    else
      var t := SpecStep(prog[0], s);
      if t.None? then None else SpecRun(prog[1..], t.value)
  }

  // ---------- the one-slot machine ----------

  datatype OneState = OneState(stack: seq<Value>, locals: seq<Value>)

  predicate Ready(i: Insn, s: OneState) {
    match i
    case Stack(op) => Needs(op) <= |s.stack|
    case Load(n, _) => n < |s.locals|
    case Save(n, _) => n < |s.locals| && s.stack != []
    case Const(_) => true
  }

  function OneStep(i: Insn, s: OneState): OneState
    requires Ready(i, s)
  {
    match i
    case Stack(op) => s.(stack := Shuffle(op, s.stack))
    case Load(n, _) => s.(stack := s.stack + [s.locals[n]])
    case Save(n, _) => OneState(s.stack[..|s.stack| - 1], s.locals[n := s.stack[|s.stack| - 1]])
    case Const(v) => s.(stack := s.stack + [v])
  }

  function OneRun(prog: seq<Insn>, s: OneState): Option<OneState> {
    if prog == [] then Some(s)
    else if Ready(prog[0], s) then OneRun(prog[1..], OneStep(prog[0], s)) else None
  }

  // ---------- the rewriting ----------

  /** The analysis has an answer for `i` on a stack of kinds `ks`. */
  predicate Analyzable(i: Insn, ks: seq<Kind>, sw: seq<int>) {
    match i
    case Stack(op) => Unsplit(op, ks)
    case Load(n, _) => n < |sw| && 0 <= sw[n]
    case Save(n, _) => n < |sw| && 0 <= sw[n] && ks != []
    case Const(_) => true
  }

  function Rewrite(i: Insn, ks: seq<Kind>, sw: seq<int>): Insn
    requires Analyzable(i, ks, sw)
  {
    match i
    case Stack(op) => Stack(Collapsed(op, ks))
    case Load(n, k) => Load(sw[n], k)
    case Save(n, k) => Save(sw[n], k)
    case Const(v) => i
  }

  /** The kinds on the stack after `i`. */
  function KindsAfter(i: Insn, ks: seq<Kind>, sw: seq<int>): seq<Kind>
    requires Analyzable(i, ks, sw)
  {
    match i
    case Stack(op) => Shuffle(Collapsed(op, ks), ks)
    case Load(_, k) => ks + [k]
    case Save(_, _) => ks[..|ks| - 1]
    case Const(v) => ks + [v.kind]
  }

  /** Analyze and rewrite a straight-line program; none if some instruction is rejected. */
  function RewriteAll(prog: seq<Insn>, ks: seq<Kind>, sw: seq<int>): Option<seq<Insn>> {
    if prog == [] then Some([])
    else if !Analyzable(prog[0], ks, sw) then None
    else
      var rest := RewriteAll(prog[1..], KindsAfter(prog[0], ks, sw), sw);
      if rest.None? then None else Some([Rewrite(prog[0], ks, sw)] + rest.value)
  }

  // ---------- simulation ----------

  /** Same stack of values, and every value that the two-slot locals hold is at its renumbered index. */
  ghost predicate Simulates(s: SpecState, o: OneState, sw: seq<int>) {
    s.stack == o.stack && Agree(s.locals, o.locals, sw)
  }

  lemma CopyKinds(vs: seq<Value>, k: nat, d: nat)
    requires k + d <= |vs|
    ensures Kinds(CopyBeneath(vs, k, d)) == CopyBeneath(Kinds(vs), k, d)
  {
  }

  /** Kinds are shuffled along with the values. */
  lemma KindsShuffle(op: Op, vs: seq<Value>)
    requires Needs(op) <= |vs|
    ensures Kinds(Shuffle(op, vs)) == Shuffle(op, Kinds(vs))
  {
    if op != Swap {
      hide CopyBeneath;
      CopyKinds(vs[..|vs| - Drops(op)], Copies(op), Beneath(op));
      KindsSlice(vs, |vs| - Drops(op));
    }
  }

  /** The analysis accepts what the specification accepts, and its kinds are the kinds of the values. */
  lemma StepAnalyzable(i: Insn, s: SpecState, o: OneState, sw: seq<int>)
    requires Simulates(s, o, sw) && SpecStep(i, s).Some?
    ensures Analyzable(i, Kinds(s.stack), sw) && KindsAfter(i, Kinds(s.stack), sw) == Kinds(SpecStep(i, s).value.stack)
  {
    hide Form, Unsplit, Collapsed, Shuffle;
    match i
    case Stack(op) =>
      FormIsCollapsed(op, s.stack);
      KindsShuffle(Collapsed(op, Kinds(s.stack)), s.stack);
    case Load(n, k) =>
    case Save(n, k) => KindsSlice(s.stack, |s.stack| - 1);
    case Const(v) =>
  }

  /** One instruction: the rewritten instruction does on one-slot values what the specification does. */
  lemma StepSimulates(i: Insn, s: SpecState, o: OneState, sw: seq<int>)
    requires Simulates(s, o, sw) && SpecStep(i, s).Some?
    ensures Analyzable(i, Kinds(s.stack), sw) && Ready(Rewrite(i, Kinds(s.stack), sw), o)
    ensures Simulates(SpecStep(i, s).value, OneStep(Rewrite(i, Kinds(s.stack), sw), o), sw)
  {
    hide Form, Unsplit, Collapsed, Shuffle, Store, Slots;
    StepAnalyzable(i, s, o, sw);
    match i
    case Stack(op) => FormIsCollapsed(op, s.stack);
    case Load(n, k) => LoadAgrees(s.locals, o.locals, sw, n, Held(s.locals, n, k).value);
    case Save(n, k) =>
      var v := s.stack[|s.stack| - 1];
      SlotsTaken(v);
      StoreAgrees(s.locals, o.locals, sw, n, v);
    case Const(v) =>
  }

  lemma SlotsTaken(v: Value)
    ensures 1 <= |Slots(v)| <= 2
  {
  }

  /** Whole programs: a program that the specification can run is accepted and rewritten, and the rewritten
      program computes the same stack and the same locals in one-slot form. */
  lemma {:induction false} RunSimulates(prog: seq<Insn>, s: SpecState, o: OneState, sw: seq<int>)
    requires Simulates(s, o, sw) && SpecRun(prog, s).Some?
    ensures RewriteAll(prog, Kinds(s.stack), sw).Some?
    ensures OneRun(RewriteAll(prog, Kinds(s.stack), sw).value, o).Some?
    ensures Simulates(SpecRun(prog, s).value, OneRun(RewriteAll(prog, Kinds(s.stack), sw).value, o).value, sw)
  {
    hide SpecStep, OneStep, Simulates, KindsAfter, Rewrite, Analyzable;
    if prog != [] {
      var i, ks := prog[0], Kinds(s.stack);
      StepAnalyzable(i, s, o, sw);
      StepSimulates(i, s, o, sw);
      var r := Rewrite(i, ks, sw);
      var s', o' := SpecStep(i, s).value, OneStep(r, o);
      RunSimulates(prog[1..], s', o', sw);
      var rest := RewriteAll(prog[1..], KindsAfter(i, ks, sw), sw);
      assert ([r] + rest.value)[1..] == rest.value;
    }
  }

  /** The specification's stack instructions are the same shuffle of slots for every combination of kinds, and the
      rewritten instructions are its image: expanding commutes with execution. */
  lemma ExpandCommutes(op: Op, vs: seq<Value>)
    requires Form(op, vs).Some?
    ensures Unsplit(op, Kinds(vs)) && Needs(op) <= |Expand(vs)|
    ensures Expand(Form(op, vs).value) == Shuffle(op, Expand(vs)) == Expand(Shuffle(Collapsed(op, Kinds(vs)), vs))
  {
    hide Form, Unsplit, Collapsed, Shuffle, Expand;
    FormIsCollapsed(op, vs);
    CollapseCommutes(op, vs);
  }

  /** A stack that respects `max_stack` in slots respects it in values. */
  lemma DepthShrinks(vs: seq<Value>, maxStack: nat)
    requires |Expand(vs)| <= maxStack
    ensures |vs| <= maxStack
  {
  }
}
