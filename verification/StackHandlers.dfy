/** The interpreter's stack-shuffling handlers: one slot per value, the top of the stack cached in a register. */
module StackHandlers {
  import opened Wrappers
  import opened TwoSlot
  import opened WidthCollapse
  import LocalSwizzle

  /** Which handler table an instruction is entered through, by the kind of the register. */
  datatype Tos = TosVoid | TosInt | TosFloat | TosDouble

  function Reduced(k: Kind): Tos {
    match k case Float => TosFloat case Double => TosDouble case _ => TosInt
  }

  /** Two kinds share a handler table exactly if they are the same floating-point kind or both live in an integer register. */
  lemma RegisterClasses(j: Kind, k: Kind)
    ensures Reduced(j) == Reduced(k) <==> j == k || (j in {Int, Reference, Long} && k in {Int, Reference, Long})
  {
  }

  /** `calculate_tos_type`. */
  function TosOf(ks: seq<Kind>): Tos {
    if ks == [] then TosVoid else Reduced(ks[|ks| - 1])
  }

  lemma OnTop(was: seq<Value>, keep: nat, now: seq<Value>, top: seq<Value>)
    requires keep <= |was| && |now| == keep + |top|
    requires (forall i :: 0 <= i < keep ==> now[i] == was[i]) && forall i :: 0 <= i < |top| ==> now[keep + i] == top[i]
    ensures now == was[..keep] + top
  {
  }

  class Frame {
    const cells: array<Value>    // operand stack; the cell of the top value is stale while it is in the register
    const locals: array<Value>
    const truncate: int -> int   // C's conversion of a floating-point value to a 64-bit integer
    var sp: nat
    var tos: Value
    var table: Tos

    ghost predicate Sized()
      reads this
    {
      sp <= cells.Length && cells != locals
    }

    /** The register holds the top value, and the next handler is the one for its kind. */
    ghost predicate Valid()
      reads this
    {
      Sized() && if sp == 0 then table == TosVoid else table == Reduced(tos.kind)
    }

    ghost function Contents(): seq<Value>
      reads this, cells
      requires sp <= cells.Length
    {
      if sp == 0 then [] else cells[..sp - 1] + [tos]
    }

    constructor (maxStack: nat, args: array<Value>, truncate: int -> int)
      ensures Valid() && Contents() == [] && locals == args && fresh(cells) && cells.Length == maxStack && this.truncate == truncate
    {
      cells := new Value[maxStack](_ => Value(Int, 0));
      locals := args;
      this.truncate := truncate;
      sp, tos, table := 0, Value(Int, 0), TosVoid;
      new;
    }

    /** The first half of FORWARD_TO_NULLARY: spill the register. */
    method Spill()
      requires Sized() && sp > 0
      modifies cells
      ensures cells[..sp] == old(Contents())
    {
      ghost var was := Contents();
      cells[sp - 1] := tos;
      assert cells[..sp] == was;
    }

    /** STACK_POLYMORPHIC_NEXT: load the register again and go to the table that the next instruction names. */
    method PolymorphicNext(next: Tos)
      requires Sized() && next == TosOf(Kinds(cells[..sp]))
      modifies this
      ensures Valid() && sp == old(sp) && Contents() == cells[..sp]
    {
      if sp > 0 {
        tos := cells[sp - 1];
        assert cells[..sp] == cells[..sp - 1] + [tos];
      }
      table := next;
    }

    method PopHandler(op: Op, next: Tos)
      requires Valid() && (op == Pop || op == Pop2) && Needs(op) <= sp
      requires next == TosOf(Kinds(Shuffle(op, Contents())))
      modifies this, cells
      ensures Valid() && Contents() == Shuffle(op, old(Contents()))
    {
      ghost var was := Contents();
      ShuffleDrops(op, was);
      Spill();
      sp := sp - if op == Pop then 1 else 2;
      assert cells[..sp] == was[..|was| - Drops(op)];
      PolymorphicNext(next);
    }

    method SwapHandler(next: Tos)
      requires Valid() && 2 <= sp && next == TosOf(Kinds(Shuffle(Swap, Contents())))
      modifies this, cells
      ensures Valid() && Contents() == Shuffle(Swap, old(Contents()))
    {
      ghost var was := Contents();
      Spill();
      var tmp := cells[sp - 1];
      cells[sp - 1] := cells[sp - 2];
      cells[sp - 2] := tmp;
      assert cells[..sp] == Shuffle(Swap, was);
      PolymorphicNext(next);
    }

    method DupHandler()
      requires Valid() && 1 <= sp < cells.Length
      modifies this, cells
      ensures Valid() && Contents() == Shuffle(Dup, old(Contents()))
    {
      ghost var was := Contents();
      cells[sp - 1] := tos;
      sp := sp + 1;
      assert Contents() == was + [tos];
      ShuffleCopies(Dup, was);
      CopyIs(was, 1, 0);
    }

    /** All three variants continue with an integer register.  That is right for an integer, a reference or a long.  Otherwise the
        handler table is wrong, and so is the copy unless the conversion happens to keep its bits. */
    method Dup2Handler()
      requires Valid() && 2 <= sp && sp + 2 <= cells.Length
      modifies this, cells
      ensures Sized() && sp == old(sp) + 2 && table == TosInt
      ensures Contents() == Shuffle(Dup2, old(Contents())) <==>
                old(tos.kind) !in {Float, Double} || truncate(old(tos.bits)) == old(tos.bits)
      ensures Valid() <==> old(tos.kind) !in {Float, Double}
    {
      ghost var was := Contents();
      var val2 := cells[sp - 2];
      cells[sp - 1] := tos;
      cells[sp] := val2;
      sp := sp + 2;
      ShuffleCopies(Dup2, was);
      CopyIs(was, 2, 0);
      assert cells[..sp - 1] == was + [val2];
      if table != TosInt {
        tos := tos.(bits := truncate(tos.bits)); // NEXT_INT of a floating-point register
        assert Contents()[|was| + 1] == tos && (was + [was[|was| - 2], was[|was| - 1]])[|was| + 1] == was[|was| - 1];
      }
      table := TosInt;
    }

    method DupX1Handler(next: Tos)
      requires Valid() && 2 <= sp < cells.Length && next == TosOf(Kinds(Shuffle(DupX1, Contents())))
      modifies this, cells
      ensures Valid() && Contents() == Shuffle(DupX1, old(Contents()))
    {
      hide Shuffle, CopyBeneath, TosOf;
      ghost var was := Contents();
      ShuffleCopies(DupX1, was);
      CopyIs(was, 1, 1);
      Spill();
      var val1, val2 := cells[sp - 1], cells[sp - 2];
      ghost var result := was[..|was| - 2] + [val1, val2, val1];
      assert Shuffle(DupX1, was) == result;
      cells[sp - 2] := val1;
      cells[sp - 1] := val2;
      cells[sp] := val1;
      sp := sp + 1;
      assert cells[..sp] == result;
      PolymorphicNext(next);
    }

    method DupX2Handler(next: Tos)
      requires Valid() && 3 <= sp < cells.Length && next == TosOf(Kinds(Shuffle(DupX2, Contents())))
      modifies this, cells
      ensures Valid() && Contents() == Shuffle(DupX2, old(Contents()))
    {
      hide Shuffle, CopyBeneath, TosOf;
      ghost var was := Contents();
      ShuffleCopies(DupX2, was);
      CopyIs(was, 1, 2);
      Spill();
      var val1, val2, val3 := cells[sp - 1], cells[sp - 2], cells[sp - 3];
      ghost var result := was[..|was| - 3] + [val1, val3, val2, val1];
      assert Shuffle(DupX2, was) == result;
      cells[sp - 3] := val1;
      cells[sp - 2] := val3;
      cells[sp - 1] := val2;
      cells[sp] := val1;
      sp := sp + 1;
      assert cells[..sp] == result;
      PolymorphicNext(next);
    }

    /** The body of `dup2_x1_impl_void` up to its jump. */
    method Dup2X1Cells()
      requires 3 <= sp && sp + 2 <= cells.Length
      modifies this`sp, cells
      ensures sp == old(sp) + 2 && cells[..sp] == CopyBeneath(old(cells[..sp]), 2, 1)
    {
      hide CopyBeneath;
      ghost var was := cells[..sp];
      var val1, val2, val3 := cells[sp - 1], cells[sp - 2], cells[sp - 3];
      cells[sp - 3] := val2;
      cells[sp - 2] := val1;
      cells[sp - 1] := val3;
      cells[sp] := val2;
      cells[sp + 1] := val1;
      sp := sp + 2;
      CopyIs(was, 2, 1);
      OnTop(was, |was| - 3, cells[..sp], [val2, val1, val3, val2, val1]);
    }

    method Dup2X1Handler(next: Tos)
      requires Valid() && 3 <= sp && sp + 2 <= cells.Length && next == TosOf(Kinds(Shuffle(Dup2X1, Contents())))
      modifies this, cells
      ensures Valid() && Contents() == Shuffle(Dup2X1, old(Contents()))
    {
      hide Shuffle, CopyBeneath, TosOf;
      ShuffleCopies(Dup2X1, Contents());
      Spill();
      Dup2X1Cells();
      PolymorphicNext(next);
    }

    /** The body of `dup2_x2_impl_void` up to its jump. */
    method Dup2X2Cells()
      requires 4 <= sp && sp + 2 <= cells.Length
      modifies this`sp, cells
      ensures sp == old(sp) + 2 && cells[..sp] == CopyBeneath(old(cells[..sp]), 2, 2)
    {
      hide CopyBeneath;
      ghost var was := cells[..sp];
      var val1, val2, val3, val4 := cells[sp - 1], cells[sp - 2], cells[sp - 3], cells[sp - 4];
      cells[sp - 4] := val2;
      cells[sp - 3] := val1;
      cells[sp - 2] := val4;
      cells[sp - 1] := val3;
      cells[sp] := val2;
      cells[sp + 1] := val1;
      sp := sp + 2;
      CopyIs(was, 2, 2);
      OnTop(was, |was| - 4, cells[..sp], [val2, val1, val4, val3, val2, val1]);
    }

    method Dup2X2Handler(next: Tos)
      requires Valid() && 4 <= sp && sp + 2 <= cells.Length && next == TosOf(Kinds(Shuffle(Dup2X2, Contents())))
      modifies this, cells
      ensures Valid() && Contents() == Shuffle(Dup2X2, old(Contents()))
    {
      hide Shuffle, CopyBeneath, TosOf;
      ShuffleCopies(Dup2X2, Contents());
      Spill();
      Dup2X2Cells();
      PolymorphicNext(next);
    }

    lemma IntegerRegister()
      requires Valid() && 0 < sp && table == TosInt
      ensures tos.kind !in {Float, Double}
    {
    }

    /** Enter the handler of a stack instruction; `next` is the table that the analysis recorded for the following one. */
    method Dispatch(op: Op, next: Tos)
      requires Valid() && Needs(op) <= sp && sp + Copies(op) <= cells.Length && next == TosOf(Kinds(Shuffle(op, Contents())))
      requires op == Dup2 ==> table == TosInt
      modifies this, cells
      ensures Valid() && Contents() == Shuffle(op, old(Contents()))
    {
      hide Shuffle, TosOf, Valid, Contents, Sized;
      if op == Dup2 { IntegerRegister(); }
      match op
      case Pop => PopHandler(op, next);
      case Pop2 => PopHandler(op, next);
      case Swap => SwapHandler(next);
      case Dup => DupHandler();
      case DupX1 => DupX1Handler(next);
      case DupX2 => DupX2Handler(next);
      case Dup2 => Dup2Handler();
      case Dup2X1 => Dup2X1Handler(next);
      case Dup2X2 => Dup2X2Handler(next);
    }

    /** The abstract one-slot state. */
    ghost function One(): OneState
      reads this, cells, locals
      requires sp <= cells.Length
    {
      OneState(Contents(), locals[..])
    }

    /** Push `v`, with the register table of its instruction. */
    method PushHandler(v: Value)
      requires Valid() && sp < cells.Length
      modifies this, cells
      ensures Valid() && Contents() == old(Contents()) + [v]
    {
      ghost var was := Contents();
      if sp > 0 { Spill(); }
      sp := sp + 1;
      tos, table := v, Reduced(v.kind);
      assert cells[..sp - 1] == was;
    }

    method SaveHandler(n: nat, next: Tos)
      requires Valid() && 1 <= sp && n < locals.Length && next == TosOf(Kinds(Contents()[..sp - 1]))
      modifies this, locals
      ensures Valid() && Contents() == old(Contents())[..old(sp) - 1] && locals[..] == old(locals[..])[n := old(tos)]
    {
      ghost var was := Contents();
      locals[n] := tos;
      sp := sp - 1;
      assert cells[..sp] == was[..sp];
      PolymorphicNext(next);
    }

    /** Execute one rewritten instruction. */
    method Step(i: Insn, next: Tos)
      requires Valid() && Ready(i, One()) && Accepted(i, One(), cells.Length) && next == TosOf(Kinds(OneStep(i, One()).stack))
      modifies this, cells, locals
      ensures Valid() && One() == OneStep(i, old(One()))
    {
      hide Shuffle, TosOf;
      ghost var o := One();
      assert |o.stack| == sp;
      match i
      case Stack(op) =>
        if op == Dup2 { assert o.stack[sp - 1] == tos; }
        Dispatch(op, next);
      case Load(n, k) => PushHandler(locals[n]);
      case Save(n, k) =>
        assert o.stack[sp - 1] == tos;
        SaveHandler(n, next);
      case Const(v) => PushHandler(v);
    }

    /** Execute a rewritten program, whose instructions carry the tables recorded by the analysis. */
    method Run(prog: seq<Insn>, tables: seq<Tos>)
      requires Valid() && Runnable(prog, One(), cells.Length) && tables == Tables(prog, One())
      modifies this, cells, locals
      ensures Valid() && OneRun(prog, old(One())) == Some(One())
    {
      hide One, Ready, Accepted, OneStep, TosOf;
      TablesSize(prog, One(), cells.Length);
      var pc := 0;
      assert prog[0..] == prog && tables[0..] == tables;
      while pc < |prog|
        invariant 0 <= pc <= |prog| == |tables| && Valid() && sp <= cells.Length
        invariant Runnable(prog[pc..], One(), cells.Length) && tables[pc..] == Tables(prog[pc..], One())
        invariant OneRun(prog[pc..], One()) == OneRun(prog, old(One()))
      {
        ghost var o := One();
        assert prog[pc..][0] == prog[pc] && prog[pc..][1..] == prog[pc + 1..];
        assert tables[pc] == tables[pc..][0] && tables[pc + 1..] == tables[pc..][1..];
        Step(prog[pc], tables[pc]);
        pc := pc + 1;
      }
    }
  }

  /** What the analysis guarantees of instruction `i` beyond its operands: room on the stack, loads of the declared kind, and no
      `dup2` on a floating-point value. */
  predicate Accepted(i: Insn, s: OneState, cap: nat)
    requires Ready(i, s)
  {
    match i
    case Stack(op) => |s.stack| + Copies(op) <= cap && (op == Dup2 ==> Reduced(s.stack[|s.stack| - 1].kind) == TosInt)
    case Load(n, k) => |s.stack| < cap && s.locals[n].kind == k
    case Save(n, _) => true
    case Const(_) => |s.stack| < cap
  }

  predicate Runnable(prog: seq<Insn>, s: OneState, cap: nat) {
    prog == [] || (Ready(prog[0], s) && Accepted(prog[0], s, cap) && Runnable(prog[1..], OneStep(prog[0], s), cap))
  }

  /** The handler tables by which the instructions after each one are entered. */
  function Tables(prog: seq<Insn>, s: OneState): seq<Tos>
  {
    if prog == [] || !Ready(prog[0], s) then []
    else
      var t := OneStep(prog[0], s);
      [TosOf(Kinds(t.stack))] + Tables(prog[1..], t)
  }

  lemma TablesSize(prog: seq<Insn>, s: OneState, cap: nat)
    requires Runnable(prog, s, cap)
    ensures |Tables(prog, s)| == |prog|
  {
    if prog != [] { TablesSize(prog[1..], OneStep(prog[0], s), cap); }
  }

  /** The program runs on the specification's machine within `maxStack` slots, and no `dup2` finds a float on top. */
  predicate Fits(prog: seq<Insn>, s: SpecState, maxStack: nat) {
    prog == [] ||
    (&& !(prog[0] == Stack(Dup2) && s.stack != [] && s.stack[|s.stack| - 1].kind == Float)
     && SpecStep(prog[0], s).Some? && |Expand(SpecStep(prog[0], s).value.stack)| <= maxStack
     && Fits(prog[1..], SpecStep(prog[0], s).value, maxStack))
  }

  lemma StepAccepted(i: Insn, s: SpecState, o: OneState, sw: seq<int>, maxStack: nat)
    requires Simulates(s, o, sw) && Fits([i], s, maxStack) && |Expand(s.stack)| <= maxStack && Analyzable(i, Kinds(s.stack), sw)
    requires Ready(Rewrite(i, Kinds(s.stack), sw), o) && Simulates(SpecStep(i, s).value, OneStep(Rewrite(i, Kinds(s.stack), sw), o), sw)
    ensures Accepted(Rewrite(i, Kinds(s.stack), sw), o, maxStack)
  {
    hide Form, Unsplit, Shuffle, Expand, Collapsed;
    DepthShrinks(s.stack, maxStack);
    DepthShrinks(SpecStep(i, s).value.stack, maxStack);
    match i
    case Stack(op) =>
      var r := Collapsed(op, Kinds(s.stack));
      ShuffleSize(r, o.stack);
      if r == Dup2 { CollapsesToDup2(op, Kinds(s.stack)); }
    case Load(n, k) => LocalSwizzle.LoadAgrees(s.locals, o.locals, sw, n, Held(s.locals, n, k).value);
    case Save(n, k) =>
    case Const(v) =>
  }

  lemma ShuffleSize(op: Op, vs: seq<Value>)
    requires Needs(op) <= |vs|
    ensures |Shuffle(op, vs)| == |vs| + Copies(op) - Drops(op) && (Copies(op) > 0 ==> Drops(op) == 0)
  {
  }

  /** Only `dup2` of two category 1 values stays a `dup2`. */
  lemma CollapsesToDup2(op: Op, ks: seq<Kind>)
    requires Unsplit(op, ks) && Collapsed(op, ks) == Dup2
    ensures op == Dup2 && Cat1(ks, 1)
  {
  }

  /** What the interpreter needs of a rewritten program follows from the specification's run of the original. */
  lemma {:induction false} RewrittenRunnable(prog: seq<Insn>, s: SpecState, o: OneState, sw: seq<int>, maxStack: nat)
    requires Simulates(s, o, sw) && Fits(prog, s, maxStack) && |Expand(s.stack)| <= maxStack
    ensures SpecRun(prog, s).Some? && RewriteAll(prog, Kinds(s.stack), sw).Some?
    ensures Runnable(RewriteAll(prog, Kinds(s.stack), sw).value, o, maxStack)
  {
    hide SpecStep, OneStep, Simulates, KindsAfter, Rewrite, Analyzable, Ready, Accepted;
    if prog != [] {
      var i, ks := prog[0], Kinds(s.stack);
      StepAnalyzable(i, s, o, sw);
      StepSimulates(i, s, o, sw);
      var r := Rewrite(i, ks, sw);
      var s', o' := SpecStep(i, s).value, OneStep(r, o);
      assert Fits([i], s, maxStack) by { assert [i][1..] == []; assert Fits([], s', maxStack); }
      StepAccepted(i, s, o, sw, maxStack);
      RewrittenRunnable(prog[1..], s', o', sw, maxStack);
      var rest := RewriteAll(prog[1..], KindsAfter(i, ks, sw), sw);
      assert ([r] + rest.value)[1..] == rest.value;
    }
  }
}
