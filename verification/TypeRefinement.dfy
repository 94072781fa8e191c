/** Inferring stack and local types without a StackMapTable: passes over the method until nothing changes. */
module TypeRefinement {
  import opened Wrappers

  datatype Type = Void | Int | Float | Reference | Long | Double

  /** Types of an operand stack or of the local variables; Void stands for conflicting types. */
  type State = seq<Type>

  // ---------- intersection ----------

  function Min(a: nat, b: nat): nat { if a < b then a else b }

  /** Keep a type where both agree. */
  function Agreed(d: State, s: State): (r: State)
    ensures |r| == Min(|d|, |s|)
  {
    seq(Min(|d|, |s|), i requires 0 <= i < Min(|d|, |s|) => if d[i] == s[i] then d[i] else Void)
  }

  /** Some entry has lost its type. */
  ghost predicate Loses(d: State, s: State) {
    exists i :: 0 <= i < |d| && i < |s| && d[i] != Void && d[i] != s[i]
  }

  /** Number of entries that have a type. */
  function Typed(s: State): nat {
    if s == [] then 0 else Typed(s[..|s| - 1]) + if s[|s| - 1] == Void then 0 else 1
  }

  lemma {:induction false} TypedPrefix(s: State, n: nat)
    requires n <= |s|
    ensures Typed(s[..n]) <= Typed(s)
  {
    if n < |s| {
      TypedPrefix(s[..|s| - 1], n);
      assert s[..|s| - 1][..n] == s[..n];
    } else {
      assert s[..n] == s;
    }
  }

  /** `e` has the entries of `d` up to its own length, some of them lost. */
  ghost predicate Weaker(e: State, d: State) {
    |e| <= |d| && forall i :: 0 <= i < |e| ==> e[i] == d[i] || e[i] == Void
  }

  lemma {:induction false} WeakerTyped(e: State, d: State)
    requires Weaker(e, d)
    ensures Typed(e) <= Typed(d)
    ensures (exists i :: 0 <= i < |e| && e[i] != d[i]) ==> Typed(e) < Typed(d)
  {
    if e == [] {
    } else {
      var n := |e| - 1;
      WeakerTyped(e[..n], d[..n]);
      assert d[..n + 1][..n] == d[..n];
      TypedPrefix(d, n + 1);
      if i :| 0 <= i < |e| && e[i] != d[i] {
        if i < n { assert e[..n][i] != d[..n][i]; }
      }
    }
  }

  /** The entries whose types disagree lose them. */
  lemma AgreedLowers(d: State, s: State)
    ensures Typed(Agreed(d, s)) <= Typed(d) && (Loses(d, s) ==> Typed(Agreed(d, s)) < Typed(d))
  {
    var e := Agreed(d, s);
    WeakerTyped(e, d);
    if Loses(d, s) {
      var i :| 0 <= i < |d| && i < |s| && d[i] != Void && d[i] != s[i];
      assert e[i] != d[i];
    }
  }

  // ---------- the measure ----------

  /** Program points whose state is not known yet. */
  function Unknown(known: seq<Option<State>>): nat {
    if known == [] then 0 else Unknown(known[..|known| - 1]) + if known[|known| - 1].None? then 1 else 0
  }

  /** Typed entries of all known states. */
  function Entries(known: seq<Option<State>>): nat {
    if known == [] then 0
    else Entries(known[..|known| - 1]) + if known[|known| - 1].None? then 0 else Typed(known[|known| - 1].value)
  }

  lemma {:induction false} MeasureUpdate(known: seq<Option<State>>, x: nat, v: State)
    requires x < |known|
    ensures Unknown(known[x := Some(v)]) == Unknown(known) - (if known[x].None? then 1 else 0)
    ensures Entries(known[x := Some(v)]) == Entries(known) + Typed(v) - (if known[x].None? then 0 else Typed(known[x].value))
  {
    var n := |known| - 1;
    var k' := known[x := Some(v)];
    if x < n {
      assert k'[..n] == known[..n][x := Some(v)];
      MeasureUpdate(known[..n], x, v);
    } else {
      assert k'[..n] == known[..n];
    }
  }

  /** The pair (unknown points, typed entries) has not grown, and is smaller if `changed`. */
  ghost predicate Lowered(was: seq<Option<State>>, now: seq<Option<State>>, changed: bool) {
    && |now| == |was|
    && (Unknown(now) < Unknown(was) || (Unknown(now) == Unknown(was) && Entries(now) <= Entries(was)
                                        && (changed ==> Entries(now) < Entries(was))))
  }

  lemma LoweredTrans(a: seq<Option<State>>, b: seq<Option<State>>, c: seq<Option<State>>, p: bool, q: bool)
    requires Lowered(a, b, p) && Lowered(b, c, q)
    ensures Lowered(a, c, p || q)
  {
  }

  // ---------- what is known of a program point ----------

  /** The state known at point `x` holds nothing that `src` does not confirm. */
  ghost predicate Covers(known: seq<Option<State>>, x: nat, src: State) {
    x < |known| && known[x].Some? && Weaker(known[x].value, src)
  }

  ghost predicate IsPrefix(e: State, d: State) {
    |e| <= |d| && e == d[..|e|]
  }

  /** Known states have only become weaker; if nothing was flagged, no type was lost and no state has become known. */
  ghost predicate Refines(was: seq<Option<State>>, now: seq<Option<State>>, changed: bool) {
    && |now| == |was|
    && (forall x :: 0 <= x < |was| && was[x].Some? ==> now[x].Some? && Weaker(now[x].value, was[x].value))
    && (!changed ==> forall x :: 0 <= x < |was| && now[x].Some? ==> was[x].Some? && IsPrefix(now[x].value, was[x].value))
  }

  lemma WeakerTrans(e: State, d: State, s: State)
    requires Weaker(e, d) && Weaker(d, s)
    ensures Weaker(e, s)
  {
  }

  lemma PrefixTrans(e: State, d: State, s: State)
    requires IsPrefix(e, d) && IsPrefix(d, s)
    ensures IsPrefix(e, s)
  {
    assert s[..|d|][..|e|] == s[..|e|];
  }

  lemma WeakerSame(d: State)
    ensures Weaker(d, d) && IsPrefix(d, d)
  {
  }

  lemma RefinesSame(known: seq<Option<State>>, changed: bool)
    ensures Refines(known, known, changed)
  {
    forall x | 0 <= x < |known| && known[x].Some? ensures Weaker(known[x].value, known[x].value)
        && IsPrefix(known[x].value, known[x].value) {
      WeakerSame(known[x].value);
    }
  }

  lemma RefinesTrans(a: seq<Option<State>>, b: seq<Option<State>>, c: seq<Option<State>>, p: bool, q: bool)
    requires Refines(a, b, p) && Refines(b, c, q) && (p ==> q)
    ensures Refines(a, c, q)
  {
    hide Weaker, IsPrefix;
    forall x | 0 <= x < |a| && a[x].Some? ensures c[x].Some? && Weaker(c[x].value, a[x].value) {
      WeakerTrans(c[x].value, b[x].value, a[x].value);
    }
    if !q {
      forall x | 0 <= x < |a| && c[x].Some? ensures a[x].Some? && IsPrefix(c[x].value, a[x].value) {
        PrefixTrans(c[x].value, b[x].value, a[x].value);
      }
    }
  }

  lemma CoversLater(was: seq<Option<State>>, now: seq<Option<State>>, changed: bool, x: nat, src: State)
    requires Covers(was, x, src) && Refines(was, now, changed)
    ensures Covers(now, x, src)
  {
    WeakerTrans(now[x].value, was[x].value, src);
  }

  /** Intersecting loses no more than it must: whatever both states confirm is kept. */
  lemma AgreedGreatest(d: State, src: State, e: State)
    requires Weaker(e, d) && Weaker(e, src)
    ensures Weaker(e, Agreed(d, src))
  {
  }

  /** Intersecting with `src` leaves a state that both confirm; if no type is lost, it is a prefix of the old one. */
  lemma AgreedCovers(d: State, src: State)
    ensures Weaker(Agreed(d, src), d) && Weaker(Agreed(d, src), src)
    ensures !Loses(d, src) ==> IsPrefix(Agreed(d, src), d)
  {
    var e := Agreed(d, src);
    if !Loses(d, src) {
      forall i | 0 <= i < |e| ensures e[i] == d[i] {}
      assert e == d[..|e|];
    }
  }

  lemma IntersectRefines(known: seq<Option<State>>, x: nat, src: State, changed: bool)
    requires x < |known| && (known[x].None? || Loses(known[x].value, src) ==> changed)
    ensures var e := if known[x].None? then src else Agreed(known[x].value, src);
            Refines(known, known[x := Some(e)], changed) && Covers(known[x := Some(e)], x, src)
  {
    hide Weaker, IsPrefix, Agreed, Loses;
    WeakerSame(src);
    if known[x].Some? { AgreedCovers(known[x].value, src); }
    RefinesSame(known, changed);
  }

  // ---------- the passes ----------

  /** A branch out of an instruction, with the state at the branch. */
  datatype Branch = Branch(target: nat, stack: State, locals: State)

  /** What analyzing an instruction does: fail, or continue with a new state (unless it does not fall through). */
  datatype Effect = Fail | Effect(stack: State, locals: State, terminated: bool, branches: seq<Branch>)

  datatype Handler = Handler(start: nat, end: nat, target: nat)

  ghost predicate EffectOk(e: Effect, n: nat) {
    e.Effect? ==> forall i :: 0 <= i < |e.branches| ==> e.branches[i].target < n
  }

  class Refinement {
    const n: nat                                 // instructions
    const step: (nat, State, State) -> Effect    // analyze_instruction
    const handlers: seq<Handler>
    const entryStack: State
    const entryLocals: State
    var known: seq<Option<State>>                // stacks at 0..n, locals at n..2n
    var changed: bool

    ghost predicate Valid()
      reads this
    {
      && |known| == 2 * n
      && (forall i, s, l :: 0 <= i < n ==> EffectOk(step(i, s, l), n))
      && (forall h :: 0 <= h < |handlers| ==> handlers[h].target < n)
    }

    constructor (n: nat, step: (nat, State, State) -> Effect, handlers: seq<Handler>, entryStack: State, entryLocals: State)
      requires forall i, s, l :: 0 <= i < n ==> EffectOk(step(i, s, l), n)
      requires forall h :: 0 <= h < |handlers| ==> handlers[h].target < n
      ensures Valid() && Unknown(known) <= 2 * n
    {
      this.n, this.step, this.handlers, this.entryStack, this.entryLocals := n, step, handlers, entryStack, entryLocals;
      known := seq(2 * n, _ => None);
      changed := false;
      new;
      UnknownBound(known);
    }

    /** `intersect_analy_stack_state`.  Note that a shorter source shortens the destination without setting `changed`. */
    method Intersect(x: nat, src: State)
      requires Valid() && x < 2 * n
      modifies this
      ensures Valid() && Lowered(old(known), known, changed && !old(changed)) && (old(changed) ==> changed)
      ensures changed && !old(changed) <==> !old(changed) && (old(known[x]).None? || Loses(old(known[x]).value, src))
      ensures known == old(known)[x := Some(if old(known[x]).None? then src else Agreed(old(known[x]).value, src))]
      ensures Refines(old(known), known, changed) && Covers(known, x, src)
    {
      hide Refines, Covers;
      IntersectRefines(known, x, src, changed || known[x].None? || Loses(known[x].value, src));
      if known[x].None? {
        MeasureUpdate(known, x, src);
        known := known[x := Some(src)];
        changed := true;
      } else {
        var dst := known[x].value;
        var min := if |dst| < |src| then |dst| else |src|;
        var out := dst[..min];
        var lost := false;
        for i := 0 to min
          invariant |out| == min && known == old(known) && changed == old(changed)
          invariant forall j :: 0 <= j < min ==> out[j] == if j < i && dst[j] != src[j] then Void else dst[j]
          invariant lost <==> exists j :: 0 <= j < i && dst[j] != Void && dst[j] != src[j]
        {
          if out[i] != src[i] && out[i] != Void {
            out := out[i := Void];
            lost := true;
          }
        }
        assert out == Agreed(dst, src);
        MeasureUpdate(known, x, out);
        AgreedLowers(dst, src);
        known := known[x := Some(out)];
        changed := changed || lost;
      }
    }

    /** The states known at the target hold nothing that the branch does not confirm. */
    ghost predicate Reaches(known: seq<Option<State>>, b: Branch) {
      Covers(known, b.target, b.stack) && Covers(known, n + b.target, b.locals)
    }

    /** So do the locals known at every exception handler that covers instruction `i`. */
    ghost predicate HandlersReached(known: seq<Option<State>>, i: nat, locals: State, count: nat)
      requires count <= |handlers|
    {
      forall h :: 0 <= h < count && handlers[h].start <= i < handlers[h].end ==> Covers(known, n + handlers[h].target, locals)
    }

    /** Instruction `i`, with the input state `ins[i]`, is accepted, and all its branches are accounted for; its input state is the
        output of the instruction before it, if that falls through. */
    ghost predicate FlowAt(known: seq<Option<State>>, ins: seq<(State, State)>, i: nat)
      requires i < |ins|
    {
      var e := step(i, ins[i].0, ins[i].1);
      && e.Effect? && (forall b :: 0 <= b < |e.branches| ==> Reaches(known, e.branches[b]))
      && (i == 0 ==> ins[i] == (entryStack, entryLocals))
      && (i > 0 ==> Reaches(known, Branch(i, ins[i].0, ins[i].1)) && HandlersReached(known, i, ins[i].1, |handlers|))
      && (i > 0 ==> var p := step(i - 1, ins[i - 1].0, ins[i - 1].1); p.Effect? && (!p.terminated ==> ins[i] == (p.stack, p.locals)))
    }

    /** Where nothing falls through to instruction `i`, its input state is the one known there; that may since have been cut. */
    ghost predicate ResumedAt(known: seq<Option<State>>, ins: seq<(State, State)>, i: nat)
      requires i < |ins|
    {
      var p := step(if i == 0 then 0 else i - 1, ins[if i == 0 then 0 else i - 1].0, ins[if i == 0 then 0 else i - 1].1);
      i > 0 && p.Effect? && p.terminated ==>
        && i < |known| && n + i < |known| && known[i].Some? && known[n + i].Some?
        && IsPrefix(known[i].value, ins[i].0) && IsPrefix(known[n + i].value, ins[i].1)
    }

    lemma ReachesLater(was: seq<Option<State>>, now: seq<Option<State>>, changed: bool, b: Branch)
      requires Reaches(was, b) && Refines(was, now, changed)
      ensures Reaches(now, b)
    {
      hide Covers, Refines;
      CoversLater(was, now, changed, b.target, b.stack);
      CoversLater(was, now, changed, n + b.target, b.locals);
    }

    lemma HandlersLater(was: seq<Option<State>>, now: seq<Option<State>>, changed: bool, i: nat, locals: State, count: nat)
      requires count <= |handlers| && HandlersReached(was, i, locals, count) && Refines(was, now, changed)
      ensures HandlersReached(now, i, locals, count)
    {
      hide Covers, Refines;
      forall h | 0 <= h < count && handlers[h].start <= i < handlers[h].end ensures Covers(now, n + handlers[h].target, locals) {
        CoversLater(was, now, changed, n + handlers[h].target, locals);
      }
    }

    lemma FlowLater(was: seq<Option<State>>, now: seq<Option<State>>, changed: bool, ins: seq<(State, State)>, i: nat)
      requires i < |ins| && FlowAt(was, ins, i) && Refines(was, now, changed)
      ensures FlowAt(now, ins, i)
      ensures !changed && ResumedAt(was, ins, i) ==> ResumedAt(now, ins, i)
    {
      hide Reaches, HandlersReached;
      var e := step(i, ins[i].0, ins[i].1);
      forall b | 0 <= b < |e.branches| ensures Reaches(now, e.branches[b]) { ReachesLater(was, now, changed, e.branches[b]); }
      if i > 0 {
        ReachesLater(was, now, changed, Branch(i, ins[i].0, ins[i].1));
        HandlersLater(was, now, changed, i, ins[i].1, |handlers|);
        if !changed && ResumedAt(was, ins, i) && step(i - 1, ins[i - 1].0, ins[i - 1].1).terminated {
          PrefixTrans(now[i].value, was[i].value, ins[i].0);
          PrefixTrans(now[n + i].value, was[n + i].value, ins[i].1);
        }
      }
    }

    /** `push_branch_target`. */
    method PushBranch(b: Branch)
      requires Valid() && b.target < n
      modifies this
      ensures Valid() && Lowered(old(known), known, changed && !old(changed)) && (old(changed) ==> changed)
      ensures Refines(old(known), known, changed) && Reaches(known, b)
    {
      hide Lowered, Refines, Covers, Agreed, Loses;
      ghost var k0, c0 := known, changed;
      Intersect(b.target, b.stack);
      ghost var k1, c1 := known, changed;
      Intersect(n + b.target, b.locals);
      LoweredTrans(k0, k1, known, c1 && !c0, changed && !c1);
      RefinesTrans(k0, k1, known, c1, changed);
      CoversLater(k1, known, changed, b.target, b.stack);
    }

    /** `intersect_exception_handlers`. */
    method IntersectHandlers(i: nat, locals: State)
      requires Valid() && i < n
      modifies this
      ensures Valid() && Lowered(old(known), known, changed && !old(changed)) && (old(changed) ==> changed)
      ensures Refines(old(known), known, changed) && HandlersReached(known, i, locals, |handlers|)
    {
      hide Lowered, Refines, Covers, Agreed, Loses;
      LoweredSame(known);
      RefinesSame(known, changed);
      for h := 0 to |handlers|
        invariant Valid() && Lowered(old(known), known, changed && !old(changed)) && (old(changed) ==> changed)
        invariant Refines(old(known), known, changed) && HandlersReached(known, i, locals, h)
      {
        if handlers[h].start <= i < handlers[h].end {
          ghost var k1, c1 := known, changed;
          Intersect(n + handlers[h].target, locals);
          LoweredTrans(old(known), k1, known, c1 && !old(changed), changed && !c1);
          RefinesTrans(old(known), k1, known, c1, changed);
          HandlersLater(k1, known, changed, i, locals, h);
        }
      }
    }

    /** `fill_exception_handlers`: a handler starts with one reference on the stack. */
    method FillHandlers()
      requires Valid()
      modifies this
      ensures Valid() && HandlerStacks(known, |handlers|)
    {
      hide Lowered, Refines, Covers, Agreed, Loses;
      for h := 0 to |handlers|
        invariant Valid() && HandlerStacks(known, h)
      {
        ghost var k1 := known;
        Intersect(handlers[h].target, [Reference]);
        StacksLater(k1, known, changed, h);
      }
    }

    ghost predicate HandlerStacks(known: seq<Option<State>>, count: nat)
      requires count <= |handlers|
    {
      forall h :: 0 <= h < count ==> Covers(known, handlers[h].target, [Reference])
    }

    lemma StacksLater(was: seq<Option<State>>, now: seq<Option<State>>, changed: bool, count: nat)
      requires count <= |handlers| && HandlerStacks(was, count) && Refines(was, now, changed)
      ensures HandlerStacks(now, count)
    {
      hide Covers, Refines;
      forall h | 0 <= h < count ensures Covers(now, handlers[h].target, [Reference]) {
        CoversLater(was, now, changed, handlers[h].target, [Reference]);
      }
    }

    /** The first `i` instructions have been passed. */
    ghost predicate Passed(known: seq<Option<State>>, changed: bool, ins: seq<(State, State)>, i: nat) {
      && |ins| == i && (forall k :: 0 <= k < i ==> FlowAt(known, ins, k))
      && (!changed ==> forall k :: 0 <= k < i ==> ResumedAt(known, ins, k))
    }

    lemma PassedLater(was: seq<Option<State>>, now: seq<Option<State>>, c: bool, changed: bool, ins: seq<(State, State)>, i: nat)
      requires Passed(was, c, ins, i) && Refines(was, now, changed) && (c ==> changed)
      ensures Passed(now, changed, ins, i)
    {
      hide FlowAt, ResumedAt, Refines;
      forall k | 0 <= k < i ensures FlowAt(now, ins, k) && (!changed ==> ResumedAt(now, ins, k)) {
        FlowLater(was, now, changed, ins, k);
      }
    }

    lemma PassedNext(known: seq<Option<State>>, changed: bool, ins: seq<(State, State)>, i: nat, input: (State, State))
      requires Passed(known, changed, ins, i)
      requires FlowAt(known, ins + [input], i) && (!changed ==> ResumedAt(known, ins + [input], i))
      ensures Passed(known, changed, ins + [input], i + 1)
    {
      var more := ins + [input];
      forall k | 0 <= k < i ensures FlowAt(known, more, k) && (!changed ==> ResumedAt(known, more, k)) {
        assert FlowAt(known, ins, k) && more[k] == ins[k] && (k > 0 ==> more[k - 1] == ins[k - 1]);
        assert !changed ==> ResumedAt(known, ins, k);
      }
    }

    /** The state that instruction `i` starts with, if it is not the first, and what is known once it is accounted for. */
    method Arrive(i: nat, stack0: State, locals0: State, terminated: bool) returns (ok: bool, stack: State, locals: State)
      requires Valid() && 0 < i < n
      modifies this
      ensures Valid() && Lowered(old(known), known, changed && !old(changed)) && (old(changed) ==> changed)
      ensures Refines(old(known), known, changed)
      ensures !terminated ==> ok && (stack, locals) == (stack0, locals0)
      ensures ok ==> Reaches(known, Branch(i, stack, locals)) && HandlersReached(known, i, locals, |handlers|)
      ensures ok && terminated && !changed ==> KnownAt(known, i, stack, locals)
    {
      hide Lowered, Refines, Covers, Agreed, Loses, IsPrefix;
      ok, stack, locals := true, stack0, locals0;
      LoweredSame(known);
      RefinesSame(known, changed);
      ghost var k1, c1 := known, changed;
      if terminated {
        if known[i].None? || known[n + i].None? {
          return false, stack0, locals0;
        }
        stack, locals := known[i].value, known[n + i].value;
        KnownHere(known, i);
      } else {
        PushBranch(Branch(i, stack, locals));
      }
      ghost var k2, c2 := known, changed;
      IntersectHandlers(i, locals);
      LoweredTrans(k1, k2, known, c2 && !c1, changed && !c2);
      RefinesTrans(k1, k2, known, c2, changed);
      ReachesLater(k2, known, changed, Branch(i, stack, locals));
      if terminated && !changed { KnownLater(k2, known, i, stack, locals); }
    }

    /** What is known at instruction `i` is a prefix of these states. */
    ghost predicate KnownAt(known: seq<Option<State>>, i: nat, stack: State, locals: State) {
      && i < |known| && n + i < |known| && known[i].Some? && known[n + i].Some?
      && IsPrefix(known[i].value, stack) && IsPrefix(known[n + i].value, locals)
    }

    lemma KnownHere(known: seq<Option<State>>, i: nat)
      requires i < |known| && n + i < |known| && known[i].Some? && known[n + i].Some?
      ensures KnownAt(known, i, known[i].value, known[n + i].value) && Reaches(known, Branch(i, known[i].value, known[n + i].value))
    {
      WeakerSame(known[i].value);
      WeakerSame(known[n + i].value);
    }

    lemma KnownLater(was: seq<Option<State>>, now: seq<Option<State>>, i: nat, stack: State, locals: State)
      requires KnownAt(was, i, stack, locals) && Refines(was, now, false)
      ensures KnownAt(now, i, stack, locals)
    {
      PrefixTrans(now[i].value, was[i].value, stack);
      PrefixTrans(now[n + i].value, was[n + i].value, locals);
    }

    /** One pass over the method.  Fails if an instruction is rejected, or is reached only by code that no branch leads to.
        `ins` are the states that the instructions started with. */
    method Pass() returns (ok: bool, ghost ins: seq<(State, State)>)
      requires Valid()
      modifies this
      ensures Valid() && Lowered(old(known), known, changed && !old(changed)) && (old(changed) ==> changed)
      ensures Refines(old(known), known, changed)
      ensures ok ==> Passed(known, changed, ins, n)
    {
      hide Lowered, Refines, Covers, Passed, FlowAt, ResumedAt, Reaches, HandlersReached, KnownAt;
      LoweredSame(known);
      RefinesSame(known, changed);
      ins := [];
      PassStarts();
      var stack, locals, terminated := entryStack, entryLocals, true;
      for i := 0 to n
        invariant Valid() && Lowered(old(known), known, changed && !old(changed)) && (old(changed) ==> changed)
        invariant Refines(old(known), known, changed) && Passed(known, changed, ins, i) && |ins| == i
        invariant i == 0 ==> (stack, locals) == (entryStack, entryLocals)
        invariant i > 0 ==> step(i - 1, ins[i - 1].0, ins[i - 1].1) == Effect(stack, locals, terminated, Branches(i - 1, ins))
      {
        ghost var k1, c1, out := known, changed, (stack, locals);
        if i != 0 { // the entry state comes from the method descriptor
          var found;
          found, stack, locals := Arrive(i, stack, locals, terminated);
          LoweredTrans(old(known), k1, known, c1 && !old(changed), changed && !c1);
          RefinesTrans(old(known), k1, known, c1, changed);
          PassedLater(k1, known, c1, changed, ins, i);
          if !found {
            return false, [];
          }
        }
        var e := step(i, stack, locals);
        if e.Fail? {
          return false, [];
        }
        assert EffectOk(e, n);
        ghost var k2, c2 := known, changed;
        PushBranches(e.branches);
        LoweredTrans(old(known), k2, known, c2 && !old(changed), changed && !c2);
        RefinesTrans(old(known), k2, known, c2, changed);
        PassedLater(k2, known, c2, changed, ins, i);
        Flows(k2, known, changed, ins, i, (stack, locals), out, terminated);
        PassedNext(known, changed, ins, i, (stack, locals));
        ins := ins + [(stack, locals)];
        stack, locals, terminated := e.stack, e.locals, e.terminated;
      }
      ok := true;
    }

    ghost function Branches(i: nat, ins: seq<(State, State)>): seq<Branch>
      requires i < |ins|
    {
      var e := step(i, ins[i].0, ins[i].1);
      if e.Effect? then e.branches else []
    }

    lemma PassStarts()
      ensures Passed(known, changed, [], 0)
    {
    }

    /** Push all branches of an instruction. */
    method PushBranches(list: seq<Branch>)
      requires Valid() && forall b :: 0 <= b < |list| ==> list[b].target < n
      modifies this
      ensures Valid() && Lowered(old(known), known, changed && !old(changed)) && (old(changed) ==> changed)
      ensures Refines(old(known), known, changed) && forall b :: 0 <= b < |list| ==> Reaches(known, list[b])
    {
      hide Lowered, Refines, Covers, Reaches;
      LoweredSame(known);
      RefinesSame(known, changed);
      for b := 0 to |list|
        invariant Valid() && Lowered(old(known), known, changed && !old(changed)) && (old(changed) ==> changed)
        invariant Refines(old(known), known, changed) && forall c :: 0 <= c < b ==> Reaches(known, list[c])
      {
        ghost var k3, c3 := known, changed;
        PushBranch(list[b]);
        LoweredTrans(old(known), k3, known, c3 && !old(changed), changed && !c3);
        RefinesTrans(old(known), k3, known, c3, changed);
        forall c | 0 <= c < b ensures Reaches(known, list[c]) { ReachesLater(k3, known, changed, list[c]); }
      }
    }

    /** Instruction `i` is accounted for. */
    lemma Flows(was: seq<Option<State>>, now: seq<Option<State>>, changed: bool, ins: seq<(State, State)>, i: nat,
                input: (State, State), out: (State, State), terminated: bool)
      requires |ins| == i && Refines(was, now, changed)
      requires var e := step(i, input.0, input.1); e.Effect? && forall b :: 0 <= b < |e.branches| ==> Reaches(now, e.branches[b])
      requires i == 0 ==> input == (entryStack, entryLocals)
      requires i > 0 ==> step(i - 1, ins[i - 1].0, ins[i - 1].1) == Effect(out.0, out.1, terminated, Branches(i - 1, ins))
      requires i > 0 ==> Reaches(was, Branch(i, input.0, input.1)) && HandlersReached(was, i, input.1, |handlers|)
      requires i > 0 && !terminated ==> input == out
      requires i > 0 && terminated && !changed ==> KnownAt(was, i, input.0, input.1)
      ensures FlowAt(now, ins + [input], i) && (!changed ==> ResumedAt(now, ins + [input], i))
    {
      hide Refines, Reaches, HandlersReached;
      if i > 0 {
        assert (ins + [input])[i - 1] == ins[i - 1];
        ReachesLater(was, now, changed, Branch(i, input.0, input.1));
        HandlersLater(was, now, changed, i, input.1, |handlers|);
        if terminated && !changed { KnownLater(was, now, i, input.0, input.1); }
      }
    }

    /** The refinement loop of `analyze_method_code`: it ends for every method, because each pass that changes something
        lowers the pair (unknown points, typed entries).  In the end every branch, handler and fall-through is accounted for. */
    method Refine() returns (ok: bool, ghost ins: seq<(State, State)>)
      requires Valid()
      modifies this
      ensures Valid() && (ok ==> !changed)
      ensures ok ==> HandlerStacks(known, |handlers|) && |ins| == n
      ensures ok ==> forall i :: 0 <= i < n ==> FlowAt(known, ins, i) && ResumedAt(known, ins, i)
    {
      hide HandlerStacks, FlowAt, ResumedAt, Refines;
      FillHandlers();
      ghost var k0 := known;
      ok, ins := Pass();
      StacksLater(k0, known, changed, |handlers|);
      while ok && changed
        invariant Valid() && HandlerStacks(known, |handlers|) && (ok ==> Passed(known, changed, ins, n))
        decreases Unknown(known), Entries(known), changed, ok
      {
        changed := false;
        k0 := known;
        ok, ins := Pass();
        StacksLater(k0, known, changed, |handlers|);
      }
    }
  }

  lemma LoweredSame(known: seq<Option<State>>)
    ensures Lowered(known, known, false)
  {
  }

  lemma {:induction false} UnknownBound(known: seq<Option<State>>)
    ensures Unknown(known) <= |known|
  {
    if known != [] { UnknownBound(known[..|known| - 1]); }
  }
}
