/** Call frames on a thread's stack, and the collector's scan of them for reference slots. */
module ThreadScan {
  import opened Wrappers

  const HEADER := 5        // words of a stack_frame
  const NATIVE_STACK := 8  // `max_stack` of a native frame
  const UINTPTR_MAX: int := 0xffff_ffff_ffff_ffff

  /** Addresses are in words.  The locals of a plain frame lie directly below `at`, its operand stack above the header.
      `stackRefs` and `localRefs` say which operands and locals hold references at the current instruction;
      `shared` is the number of operands of the caller that are also its first locals. */
  datatype Frame = Frame(at: nat, native: bool, numLocals: nat, maxStack: nat, stackRefs: seq<bool>, localRefs: seq<bool>, shared: nat)

  /** The lowest address of a frame, where its arguments are.  A native frame copies them. */
  function Start(f: Frame): int {
    if f.native then f.at - 2 * f.numLocals else f.at - f.numLocals
  }

  function StackAt(f: Frame, i: int): int { f.at + HEADER + i }

  function LocalAt(f: Frame, i: int): int { f.at - f.numLocals + i }

  ghost predicate FrameOk(f: Frame, end: nat) {
    && |f.stackRefs| <= f.maxStack && |f.localRefs| <= f.numLocals && 0 <= Start(f) && f.shared <= f.numLocals
    && f.at + HEADER <= end && (!f.native ==> f.at + HEADER + f.maxStack <= end) && (f.native ==> f.stackRefs == [] && f.localRefs == [])
  }

  /** `g` was pushed on top of `f`: its arguments are the top operands of `f`, or copied above everything that `f` can use. */
  ghost predicate Follows(f: Frame, g: Frame) {
    || (!f.native && g.shared <= |f.stackRefs| && Start(g) == StackAt(f, |f.stackRefs| - g.shared))
    || (g.shared == 0 && Start(g) == StackAt(f, f.maxStack))
  }

  /** A chain of frames, outermost first. */
  ghost predicate IsChain(frames: seq<Frame>, end: nat) {
    && (forall k :: 0 <= k < |frames| ==> FrameOk(frames[k], end))
    && (forall k :: 0 <= k < |frames| - 1 ==> Follows(frames[k], frames[k + 1]))
  }

  // ---------- pushing frames ----------

  class ThreadStack {
    const bufferStart: nat
    const bufferEnd: nat
    var frames: seq<Frame>

    ghost predicate Valid()
      reads this
    {
      IsChain(frames, bufferEnd) && bufferEnd < UINTPTR_MAX
    }

    constructor (bufferStart: nat, bufferEnd: nat)
      requires bufferEnd < UINTPTR_MAX
      ensures Valid() && frames == [] && this.bufferStart == bufferStart && this.bufferEnd == bufferEnd
    {
      this.bufferStart, this.bufferEnd := bufferStart, bufferEnd;
      frames := [];
    }

    /** `get_next_frame_start`. */
    function NextFrameStart(): nat
      reads this
    {
      if frames == [] then bufferStart else frames[|frames| - 1].at + HEADER + frames[|frames| - 1].maxStack
    }

    /** Where the arguments of a callee are: on the operand stack of the caller, or copied above it. */
    function ArgsAt(argc: nat, operands: bool): int
      reads this
    {
      if operands && frames != [] then StackAt(frames[|frames| - 1], |frames[|frames| - 1].stackRefs| - argc) else NextFrameStart()
    }

    /** The caller is a plain frame with at least `argc` operands. */
    predicate HasOperands(argc: nat)
      reads this
    {
      frames != [] && !frames[|frames| - 1].native && argc <= |frames[|frames| - 1].stackRefs|
    }

    /** `push_plain_frame`: the locals of the callee start at its arguments. */
    method PushPlainFrame(argc: nat, operands: bool, maxLocals: nat, maxStack: nat, localRefs: seq<bool>) returns (ok: bool)
      requires Valid() && (operands ==> HasOperands(argc)) && argc <= maxLocals && |localRefs| <= maxLocals
      modifies this
      ensures Valid() && (ok <==> old(ArgsAt(argc, operands)) + maxLocals + HEADER + maxStack <= bufferEnd)
      ensures !ok ==> frames == old(frames)
      ensures ok && old(frames) == [] ==> |frames| == 1 && Start(frames[0]) == bufferStart
      ensures ok ==> |frames| == |old(frames)| + 1 && frames[..|old(frames)|] == old(frames)
      ensures ok ==> var f := frames[|old(frames)|];
                     && !f.native && Start(f) == old(ArgsAt(argc, operands)) && f.numLocals == maxLocals && f.maxStack == maxStack
                     && f.localRefs == localRefs && f.stackRefs == [] && f.shared == if operands then argc else 0
    {
      var args := ArgsAt(argc, operands);
      var at := args + maxLocals;
      if at + HEADER + maxStack > bufferEnd {
        return false;
      }
      Extended(frames, bufferEnd, Frame(at, false, maxLocals, maxStack, [], localRefs, if operands then argc else 0));
      frames := frames + [Frame(at, false, maxLocals, maxStack, [], localRefs, if operands then argc else 0)];
      ok := true;
    }

    /** `push_native_frame`: the arguments are copied above themselves, wrapped in handles. */
    method PushNativeFrame(argc: nat, operands: bool) returns (ok: bool)
      requires Valid() && (operands ==> HasOperands(argc))
      modifies this
      ensures Valid() && (ok <==> old(ArgsAt(argc, operands)) + 2 * argc + HEADER <= bufferEnd)
      ensures !ok ==> frames == old(frames)
      ensures ok && old(frames) == [] ==> |frames| == 1 && Start(frames[0]) == bufferStart
      ensures ok ==> |frames| == |old(frames)| + 1 && frames[..|old(frames)|] == old(frames)
      ensures ok ==> var f := frames[|old(frames)|];
                     && f.native && Start(f) == old(ArgsAt(argc, operands)) && f.numLocals == argc && f.maxStack == NATIVE_STACK
                     && f.at == Start(f) + 2 * argc && f.stackRefs == [] && f.localRefs == [] && f.shared == if operands then argc else 0
    {
      var args := ArgsAt(argc, operands);
      var locals := args + argc;
      var at := locals + argc;
      if at + HEADER > bufferEnd {
        return false;
      }
      Extended(frames, bufferEnd, Frame(at, true, argc, NATIVE_STACK, [], [], if operands then argc else 0));
      frames := frames + [Frame(at, true, argc, NATIVE_STACK, [], [], if operands then argc else 0)];
      ok := true;
    }

    /** The innermost frame executes: operands and locals change. */
    method Execute(stackRefs: seq<bool>, localRefs: seq<bool>)
      requires Valid() && frames != [] && !frames[|frames| - 1].native
      requires |stackRefs| <= frames[|frames| - 1].maxStack && |localRefs| <= frames[|frames| - 1].numLocals
      modifies this
      ensures Valid() && |frames| == |old(frames)| && frames[..|frames| - 1] == old(frames)[..|frames| - 1]
      ensures frames[|frames| - 1] == old(frames)[|frames| - 1].(stackRefs := stackRefs, localRefs := localRefs)
    {
      var n := |frames| - 1;
      ghost var was := frames;
      frames := frames[n := frames[n].(stackRefs := stackRefs, localRefs := localRefs)];
      forall k | 0 <= k < n ensures Follows(frames[k], frames[k + 1]) { assert Follows(was[k], was[k + 1]); }
    }

    /** Return from the innermost frame. */
    method PopFrame()
      requires Valid() && frames != []
      modifies this
      ensures Valid() && frames == old(frames)[..|old(frames)| - 1]
    {
      ghost var was := frames;
      frames := frames[..|frames| - 1];
      forall k | 0 <= k < |frames| - 1 ensures Follows(frames[k], frames[k + 1]) { assert Follows(was[k], was[k + 1]); }
    }
  }

  lemma Extended(frames: seq<Frame>, end: nat, f: Frame)
    requires IsChain(frames, end) && FrameOk(f, end) && (frames != [] ==> Follows(frames[|frames| - 1], f))
    ensures IsChain(frames + [f], end)
  {
    var g := frames + [f];
    forall k | 0 <= k < |g| - 1 ensures Follows(g[k], g[k + 1]) {
      if k < |frames| - 1 { assert Follows(frames[k], frames[k + 1]); }
    }
  }

  // ---------- which slots there are ----------

  /** Operand `i`, or local `i`, of frame `k` holds a reference. */
  ghost predicate RefOperand(frames: seq<Frame>, k: int, i: int) {
    0 <= k < |frames| && !frames[k].native && 0 <= i < |frames[k].stackRefs| && frames[k].stackRefs[i]
  }

  ghost predicate RefLocal(frames: seq<Frame>, k: int, i: int) {
    0 <= k < |frames| && !frames[k].native && 0 <= i < |frames[k].localRefs| && frames[k].localRefs[i]
  }

  /** Operand `i` of frame `k` has become a local of the plain frame that it called. */
  ghost predicate PassedOn(frames: seq<Frame>, k: int, i: int) {
    0 <= k < |frames| - 1 && !frames[k].native && !frames[k + 1].native && |frames[k].stackRefs| - frames[k + 1].shared <= i
  }

  /** The slots of frame `k` that the scan must deliver. */
  ghost predicate Due(frames: seq<Frame>, k: int, a: int) {
    || (exists i :: RefOperand(frames, k, i) && !PassedOn(frames, k, i) && a == StackAt(frames[k], i))
    || (exists i :: RefLocal(frames, k, i) && a == LocalAt(frames[k], i))
  }

  /** The lowest address scanned once the frames from `k` on have been scanned. */
  ghost function Lowest(frames: seq<Frame>, k: nat): int
    requires k <= |frames|
    decreases |frames| - k
  {
    if k == |frames| then UINTPTR_MAX else if frames[k].native then Lowest(frames, k + 1) else Start(frames[k])
  }

  /** Nothing inner reaches down to the header of frame `k`, nor to its operands that are not passed on. */
  lemma {:induction false} LowestAbove(frames: seq<Frame>, end: nat, k: nat, l: nat)
    requires IsChain(frames, end) && end < UINTPTR_MAX && k < l <= |frames|
    ensures frames[k].at + HEADER <= Lowest(frames, l)
    ensures k + 1 < l ==> frames[k + 1].at + HEADER <= Lowest(frames, l)
    decreases |frames| - l
  {
    assert FrameOk(frames[k], end);
    if l == |frames| {
      if k + 1 < l { assert FrameOk(frames[k + 1], end); }
    } else if frames[l].native {
      LowestAbove(frames, end, k, l + 1);
    } else {
      InnerAbove(frames, end, k, l);
      if k + 1 < l { InnerAbove(frames, end, k + 1, l); }
    }
  }

  lemma {:induction false} InnerAbove(frames: seq<Frame>, end: nat, k: nat, j: nat)
    requires IsChain(frames, end) && k < j < |frames|
    ensures frames[k].at + HEADER <= Start(frames[j])
    decreases j - k
  {
    assert Follows(frames[k], frames[k + 1]) && FrameOk(frames[k], end);
    if k + 1 < j {
      InnerAbove(frames, end, k + 1, j);
      assert FrameOk(frames[k + 1], end);
    }
  }

  /** The comparison with the lowest scanned address singles out exactly the operands that were passed on. */
  lemma BelowLowest(frames: seq<Frame>, end: nat, k: nat, i: nat)
    requires IsChain(frames, end) && end < UINTPTR_MAX && k < |frames| && !frames[k].native && i < |frames[k].stackRefs|
    ensures StackAt(frames[k], i) < Lowest(frames, k + 1) <==> !PassedOn(frames, k, i)
  {
    assert FrameOk(frames[k], end);
    if k + 1 < |frames| {
      assert Follows(frames[k], frames[k + 1]) && FrameOk(frames[k + 1], end);
      if frames[k + 1].native { LowestAbove(frames, end, k, k + 2); }
    }
  }

  // ---------- the scan ----------

  /** The slots of frame `k` among its first `i` operands, and among its first `j` locals. */
  ghost predicate DueBelow(frames: seq<Frame>, k: int, i: int, j: int, a: int) {
    || (exists x :: 0 <= x < i && RefOperand(frames, k, x) && !PassedOn(frames, k, x) && a == StackAt(frames[k], x))
    || (exists x :: 0 <= x < j && RefLocal(frames, k, x) && a == LocalAt(frames[k], x))
  }

  /** `roots` are distinct, and hold what they held before plus the slots of frame `k` found so far. */
  ghost predicate Scanning(frames: seq<Frame>, k: nat, before: seq<int>, roots: seq<int>, i: int, j: int) {
    && Distinct(roots)
    && (forall a :: a in roots <==> a in before || DueBelow(frames, k, i, j, a))
  }

  lemma DistinctSnoc(q: seq<int>, a: int)
    requires Distinct(q) && a !in q
    ensures Distinct(q + [a])
  {
  }

  /** Scan one plain frame.  Everything found so far lies at `lowest` or above. */
  method ScanFrame(frames: seq<Frame>, k: nat, lowest: int, before: seq<int>, ghost end: nat) returns (roots: seq<int>)
    requires IsChain(frames, end) && end < UINTPTR_MAX && k < |frames| && !frames[k].native
    requires lowest == Lowest(frames, k + 1) && Distinct(before) && forall a :: a in before ==> lowest <= a
    ensures Distinct(roots) && (forall a :: a in roots <==> a in before || Due(frames, k, a))
    ensures forall a :: a in roots ==> Start(frames[k]) <= a
  {
    hide IsChain, Lowest, PassedOn, Distinct;
    var f := frames[k];
    FrameFacts(frames, end, k);
    roots := before;
    for i := 0 to |f.stackRefs|
      invariant Scanning(frames, k, before, roots, i, 0)
      invariant forall a :: a in roots ==> a in before || (StackAt(f, 0) <= a < StackAt(f, i))
    {
      BelowLowest(frames, end, k, i);
      var a := StackAt(f, i);
      if f.stackRefs[i] && a < lowest {
        DistinctSnoc(roots, a);
        roots := roots + [a];
      }
      NextOperand(frames, k, i);
    }
    for i := 0 to |f.localRefs|
      invariant Scanning(frames, k, before, roots, |f.stackRefs|, i)
      invariant forall a :: a in roots ==> StackAt(f, 0) <= a || (LocalAt(f, 0) <= a < LocalAt(f, i))
    {
      var a := LocalAt(f, i);
      if f.localRefs[i] {
        DistinctSnoc(roots, a);
        roots := roots + [a];
      }
      NextLocal(frames, k, i);
    }
    AllDue(frames, k);
  }

  lemma FrameFacts(frames: seq<Frame>, end: nat, k: nat)
    requires IsChain(frames, end) && end < UINTPTR_MAX && k < |frames|
    ensures FrameOk(frames[k], end) && frames[k].at + HEADER <= Lowest(frames, k + 1)
  {
    LowestAbove(frames, end, k, k + 1);
  }

  lemma NextOperand(frames: seq<Frame>, k: nat, i: nat)
    requires k < |frames| && !frames[k].native && i < |frames[k].stackRefs|
    ensures forall a :: DueBelow(frames, k, i + 1, 0, a) <==>
              DueBelow(frames, k, i, 0, a) || (frames[k].stackRefs[i] && !PassedOn(frames, k, i) && a == StackAt(frames[k], i))
  {
    forall a ensures DueBelow(frames, k, i + 1, 0, a) <==>
                       DueBelow(frames, k, i, 0, a) || (frames[k].stackRefs[i] && !PassedOn(frames, k, i) && a == StackAt(frames[k], i))
    {
      NextOperandAt(frames, k, i, a);
    }
  }

  lemma NextOperandAt(frames: seq<Frame>, k: nat, i: nat, a: int)
    requires k < |frames| && !frames[k].native && i < |frames[k].stackRefs|
    ensures DueBelow(frames, k, i + 1, 0, a) <==>
              DueBelow(frames, k, i, 0, a) || (frames[k].stackRefs[i] && !PassedOn(frames, k, i) && a == StackAt(frames[k], i))
  {
    hide LocalAt, StackAt, PassedOn;
    assert RefOperand(frames, k, i) <==> frames[k].stackRefs[i];
    if x :| 0 <= x < i + 1 && RefOperand(frames, k, x) && !PassedOn(frames, k, x) && a == StackAt(frames[k], x) {
      assert x == i || 0 <= x < i;
    }
    if x :| 0 <= x < i && RefOperand(frames, k, x) && !PassedOn(frames, k, x) && a == StackAt(frames[k], x) {
      assert 0 <= x < i + 1;
    }
  }

  lemma NextLocal(frames: seq<Frame>, k: nat, i: nat)
    requires k < |frames| && !frames[k].native && i < |frames[k].localRefs|
    ensures forall a :: DueBelow(frames, k, |frames[k].stackRefs|, i + 1, a) <==>
              DueBelow(frames, k, |frames[k].stackRefs|, i, a) || (frames[k].localRefs[i] && a == LocalAt(frames[k], i))
  {
    var n := |frames[k].stackRefs|;
    forall a ensures DueBelow(frames, k, n, i + 1, a) <==>
                       DueBelow(frames, k, n, i, a) || (frames[k].localRefs[i] && a == LocalAt(frames[k], i))
    {
      NextLocalAt(frames, k, i, a);
    }
  }

  lemma NextLocalAt(frames: seq<Frame>, k: nat, i: nat, a: int)
    requires k < |frames| && !frames[k].native && i < |frames[k].localRefs|
    ensures DueBelow(frames, k, |frames[k].stackRefs|, i + 1, a) <==>
              DueBelow(frames, k, |frames[k].stackRefs|, i, a) || (frames[k].localRefs[i] && a == LocalAt(frames[k], i))
  {
    hide LocalAt, StackAt, PassedOn;
    assert RefLocal(frames, k, i) <==> frames[k].localRefs[i];
    if x :| 0 <= x < i + 1 && RefLocal(frames, k, x) && a == LocalAt(frames[k], x) {
      assert x == i || 0 <= x < i;
    }
    if x :| 0 <= x < i && RefLocal(frames, k, x) && a == LocalAt(frames[k], x) {
      assert 0 <= x < i + 1;
    }
  }

  lemma AllDue(frames: seq<Frame>, k: nat)
    requires k < |frames|
    ensures forall a :: DueBelow(frames, k, |frames[k].stackRefs|, |frames[k].localRefs|, a) <==> Due(frames, k, a)
  {
  }

  /** `push_thread_roots`, the frames: no address is delivered twice, and the addresses delivered are exactly those of the
      reference slots, except the operands that have become locals of a callee. */
  method PushThreadRoots(frames: seq<Frame>, ghost end: nat) returns (roots: seq<int>)
    requires IsChain(frames, end) && end < UINTPTR_MAX
    ensures Distinct(roots)
    ensures forall a :: a in roots <==> exists k :: 0 <= k < |frames| && Due(frames, k, a)
  {
    hide IsChain, Due, Distinct;
    roots := [];
    var lowest := UINTPTR_MAX;
    assert Distinct(roots) by { NoneDistinct(); }
    var k := |frames|;
    while k > 0
      invariant 0 <= k <= |frames| && lowest == Lowest(frames, k) && Distinct(roots)
      invariant forall a :: a in roots ==> lowest <= a
      invariant forall a :: a in roots <==> exists j :: k <= j < |frames| && Due(frames, j, a)
    {
      k := k - 1;
      if frames[k].native {
        NativeHasNone(frames, k);
        continue;
      }
      roots := ScanFrame(frames, k, lowest, roots, end);
      lowest := LocalAt(frames[k], 0);
    }
  }

  lemma NoneDistinct()
    ensures Distinct<int>([])
  {
  }

  lemma NativeHasNone(frames: seq<Frame>, k: nat)
    requires k < |frames| && frames[k].native
    ensures forall a :: !Due(frames, k, a)
  {
  }

  /** An operand that was passed on is the callee's local at the same address. */
  lemma PassedOnIsLocal(frames: seq<Frame>, end: nat, k: nat, i: nat)
    requires IsChain(frames, end) && PassedOn(frames, k, i) && i < |frames[k].stackRefs|
    ensures 0 <= i - (|frames[k].stackRefs| - frames[k + 1].shared) < frames[k + 1].numLocals
    ensures StackAt(frames[k], i) == LocalAt(frames[k + 1], i - (|frames[k].stackRefs| - frames[k + 1].shared))
  {
    assert Follows(frames[k], frames[k + 1]) && FrameOk(frames[k], end) && FrameOk(frames[k + 1], end);
  }
}
