/** The mark phase: set the reachable flag of everything strongly reachable from the roots, and list it. */
module Mark {
  import opened Wrappers
  import opened Memory

  // ---------- where the mark word of an object is ----------

  /** The word that holds an object's flags: its header, or the mark word of its monitor. */
  function MarkAddr(m: seq<int>, e: int): int
    requires 0 <= At(e) < |m|
  {
    if IsMarkWord(m[At(e)]) then At(e) else At(m[At(e)]) + 1
  }

  ghost function Marks(m: seq<int>, objects: set<int>): set<int>
    requires forall e :: e in objects ==> 0 <= At(e) < |m|
  {
    set e | e in objects :: MarkAddr(m, e)
  }

  ghost predicate Objects(blocks: set<int>, s: set<int>) {
    forall e :: e in s ==> e in blocks && !IsMonitor(e)
  }

  lemma WordsBound(env: Env, m: seq<int>, e: int)
    requires EntryOk(env, m, e)
    ensures 2 <= EntryWords(env, m, e)
    ensures 0 <= At(e) && At(e) + EntryWords(env, m, e) <= env.limit
  {
  }

  lemma BlockOk(env: Env, m: seq<int>, blocks: set<int>, top: int, e: int)
    requires WellFormed(env, m, blocks, top) && e in blocks
    ensures EntryOk(env, m, e) && 2 <= EntryWords(env, m, e)
    ensures 0 <= env.base <= At(e) && At(e) + EntryWords(env, m, e) <= top <= env.limit <= |m|
  {
    WordsBound(env, m, e);
  }

  lemma StrongSlotOk(env: Env, m: seq<int>, blocks: set<int>, top: int, e: int, i: int)
    requires WellFormed(env, m, blocks, top) && e in blocks && !IsMonitor(e)
    requires EntryOk(env, m, e) && 0 <= i < |Strong(env, m, e)|
    ensures 2 <= Strong(env, m, e)[i] < EntryWords(env, m, e) && At(e) + Strong(env, m, e)[i] < |m|
    ensures 0 <= At(e) && SlotOk(env, blocks, m[At(e) + Strong(env, m, e)[i]])
  {
    StrongSlotFacts(ClassOf(env, m, At(e)), Length(env, m, At(e)));
    WordsBound(env, m, e);
    assert Strong(env, m, e)[i] in Strong(env, m, e);
  }

  lemma OldSlotOk(env: Env, m: seq<int>, blocks: set<int>, top: int, e: int, t: int)
    requires WellFormed(env, m, blocks, top) && e in blocks && EntryOk(env, m, e) && !IsMonitor(e) && 0 <= t < EntryWords(env, m, e)
    requires t in Strong(env, m, e) || Weak(env, m, e, t)
    ensures 0 <= At(e) && At(e) + t < |m| && SlotOk(env, blocks, m[At(e) + t])
  {
    BlockOk(env, m, blocks, top, e);
  }

  /** Blocks that share a word are the same block. */
  lemma SameBlock(env: Env, m: seq<int>, blocks: set<int>, top: int, b: int, c: int, a: int)
    requires Placed(env, m, blocks, top) && b in blocks && c in blocks
    requires At(b) <= a < At(b) + EntryWords(env, m, b) && At(c) <= a < At(c) + EntryWords(env, m, c)
    ensures b == c
  {
  }

  lemma MarkAddrWhere(env: Env, m: seq<int>, blocks: set<int>, top: int, e: int)
    requires WellFormed(env, m, blocks, top) && e in blocks && !IsMonitor(e)
    ensures 0 <= At(e) < |m|
    ensures env.base <= MarkAddr(m, e) < top <= |m| && At(e) <= MarkAddr(m, e)
    ensures if IsMarkWord(m[At(e)]) then MarkAddr(m, e) == At(e)
            else m[At(e)] + 1 in blocks && IsMonitor(m[At(e)] + 1) && MarkAddr(m, e) == At(m[At(e)] + 1) + 1
    ensures IsMarkWord(m[MarkAddr(m, e)]) && !Flagged(m[MarkAddr(m, e)])
  {
    WordsBound(env, m, e);
    assert HeaderOk(env, m, blocks, e);
    if !IsMarkWord(m[At(e)]) {
      assert HeaderOk(env, m, blocks, m[At(e)] + 1);
      assert EntryOk(env, m, m[At(e)] + 1);
    }
  }

  /** A mark word inside block `b` is `b`'s own header, or the second word of a monitor whose owner is marked. */
  lemma MarkInBlock(env: Env, m: seq<int>, blocks: set<int>, top: int, e: int, b: int)
    requires WellFormed(env, m, blocks, top) && e in blocks && !IsMonitor(e) && b in blocks
    requires 0 <= At(e) < |m|
    requires At(b) <= MarkAddr(m, e) < At(b) + EntryWords(env, m, b)
    ensures if IsMonitor(b) then !IsMarkWord(m[At(e)]) && b == m[At(e)] + 1 && MarkAddr(m, e) == At(b) + 1
            else b == e && MarkAddr(m, e) == At(b)
  {
    MarkAddrWhere(env, m, blocks, top, e);
    WordsBound(env, m, e);
    if IsMarkWord(m[At(e)]) {
      SameBlock(env, m, blocks, top, e, b, At(e));
    } else {
      SameBlock(env, m, blocks, top, m[At(e)] + 1, b, MarkAddr(m, e));
    }
  }

  lemma MarkAddrInjective(env: Env, m: seq<int>, blocks: set<int>, top: int, e: int, f: int)
    requires WellFormed(env, m, blocks, top) && e in blocks && f in blocks && !IsMonitor(e) && !IsMonitor(f)
    requires 0 <= At(e) < |m| && 0 <= At(f) < |m| && MarkAddr(m, e) == MarkAddr(m, f)
    ensures e == f
  {
    MarkAddrWhere(env, m, blocks, top, e);
    WordsBound(env, m, e);
    if IsMarkWord(m[At(e)]) {
      MarkInBlock(env, m, blocks, top, f, e);
    } else {
      MarkInBlock(env, m, blocks, top, f, m[At(e)] + 1);
      assert SharesMonitor(env, m, e, f);
    }
  }

  // ---------- memory during marking ----------

  /** `m` is `m0` with exactly the flags of `marked` set. */
  ghost predicate MarkedMem(m0: seq<int>, m: seq<int>, marked: set<int>) {
    && |m| == |m0|
    && (forall e :: e in marked ==> 0 <= At(e) < |m0|)
    && forall a :: 0 <= a < |m| ==> m[a] == if a in Marks(m0, marked) then m0[a] + 2 else m0[a]
  }

  ghost predicate MarkState(env: Env, m0: seq<int>, m: seq<int>, blocks: set<int>, top: int, marked: set<int>) {
    WellFormed(env, m0, blocks, top) && Objects(blocks, marked) && MarkedMem(m0, m, marked)
  }

  /** Marking changes only mark words, so sizes, slots and mark addresses can be read from the original. */
  lemma MarkedReads(env: Env, m0: seq<int>, m: seq<int>, blocks: set<int>, top: int, marked: set<int>, b: int, t: int)
    requires MarkState(env, m0, m, blocks, top, marked) && b in blocks && 0 <= t < EntryWords(env, m0, b)
    requires if IsMonitor(b) then t != 1 else t != 0
    ensures 0 <= At(b) && At(b) + t < |m| && m[At(b) + t] == m0[At(b) + t]
  {
    WordsBound(env, m0, b);
    if At(b) + t in Marks(m0, marked) {
      var e :| e in marked && MarkAddr(m0, e) == At(b) + t;
      MarkInBlock(env, m0, blocks, top, e, b);
    }
  }

  lemma FlagToggles(w: int)
    requires IsMarkWord(w) && !Flagged(w)
    ensures IsMarkWord(w + 2) && Flagged(w + 2) && SetFlag(w) == w + 2 && ClearFlag(w + 2) == w
  {
  }

  /** Which marked object's flag a word holds, if any. */
  lemma MarksOnlyOwn(env: Env, m0: seq<int>, blocks: set<int>, top: int, marked: set<int>, e: int, a: int)
    requires WellFormed(env, m0, blocks, top) && Objects(blocks, marked) && e in blocks && !IsMonitor(e)
    requires forall f :: f in marked + {e} ==> 0 <= At(f) < |m0|
    requires a == At(e) || a == MarkAddr(m0, e)
    ensures a in Marks(m0, marked) <==> e in marked && a == MarkAddr(m0, e)
  {
    WordsBound(env, m0, e);
    if a in Marks(m0, marked) {
      var f :| f in marked && MarkAddr(m0, f) == a;
      if a == At(e) {
        MarkInBlock(env, m0, blocks, top, f, e);
      } else {
        MarkAddrInjective(env, m0, blocks, top, f, e);
      }
    }
  }

  /** The flag that the code tests says whether the object is marked. */
  lemma FlagMeansMarked(env: Env, m0: seq<int>, m: seq<int>, blocks: set<int>, top: int, marked: set<int>, v: int)
    requires MarkState(env, m0, m, blocks, top, marked) && v in blocks && !IsMonitor(v)
    ensures 0 <= At(v) < |m| && MarkAddr(m, v) == MarkAddr(m0, v)
    ensures IsMarkWord(m[At(v)]) == IsMarkWord(m0[At(v)])
    ensures !IsMarkWord(m[At(v)]) ==> m[At(v)] == m0[At(v)]
    ensures 0 <= MarkAddr(m, v) < |m|
    ensures Flagged(m[MarkAddr(m, v)]) <==> v in marked
  {
    hide WellFormed;
    MarkAddrWhere(env, m0, blocks, top, v);
    var a := MarkAddr(m0, v);
    MarksOnlyOwn(env, m0, blocks, top, marked, v, At(v));
    MarksOnlyOwn(env, m0, blocks, top, marked, v, a);
    FlagToggles(m0[a]);
  }

  lemma StartUnmarked(env: Env, m: seq<int>, blocks: set<int>, top: int)
    requires WellFormed(env, m, blocks, top)
    ensures MarkState(env, m, m, blocks, top, {})
  {
  }

  lemma SetFlagMarks(env: Env, m0: seq<int>, m: seq<int>, blocks: set<int>, top: int, marked: set<int>, v: int)
    requires MarkState(env, m0, m, blocks, top, marked) && v in blocks && !IsMonitor(v) && v !in marked
    ensures 0 <= At(v) < |m| && 0 <= MarkAddr(m, v) < |m|
    ensures MarkState(env, m0, m[MarkAddr(m, v) := SetFlag(m[MarkAddr(m, v)])], blocks, top, marked + {v})
  {
    FlagMeansMarked(env, m0, m, blocks, top, marked, v);
    MarkAddrWhere(env, m0, blocks, top, v);
    NotMarkedYet(env, m0, blocks, top, marked, v);
    FlagToggles(m0[MarkAddr(m0, v)]);
    hide WellFormed, At, IsMonitor, MarkAddr, SetFlag, Flagged;
    assert Marks(m0, marked + {v}) == Marks(m0, marked) + {MarkAddr(m0, v)};
  }

  /** No other object has its mark word where `v` has it. */
  lemma NotMarkedYet(env: Env, m0: seq<int>, blocks: set<int>, top: int, marked: set<int>, v: int)
    requires WellFormed(env, m0, blocks, top) && Objects(blocks, marked) && v in blocks && !IsMonitor(v) && v !in marked
    requires 0 <= At(v) < |m0| && forall e :: e in marked ==> 0 <= At(e) < |m0|
    ensures MarkAddr(m0, v) !in Marks(m0, marked)
  {
    hide WellFormed, MarkAddr;
    if MarkAddr(m0, v) in Marks(m0, marked) {
      var e :| e in marked && MarkAddr(m0, e) == MarkAddr(m0, v);
      MarkAddrInjective(env, m0, blocks, top, e, v);
    }
  }

  // ---------- the algorithm ----------

  /** Test, flag and push one pointer: the step that roots, fields and array elements share. */
  method Visit(env: Env, mem: array<int>, v: int, worklist: seq<int>,
               ghost m0: seq<int>, ghost blocks: set<int>, ghost top: int, ghost marked: set<int>)
    returns (worklist': seq<int>, ghost marked': set<int>)
    requires MarkState(env, m0, mem[..], blocks, top, marked) && SlotOk(env, blocks, v)
    modifies mem
    ensures MarkState(env, m0, mem[..], blocks, top, marked')
    ensures marked' == if InHeap(env, v) then marked + {v} else marked
    ensures worklist' == if InHeap(env, v) && v !in marked then worklist + [v] else worklist
  {
    worklist', marked' := worklist, marked;
    if v != 0 && InHeap(env, v) {
      FlagMeansMarked(env, m0, mem[..], blocks, top, marked, v);
      var a := if IsMarkWord(mem[At(v)]) then At(v) else At(mem[At(v)]) + 1;
      if !Flagged(mem[a]) {
        SetFlagMarks(env, m0, mem[..], blocks, top, marked, v);
        ghost var before := mem[..];
        mem[a] := SetFlag(mem[a]);
        assert mem[..] == before[a := SetFlag(before[a])];
        worklist', marked' := worklist + [v], marked + {v};
      }
      assert marked' == marked + {v};
    }
  }

  ghost function Elements(s: seq<int>): set<int> {
    set x | x in s
  }

  /** The marked objects are those already listed and, once each, those still on the worklist. */
  ghost predicate Frontier(done: set<int>, worklist: seq<int>, marked: set<int>) {
    marked == done + Elements(worklist) && done !! Elements(worklist) && Distinct(worklist)
  }

  lemma FrontierPush(done: set<int>, worklist: seq<int>, marked: set<int>, v: int)
    requires Frontier(done, worklist, marked) && v !in marked
    ensures Frontier(done, worklist + [v], marked + {v})
  {
    assert Elements(worklist + [v]) == Elements(worklist) + {v};
  }

  lemma FrontierPop(done: set<int>, worklist: seq<int>, marked: set<int>)
    requires Frontier(done, worklist, marked) && 0 < |worklist|
    ensures Frontier(done + {worklist[|worklist| - 1]}, worklist[..|worklist| - 1], marked)
    ensures worklist[|worklist| - 1] in marked && worklist[|worklist| - 1] !in done
  {
    var v := worklist[|worklist| - 1];
    assert worklist == worklist[..|worklist| - 1] + [v];
    assert Elements(worklist) == Elements(worklist[..|worklist| - 1]) + {v};
  }

  /** `objs` lists exactly the `done` objects and their monitors. */
  ghost predicate Listed(m0: seq<int>, objs: seq<int>, done: set<int>) {
    && (forall e :: e in done ==> 0 <= At(e) < |m0|)
    && Distinct(objs) && Elements(objs) == WithMonitors(m0, done)
  }

  ghost predicate Closed(env: Env, m: seq<int>, done: set<int>, marked: set<int>) {
    forall x, y :: x in done && Edge(env, m, x, y) ==> y in marked
  }

  ghost function Targets(m: seq<int>, roots: seq<nat>): set<int>
    requires forall i :: 0 <= i < |roots| ==> roots[i] < |m|
  {
    set i | 0 <= i < |roots| :: m[roots[i]]
  }

  ghost predicate RootsOk(env: Env, m: seq<int>, blocks: set<int>, roots: seq<nat>) {
    && (forall i :: 0 <= i < |roots| ==> roots[i] < |m| && !(env.base <= roots[i] < env.limit))
    && (forall i :: 0 <= i < |roots| ==> InHeap(env, m[roots[i]]) && SlotOk(env, blocks, m[roots[i]]))
  }

  /** Listing an object and its monitor keeps the list free of duplicates. */
  lemma ListObject(env: Env, m0: seq<int>, blocks: set<int>, top: int, objs: seq<int>, done: set<int>, obj: int)
    requires WellFormed(env, m0, blocks, top) && Objects(blocks, done) && obj in blocks && !IsMonitor(obj) && obj !in done
    requires forall e :: e in done + {obj} ==> 0 <= At(e) < |m0|
    requires Distinct(objs) && Elements(objs) == WithMonitors(m0, done)
    ensures var objs' := objs + (if IsMarkWord(m0[At(obj)]) then [obj] else [obj, m0[At(obj)] + 1]);
            Distinct(objs') && Elements(objs') == WithMonitors(m0, done + {obj})
  {
    var mon := m0[At(obj)] + 1;
    NotListedYet(env, m0, blocks, top, done, obj);
    var more := if IsMarkWord(m0[At(obj)]) then [obj] else [obj, mon];
    hide WellFormed, At, IsMarkWord, IsMonitor, WithMonitors;
    OneMoreObject(m0, done, obj);
    assert forall x :: x in objs ==> x in Elements(objs);
    ListMore(objs, more);
  }

  lemma OneMoreObject(m0: seq<int>, done: set<int>, obj: int)
    requires forall e :: e in done + {obj} ==> 0 <= At(e) < |m0|
    ensures WithMonitors(m0, done + {obj}) ==
            WithMonitors(m0, done) + (if IsMarkWord(m0[At(obj)]) then {obj} else {obj, m0[At(obj)] + 1})
  {
    hide At, IsMarkWord;
    var mon := m0[At(obj)] + 1;
    assert MonitorEntries(m0, done + {obj}) == MonitorEntries(m0, done) + (if IsMarkWord(m0[At(obj)]) then {} else {mon});
  }

  lemma ListMore(objs: seq<int>, more: seq<int>)
    requires Distinct(objs) && Distinct(more) && forall x :: x in more ==> x !in objs
    ensures Distinct(objs + more) && Elements(objs + more) == Elements(objs) + Elements(more)
  {
    var all := objs + more;
    forall i, j | 0 <= i < j < |all| ensures all[i] != all[j] {
      if i < |objs| <= j { assert all[j] == more[j - |objs|] && more[j - |objs|] in more; }
    }
    assert forall x :: x in all <==> x in objs || x in more;
  }

  /** Neither an object nor its monitor is listed with the objects before it. */
  lemma NotListedYet(env: Env, m0: seq<int>, blocks: set<int>, top: int, done: set<int>, obj: int)
    requires WellFormed(env, m0, blocks, top) && Objects(blocks, done) && obj in blocks && !IsMonitor(obj) && obj !in done
    requires forall e :: e in done + {obj} ==> 0 <= At(e) < |m0|
    ensures obj !in WithMonitors(m0, done)
    ensures !IsMarkWord(m0[At(obj)]) ==> m0[At(obj)] + 1 !in WithMonitors(m0, done) && m0[At(obj)] + 1 != obj
  {
    var mon := m0[At(obj)] + 1;
    assert HeaderOk(env, m0, blocks, obj);
    forall e | e in done
      ensures HeaderOk(env, m0, blocks, e) && (!IsMarkWord(m0[At(e)]) && !IsMarkWord(m0[At(obj)]) ==> m0[At(e)] + 1 != mon)
    {
      assert HeaderOk(env, m0, blocks, e);
      if !IsMarkWord(m0[At(e)]) && m0[At(e)] + 1 == mon {
        assert SharesMonitor(env, m0, e, obj);
      }
    }
  }

  /** Visit every strong slot of `obj`. */
  method VisitSlots(env: Env, mem: array<int>, obj: int, worklist: seq<int>,
                    ghost m0: seq<int>, ghost blocks: set<int>, ghost top: int, ghost done: set<int>, ghost marked: set<int>)
    returns (worklist': seq<int>, ghost marked': set<int>)
    requires MarkState(env, m0, mem[..], blocks, top, marked) && obj in blocks && !IsMonitor(obj)
    requires Frontier(done, worklist, marked)
    modifies mem
    ensures MarkState(env, m0, mem[..], blocks, top, marked') && Frontier(done, worklist', marked') && marked <= marked'
    ensures forall y :: Edge(env, m0, obj, y) ==> y in marked'
    ensures forall y :: y in marked' ==> y in marked || Edge(env, m0, obj, y)
  {
    hide WellFormed, MarkedMem, Frontier, ObjectAt, StrongSlots, Words;
    worklist', marked' := worklist, marked;
    BlockOk(env, m0, blocks, top, obj);
    SameShape(env, m0, mem[..], blocks, top, marked, obj);
    var slots := Strong(env, mem[..], obj);
    for i := 0 to |slots|
      invariant MarkState(env, m0, mem[..], blocks, top, marked') && Frontier(done, worklist', marked') && marked <= marked'
      invariant forall j :: 0 <= j < i ==> At(obj) + slots[j] < |m0|
      invariant forall j :: 0 <= j < i && InHeap(env, m0[At(obj) + slots[j]]) ==> m0[At(obj) + slots[j]] in marked'
      invariant forall y :: y in marked' ==> y in marked || Edge(env, m0, obj, y)
    {
      StrongSlotOk(env, m0, blocks, top, obj, i);
      MarkedReads(env, m0, mem[..], blocks, top, marked', obj, slots[i]);
      var v := mem[At(obj) + slots[i]];
      if InHeap(env, v) && v !in marked' {
        FrontierPush(done, worklist', marked', v);
      }
      ghost var was := marked';
      worklist', marked' := Visit(env, mem, v, worklist', m0, blocks, top, marked');
      assert was + {v} == was || v !in was;
    }
  }

  /** List `obj` (and its monitor) and visit all its strong slots. */
  method MarkReachable(env: Env, mem: array<int>, obj: int, objs: seq<int>, worklist: seq<int>,
                       ghost m0: seq<int>, ghost blocks: set<int>, ghost top: int,
                       ghost done: set<int>, ghost marked: set<int>)
    returns (objs': seq<int>, worklist': seq<int>, ghost marked': set<int>)
    requires MarkState(env, m0, mem[..], blocks, top, marked)
    requires Frontier(done + {obj}, worklist, marked) && obj !in done && obj in marked && Listed(m0, objs, done)
    requires Closed(env, m0, done, marked)
    modifies mem
    ensures MarkState(env, m0, mem[..], blocks, top, marked') && marked <= marked'
    ensures Frontier(done + {obj}, worklist', marked') && Listed(m0, objs', done + {obj})
    ensures Closed(env, m0, done + {obj}, marked')
    ensures forall y :: y in marked' ==> y in marked || Edge(env, m0, obj, y)
  {
    hide WellFormed, MarkedMem, Frontier, Edge;
    BlockOk(env, m0, blocks, top, obj);
    FlagMeansMarked(env, m0, mem[..], blocks, top, marked, obj);
    assert Objects(blocks, done) by { DoneMarked(done + {obj}, worklist, marked); }
    ListObject(env, m0, blocks, top, objs, done, obj);
    objs' := objs + [obj];
    if !IsMarkWord(mem[At(obj)]) {
      objs' := objs' + [mem[At(obj)] + 1];
      assert objs' == objs + [obj, mem[At(obj)] + 1];
    }
    worklist', marked' := VisitSlots(env, mem, obj, worklist, m0, blocks, top, done + {obj}, marked);
  }

  lemma DoneMarked(done: set<int>, worklist: seq<int>, marked: set<int>)
    requires Frontier(done, worklist, marked)
    ensures done <= marked
  {
  }

  lemma MarkedLength(m0: seq<int>, m: seq<int>, marked: set<int>)
    requires MarkedMem(m0, m, marked)
    ensures |m| == |m0|
  {
  }

  lemma SameShape(env: Env, m0: seq<int>, m: seq<int>, blocks: set<int>, top: int, marked: set<int>, e: int)
    requires MarkState(env, m0, m, blocks, top, marked) && e in blocks
    ensures EntryOk(env, m, e) && EntryWords(env, m, e) == EntryWords(env, m0, e)
    ensures !IsMonitor(e) ==> Strong(env, m, e) == Strong(env, m0, e)
  {
    hide WellFormed, MarkedMem;
    MarkedLength(m0, m, marked);
    BlockOk(env, m0, blocks, top, e);
    if !IsMonitor(e) {
      MarkedReads(env, m0, m, blocks, top, marked, e, 1);
      if !ClassOf(env, m0, At(e)).Ordinary? {
        MarkedReads(env, m0, m, blocks, top, marked, e, 2);
      }
    }
  }

  /** Flag and push the objects that the root slots hold. */
  method VisitRoots(env: Env, mem: array<int>, roots: seq<nat>, ghost m0: seq<int>, ghost blocks: set<int>, ghost top: int)
    returns (worklist: seq<int>, ghost marked: set<int>)
    requires m0 == mem[..] && WellFormed(env, m0, blocks, top) && RootsOk(env, m0, blocks, roots)
    modifies mem
    ensures MarkState(env, m0, mem[..], blocks, top, marked) && Frontier({}, worklist, marked)
    ensures marked == Targets(m0, roots)
  {
    hide WellFormed, MarkedMem, Frontier, Objects, IsMonitor, Targets;
    TargetsNone(m0, roots);
    worklist, marked := [], {};
    StartUnmarked(env, m0, blocks, top);
    FrontierNone();
    for i := 0 to |roots|
      invariant MarkState(env, m0, mem[..], blocks, top, marked) && Frontier({}, worklist, marked)
      invariant marked == Targets(m0, roots[..i])
    {
      OutsideUnmarked(env, m0, mem[..], blocks, top, marked, roots[i]);
      var root := mem[roots[i]];
      if root !in marked {
        FrontierPush({}, worklist, marked, root);
      }
      ghost var was := marked;
      worklist, marked := Visit(env, mem, root, worklist, m0, blocks, top, marked);
      TargetsSnoc(m0, roots, i);
      assert was + {root} == was || root !in was;
    }
    assert roots[..|roots|] == roots;
  }

  lemma TargetsNone(m: seq<int>, roots: seq<nat>)
    ensures Targets(m, roots[..0]) == {}
  {
  }

  lemma TargetsSnoc(m: seq<int>, roots: seq<nat>, i: int)
    requires 0 <= i < |roots| && forall j :: 0 <= j < |roots| ==> roots[j] < |m|
    ensures Targets(m, roots[..i + 1]) == Targets(m, roots[..i]) + {m[roots[i]]}
  {
    var s := roots[..i + 1];
    forall v | v in Targets(m, roots[..i]) ensures v in Targets(m, s) {
      var j :| 0 <= j < i && m[roots[..i][j]] == v;
      assert s[j] == roots[j];
    }
    forall v | v in Targets(m, s) ensures v in Targets(m, roots[..i]) + {m[roots[i]]} {
      var j :| 0 <= j < |s| && m[s[j]] == v;
      if j < i { assert roots[..i][j] == s[j]; }
    }
    assert s[i] == roots[i];
  }

  /** The mark phase of a collection.  The returned list holds every object reachable from the roots
      exactly once, one tagged entry for each of their monitors, and nothing else. */
  method MarkPhase(env: Env, mem: array<int>, roots: seq<nat>, ghost blocks: set<int>, ghost top: int)
    returns (objs: seq<int>, ghost live: set<int>)
    requires WellFormed(env, mem[..], blocks, top) && RootsOk(env, mem[..], blocks, roots)
    modifies mem
    ensures MarkState(env, old(mem[..]), mem[..], blocks, top, live)
    ensures forall e :: e in live <==> Reachable(env, old(mem[..]), Targets(old(mem[..]), roots), e)
    ensures Listed(old(mem[..]), objs, live)
  {
    hide WellFormed, MarkedMem, Frontier, Edge, Listed, Reachable, Targets;
    ghost var m0 := mem[..];
    ghost var targets := Targets(m0, roots);
    var worklist;
    ghost var marked;
    worklist, marked := VisitRoots(env, mem, roots, m0, blocks, top);
    forall y | y in marked ensures Reachable(env, m0, targets, y) { ReachableRoot(env, m0, targets, y); }
    objs := [];
    ghost var done: set<int> := {};
    ListedNone(m0);
    while |worklist| > 0
      invariant MarkState(env, m0, mem[..], blocks, top, marked) && Frontier(done, worklist, marked) && Listed(m0, objs, done)
      invariant Closed(env, m0, done, marked) && targets <= marked
      invariant forall y :: y in marked ==> Reachable(env, m0, targets, y)
      decreases blocks - done
    {
      FrontierPop(done, worklist, marked);
      var obj := worklist[|worklist| - 1];
      worklist := worklist[..|worklist| - 1];
      ghost var before := marked;
      objs, worklist, marked := MarkReachable(env, mem, obj, objs, worklist, m0, blocks, top, done, marked);
      forall y | y in marked ensures Reachable(env, m0, targets, y) {
        if y !in before { ReachableStep(env, m0, targets, obj, y); }
      }
      done := done + {obj};
    }
    live := marked;
    FrontierEmpty(done, worklist, marked);
    LiveIsReachable(env, m0, targets, live);
  }

  lemma ListedNone(m0: seq<int>)
    ensures Listed(m0, [], {})
  {
  }

  lemma FrontierNone()
    ensures Frontier({}, [], {})
  {
  }

  lemma FrontierEmpty(done: set<int>, worklist: seq<int>, marked: set<int>)
    requires Frontier(done, worklist, marked) && |worklist| == 0
    ensures done == marked
  {
  }

  lemma LiveIsReachable(env: Env, m: seq<int>, targets: set<int>, live: set<int>)
    requires targets <= live && Closed(env, m, live, live)
    ensures forall e :: Reachable(env, m, targets, e) ==> e in live
  {
    forall e | Reachable(env, m, targets, e) ensures e in live {
      var p :| IsPath(env, m, targets, p) && p[|p| - 1] == e;
      ClosedHoldsPath(env, m, targets, live, p);
    }
  }

  lemma OutsideUnmarked(env: Env, m0: seq<int>, m: seq<int>, blocks: set<int>, top: int, marked: set<int>, a: int)
    requires MarkState(env, m0, m, blocks, top, marked) && 0 <= a < |m| && !(env.base <= a < env.limit)
    ensures m[a] == m0[a]
  {
    if a in Marks(m0, marked) {
      var e :| e in marked && MarkAddr(m0, e) == a;
      MarkAddrWhere(env, m0, blocks, top, e);
    }
  }
}
