/** What it means for an object to survive an operation on the heap: same identity, shape, mark word, fields and elements. */
module Survival {
  import opened Memory
  import opened Mark
  import opened PointerSort
  import opened Slide
  import opened Relocate
  import opened Collector
  import opened HeapGraph
  import opened HeapUpdates

  /** `v` before and `w` after refer to the same object, or are the same pointer out of the heap. */
  ghost predicate SameTarget(env: Env, ids: map<int, nat>, v: int, ids': map<int, nat>, w: int) {
    if InHeap(env, v) then v in ids && w in ids' && ids'[w] == ids[v] && InHeap(env, w) else w == v
  }

  /** Word `t` of an object is neither its header nor one of the two words that a collection may clear or link. */
  ghost predicate PlainWord(env: Env, m: seq<int>, e: int, t: int)
    requires EntryOk(env, m, e) && !IsMonitor(e)
  {
    0 < t < EntryWords(env, m, e) && !Weak(env, m, e, t) && !(t == DISCOVERED && Weak(env, m, e, REFERENT))
  }

  ghost predicate WordSurvives(env: Env, m: seq<int>, ids: map<int, nat>, e: int, m': seq<int>, ids': map<int, nat>, f: int, t: int)
    requires EntryOk(env, m, e) && !IsMonitor(e)
  {
    && 0 <= t && 0 <= At(e) && At(e) + t < |m| && 0 <= At(f) && At(f) + t < |m'|
    && if t in Strong(env, m, e) then SameTarget(env, ids, m[At(e) + t], ids', m'[At(f) + t]) else m'[At(f) + t] == m[At(e) + t]
  }

  ghost predicate MarkSurvives(m: seq<int>, e: int, m': seq<int>, f: int) {
    && 0 <= At(e) < |m| && 0 <= MarkAddr(m, e) < |m| && 0 <= At(f) < |m'| && 0 <= MarkAddr(m', f) < |m'|
    && m'[MarkAddr(m', f)] == m[MarkAddr(m, e)]
  }

  /** Object `e` of `m` has become `f` of `m'`. */
  ghost predicate Survives(env: Env, m: seq<int>, ids: map<int, nat>, e: int, m': seq<int>, ids': map<int, nat>, f: int) {
    && e in ids && f in ids' && ids'[f] == ids[e] && SameObjectShape(env, m, e, m', f) && MarkSurvives(m, e, m', f)
    && forall t :: PlainWord(env, m, e, t) ==> WordSurvives(env, m, ids, e, m', ids', f, t)
  }

  /** Everything that could be reached from the roots survives. */
  ghost predicate GraphKept(env: Env, slots: seq<nat>, m: seq<int>, ids: map<int, nat>, m': seq<int>, ids': map<int, nat>) {
    && SlotsPlaced(env, m, slots)
    && forall e :: Reachable(env, m, RootTargets(env, m, slots), e) ==> exists f :: Survives(env, m, ids, e, m', ids', f)
  }

  /** Every object stays where it is and survives. */
  ghost predicate AllSurvive(env: Env, m: seq<int>, ids: map<int, nat>, m': seq<int>, ids': map<int, nat>) {
    forall e :: e in ids ==> Survives(env, m, ids, e, m', ids', e)
  }

  // ---------- composition ----------

  lemma SurvivesTrans(env: Env, m: seq<int>, ids: map<int, nat>, e: int, m1: seq<int>, ids1: map<int, nat>, f: int, m2: seq<int>,
                      ids2: map<int, nat>, g: int)
    requires Survives(env, m, ids, e, m1, ids1, f) && Survives(env, m1, ids1, f, m2, ids2, g)
    ensures Survives(env, m, ids, e, m2, ids2, g)
  {
    hide EntryOk, EntryWords, Strong, ClassOf, Length, MarkAddr, InHeap, At, IsMonitor;
    forall t | PlainWord(env, m, e, t) ensures WordSurvives(env, m, ids, e, m2, ids2, g, t) {
      assert WordSurvives(env, m, ids, e, m1, ids1, f, t);
      assert PlainWord(env, m1, f, t);
      assert WordSurvives(env, m1, ids1, f, m2, ids2, g, t);
    }
  }

  lemma GraphKeptThen(env: Env, slots: seq<nat>, m: seq<int>, ids: map<int, nat>, m1: seq<int>, ids1: map<int, nat>, m2: seq<int>,
                      ids2: map<int, nat>)
    requires GraphKept(env, slots, m, ids, m1, ids1) && AllSurvive(env, m1, ids1, m2, ids2)
    ensures GraphKept(env, slots, m, ids, m2, ids2)
  {
    hide Reachable, RootTargets;
    forall e | Reachable(env, m, RootTargets(env, m, slots), e) ensures exists f :: Survives(env, m, ids, e, m2, ids2, f) {
      var f :| Survives(env, m, ids, e, m1, ids1, f);
      assert Survives(env, m1, ids1, f, m2, ids2, f) by { assert f in ids1; }
      hide Survives;
      SurvivesTrans(env, m, ids, e, m1, ids1, f, m2, ids2, f);
    }
  }

  /** Everything reachable is an object of the heap. */
  lemma ReachableIsObject(env: Env, m: seq<int>, blocks: set<int>, top: int, slots: seq<nat>, e: int)
    requires WellFormed(env, m, blocks, top) && SlotsPlaced(env, m, slots) && RootSlotsOk(env, m, blocks, slots)
    requires Reachable(env, m, RootTargets(env, m, slots), e)
    ensures e in blocks && !IsMonitor(e)
  {
    hide WellFormed, IsMonitor;
    var targets := RootTargets(env, m, slots);
    var objects := set x | x in blocks && !IsMonitor(x);
    forall v | v in targets ensures v in objects {
      var i :| 0 <= i < |slots| && InHeap(env, m[slots[i]]) && m[slots[i]] == v;
      assert SlotOk(env, blocks, m[slots[i]]);
    }
    forall x, y | x in objects && Edge(env, m, x, y) ensures y in objects {
      var i :| 0 <= i < |Strong(env, m, x)| && At(x) + Strong(env, m, x)[i] < |m| && m[At(x) + Strong(env, m, x)[i]] == y;
      StrongSlotOk(env, m, blocks, top, x, i);
    }
    var p :| IsPath(env, m, targets, p) && p[|p| - 1] == e;
    hide Edge;
    ClosedHoldsPath(env, m, targets, objects, p);
  }

  lemma AllSurviveKeeps(env: Env, m: seq<int>, blocks: set<int>, top: int, slots: seq<nat>, ids: map<int, nat>, m': seq<int>,
                        ids': map<int, nat>)
    requires WellFormed(env, m, blocks, top) && SlotsPlaced(env, m, slots) && RootSlotsOk(env, m, blocks, slots)
    requires (forall e :: e in ids <==> e in blocks && !IsMonitor(e)) && AllSurvive(env, m, ids, m', ids')
    ensures GraphKept(env, slots, m, ids, m', ids')
  {
    hide WellFormed, RootSlotsOk, Reachable, RootTargets, Survives, IsMonitor;
    forall e | Reachable(env, m, RootTargets(env, m, slots), e) ensures exists f :: Survives(env, m, ids, e, m', ids', f) {
      ReachableIsObject(env, m, blocks, top, slots, e);
      assert Survives(env, m, ids, e, m', ids', e);
    }
  }

  // ---------- collections ----------

  /** A live object survives a collection. */
  lemma SurvivesCollection(env: Env, m0: seq<int>, blocks: set<int>, top: int, slots: seq<nat>, pend: nat,
                           live: set<int>, entries: seq<int>, m: seq<int>, top': int, fwd: map<int, nat>, ids: map<int, nat>, e: int)
    requires Collected(env, m0, blocks, top, slots, pend, live, entries, m, top') && e in live
    requires EntriesOk(env, m0, entries) && StrictlySorted(entries) && fwd == Forwarding(env, m0, entries)
    requires forall x :: x in live ==> x in fwd && x in ids
    requires forall x, y :: x in fwd && y in fwd && x < y ==> NewEntry(fwd, x) < NewEntry(fwd, y)
    ensures Survives(env, m0, ids, e, m, MovedIds(fwd, live, ids), NewEntry(fwd, e))
  {
    hide Collected, WellFormed, Reachable, LiveList, EntriesOk, StrictlySorted, Forwarding, EntryOk, EntryWords, Strong,
         SameObjectShape, MarkAddr,
      IsMonitor, At, NewEntry, InHeap, Weak, IsEnqueued, WordSurvives;
    ShapeKept(env, m0, blocks, top, slots, pend, live, entries, m, top', e);
    ShapeFacts(env, m0, e, m, NewEntry(fwd, e));
    MarkWordKept(env, m0, blocks, top, slots, pend, live, entries, m, top', e);
    forall t | PlainWord(env, m0, e, t) ensures WordSurvives(env, m0, ids, e, m, MovedIds(fwd, live, ids), NewEntry(fwd, e), t) {
      WordSurvivesCollection(env, m0, blocks, top, slots, pend, live, entries, m, top', fwd, ids, e, t);
    }
  }

  lemma ShapeFacts(env: Env, m: seq<int>, e: int, m': seq<int>, f: int)
    requires SameObjectShape(env, m, e, m', f)
    ensures EntryOk(env, m, e) && !IsMonitor(e) && EntryOk(env, m', f) && !IsMonitor(f) && 0 <= At(e) && 0 <= At(f)
    ensures At(e) + EntryWords(env, m, e) <= |m| && At(f) + EntryWords(env, m, e) <= |m'|
  {
  }

  lemma WordSurvivesCollection(env: Env, m0: seq<int>, blocks: set<int>, top: int, slots: seq<nat>, pend: nat,
                               live: set<int>, entries: seq<int>, m: seq<int>, top': int, fwd: map<int, nat>, ids: map<int, nat>,
                                   e: int, t: int)
    requires Collected(env, m0, blocks, top, slots, pend, live, entries, m, top') && e in live
    requires EntriesOk(env, m0, entries) && StrictlySorted(entries) && fwd == Forwarding(env, m0, entries)
    requires forall x :: x in live ==> x in fwd && x in ids
    requires forall x, y :: x in fwd && y in fwd && x < y ==> NewEntry(fwd, x) < NewEntry(fwd, y)
    requires SameObjectShape(env, m0, e, m, NewEntry(fwd, e)) && At(NewEntry(fwd, e)) == fwd[e] && PlainWord(env, m0, e, t)
    ensures WordSurvives(env, m0, ids, e, m, MovedIds(fwd, live, ids), NewEntry(fwd, e), t)
  {
    hide Collected, WellFormed, Reachable, LiveList, EntriesOk, StrictlySorted, Forwarding, EntryOk, EntryWords, Strong,
         SameObjectShape, MarkAddr,
      IsMonitor, At, NewEntry, InHeap, Weak, IsEnqueued;
    ShapeFacts(env, m0, e, m, NewEntry(fwd, e));
    WordForwarded(env, m0, blocks, top, slots, pend, live, entries, m, top', fwd, e, t);
    NotEnqueuedWord(env, m0, fwd, e, t);
    if t in Strong(env, m0, e) {
      var i :| 0 <= i < |Strong(env, m0, e)| && Strong(env, m0, e)[i] == t;
      StrongTargetLive(env, m0, blocks, top, slots, pend, live, entries, m, top', e, i);
      var v := m0[At(e) + t];
      LiveFacts(env, m0, blocks, top, slots, pend, live, entries, m, top');
      CollectedTop(env, m0, blocks, top, slots, pend, live, entries, m, top');
      if InHeap(env, v) { TargetMoved(env, m0, entries, fwd, live, ids, v, top'); }
    }
  }

  lemma NotEnqueuedWord(env: Env, m0: seq<int>, fwd: map<int, nat>, e: int, t: int)
    requires EntryOk(env, m0, e) && !IsMonitor(e) && PlainWord(env, m0, e, t)
    ensures !(t == DISCOVERED && IsEnqueued(env, m0, fwd, e)) && Old(env, m0, e, t) == m0[At(e) + t]
  {
    EnqueuedMeans(env, m0, fwd, e);
  }

  lemma TargetMoved(env: Env, m0: seq<int>, entries: seq<int>, fwd: map<int, nat>, live: set<int>, ids: map<int, nat>, v: int, top': int)
    requires EntriesOk(env, m0, entries) && StrictlySorted(entries) && fwd == Forwarding(env, m0, entries)
    requires v in live && v in fwd && !IsMonitor(v) && InHeap(env, v) && 0 < env.base
             && top' == Loc(env, m0, entries, |entries|) <= env.limit
    requires forall x :: x in live ==> x in fwd && x in ids
    requires forall x, y :: x in fwd && y in fwd && x < y ==> NewEntry(fwd, x) < NewEntry(fwd, y)
    ensures SameTarget(env, ids, v, MovedIds(fwd, live, ids), ForwardRef(fwd, v))
  {
    hide Loc, EntriesOk, StrictlySorted, Forwarding, MovedIds, NewEntry, IsMonitor, EntryOk, EntryWords, At;
    FwdBounds(env, m0, entries, v);
    MovedId(fwd, live, ids, v);
    assert NewEntry(fwd, v) == ForwardRef(fwd, v) by { NewEntryPlain(fwd, v); }
    assert 8 * env.base <= 8 * fwd[v] < 8 * env.limit;
  }

  lemma MovedId(fwd: map<int, nat>, live: set<int>, ids: map<int, nat>, v: int)
    requires v in live && (forall x :: x in live ==> x in fwd && x in ids)
    requires forall x, y :: x in fwd && y in fwd && x < y ==> NewEntry(fwd, x) < NewEntry(fwd, y)
    ensures NewEntry(fwd, v) in MovedIds(fwd, live, ids) && MovedIds(fwd, live, ids)[NewEntry(fwd, v)] == ids[v]
  {
    hide NewEntry;
    var moved := MovedIds(fwd, live, ids);
    assert NewEntry(fwd, v) in moved;
  }

  // ---------- writes that touch no object ----------

  /** Writing above the blocks or outside the heap. */
  lemma SurvivesWrites(env: Env, m: seq<int>, m': seq<int>, blocks: set<int>, top: int, ids: map<int, nat>, ids': map<int, nat>)
    requires WellFormed(env, m, blocks, top) && SameBelow(env, m, m', top) && forall e :: e in ids <==> e in blocks && !IsMonitor(e)
    requires forall e :: e in ids ==> e in ids' && ids'[e] == ids[e]
    ensures AllSurvive(env, m, ids, m', ids')
  {
    hide WellFormed, IsMonitor, EntryOk, EntryWords, Strong, At, Survives, SameBelow;
    forall e | e in ids ensures Survives(env, m, ids, e, m', ids', e) { ObjectSurvivesWrites(env, m, m', blocks, top, ids, ids', e); }
  }

  lemma ObjectSurvivesWrites(env: Env, m: seq<int>, m': seq<int>, blocks: set<int>, top: int,
                             ids: map<int, nat>, ids': map<int, nat>, e: int)
    requires WellFormed(env, m, blocks, top) && SameBelow(env, m, m', top)
    requires e in ids && forall x :: x in ids <==> x in blocks && !IsMonitor(x)
    requires forall x :: x in ids ==> x in ids' && ids'[x] == ids[x]
    ensures Survives(env, m, ids, e, m', ids', e)
  {
    hide WellFormed, EntryOk, EntryWords, Strong, Weak;
    SameEntry(env, m, m', blocks, top, e);
    MarkAddrWhere(env, m, blocks, top, e);
    HeapBounds(env, m, blocks, top);
    forall t | PlainWord(env, m, e, t) ensures WordSurvives(env, m, ids, e, m', ids', e, t) {
      if t in Strong(env, m, e) { OldSlotOk(env, m, blocks, top, e, t); }
    }
  }

  // ---------- inflation ----------

  lemma SurvivesInflation(env: Env, m: seq<int>, m': seq<int>, blocks: set<int>, p: int, o: int, ids: map<int, nat>)
    requires WellFormed(env, m, blocks, p) && p + MONITOR_WORDS <= env.limit
    requires o in blocks && !IsMonitor(o) && 0 <= At(o) < |m| && IsMarkWord(m[At(o)]) && Inflated(m, m', p, o)
    requires forall e :: e in ids <==> e in blocks && !IsMonitor(e)
    ensures AllSurvive(env, m, ids, m', ids)
  {
    hide WellFormed, IsMonitor, EntryOk, EntryWords, Strong, At, Survives, Inflated;
    forall e | e in ids ensures Survives(env, m, ids, e, m', ids, e) { ObjectSurvivesInflation(env, m, m', blocks, p, o, ids, e); }
  }

  lemma ObjectSurvivesInflation(env: Env, m: seq<int>, m': seq<int>, blocks: set<int>, p: int, o: int, ids: map<int, nat>, e: int)
    requires WellFormed(env, m, blocks, p) && p + MONITOR_WORDS <= env.limit
    requires o in blocks && !IsMonitor(o) && 0 <= At(o) < |m| && IsMarkWord(m[At(o)]) && Inflated(m, m', p, o)
    requires e in ids && forall x :: x in ids <==> x in blocks && !IsMonitor(x)
    ensures Survives(env, m, ids, e, m', ids, e)
  {
    hide WellFormed, EntryOk, EntryWords, Strong, Weak, IsMarkWord;
    InflateShape(env, m, m', blocks, p, o, e);
    HeapBounds(env, m, blocks, p);
    InflateMark(env, m, m', blocks, p, o, e);
    forall t | PlainWord(env, m, e, t) ensures WordSurvives(env, m, ids, e, m', ids, e, t) {
      NotHeaderOf(env, m, blocks, p, o, e, t);
      if t in Strong(env, m, e) { OldSlotOk(env, m, blocks, p, e, t); }
    }
  }

  lemma InflateMark(env: Env, m: seq<int>, m': seq<int>, blocks: set<int>, p: int, o: int, e: int)
    requires WellFormed(env, m, blocks, p) && p + MONITOR_WORDS <= env.limit
    requires o in blocks && !IsMonitor(o) && 0 <= At(o) < |m| && IsMarkWord(m[At(o)]) && Inflated(m, m', p, o) && e in blocks
             && !IsMonitor(e)
    ensures MarkSurvives(m, e, m', e)
  {
    hide WellFormed, IsMonitor, HeaderOk, EntryOk;
    AddMonitor(env, m, m', blocks, p, o);
    MarkAddrWhere(env, m, blocks, p, e);
    if e != o {
      InflateShape(env, m, m', blocks, p, o, e);
      InflateHeader(env, m, m', blocks, p, o, e);
      if MarkAddr(m, e) == At(o) { MarkAddrInjective(env, m, blocks, p, e, o); }
    }
  }
}
