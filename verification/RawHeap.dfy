/** What a collection does, read off memory words and class descriptors alone.  An object starts at a byte address divisible by
    eight; its second word names its class; the third word of an array is its length, and its elements start 32 bytes in. */
module RawHeap {
  import opened Memory
  import opened Mark
  import opened PointerSort
  import opened Slide
  import opened Relocate
  import opened Collector
  import opened HeapGraph
  import opened PendingReferences

  /** Word `t` of the object at `x` keeps its target alive: every reference field but the referent of a java.lang.ref.Reference,
      and every element of an array of references. */
  ghost predicate Holds(env: Env, m: seq<int>, x: int, t: int) {
    && x % 8 == 0 && 0 <= x / 8 && x / 8 + 1 < |m| && m[x / 8 + 1] in env.classes
    && match env.classes[m[x / 8 + 1]]
       case Ordinary(_, refs, isReference) => t in refs && !(isReference && t == 2)
       case ReferenceArray => x / 8 + 2 < |m| && 4 <= t < 4 + m[x / 8 + 2]
       case PrimitiveArray(_) => false
  }

  /** Byte `b` of the object at `x` belongs to a field or element that is no reference. */
  ghost predicate HoldsData(env: Env, m: seq<int>, x: int, b: int) {
    && x % 8 == 0 && 0 <= x / 8 && x / 8 + 1 < |m| && m[x / 8 + 1] in env.classes
    && match env.classes[m[x / 8 + 1]]
       case Ordinary(bytes, refs, isReference) => 16 <= b < bytes && b / 8 !in refs
       case ReferenceArray => 16 <= b < 32
       case PrimitiveArray(n) => x / 8 + 2 < |m| && 16 <= b < 32 + n * m[x / 8 + 2]
  }

  /** The bytes of the instance whose first word is `a`: what its class says, or the elements behind 32 bytes. */
  ghost function Bytes(env: Env, m: seq<int>, a: int): int
    requires 0 <= a && a + 2 < |m| && m[a + 1] in env.classes
  {
    match env.classes[m[a + 1]]
    case Ordinary(bytes, _, _) => bytes
    case ReferenceArray => 32 + 8 * m[a + 2]
    case PrimitiveArray(n) => 32 + n * m[a + 2]
  }

  /** `y` is an address in the heap that the object at `x` keeps alive. */
  ghost predicate RawEdge(env: Env, m: seq<int>, x: int, y: int) {
    8 * env.base <= y < 8 * env.limit && exists t :: Holds(env, m, x, t) && 0 <= x / 8 + t < |m| && m[x / 8 + t] == y
  }

  /** `p` leads from the target of a root slot along such references. */
  ghost predicate IsRawPath(env: Env, m: seq<int>, slots: seq<nat>, p: seq<int>) {
    && 0 < |p| && 8 * env.base <= p[0] < 8 * env.limit && (exists i :: 0 <= i < |slots| && slots[i] < |m| && m[slots[i]] == p[0])
    && forall i :: 0 <= i < |p| - 1 ==> RawEdge(env, m, p[i], p[i + 1])
  }

  ghost predicate RawReachable(env: Env, m: seq<int>, slots: seq<nat>, y: int) {
    exists p :: IsRawPath(env, m, slots, p) && p[|p| - 1] == y
  }

  // ---------- what the collector's functions compute ----------

  lemma HoldsIff(env: Env, m: seq<int>, x: int, t: int)
    requires EntryOk(env, m, x) && !IsMonitor(x)
    ensures t in Strong(env, m, x) <==> Holds(env, m, x, t)
    ensures Holds(env, m, x, t) ==> 2 <= t < EntryWords(env, m, x)
  {
    var c, n := ClassOf(env, m, At(x)), Length(env, m, At(x));
    SlotsAre(c, n, t);
  }

  lemma SlotsAre(c: Class, length: nat, t: int)
    requires ClassOk(c)
    ensures t in StrongSlots(c, length) <==>
            match c
            case Ordinary(_, refs, isReference) => t in refs && !(isReference && t == 2)
            case ReferenceArray => 4 <= t < 4 + length
            case PrimitiveArray(_) => false
    ensures t in StrongSlots(c, length) ==> 2 <= t < Words(c, length)
  {
    StrongSlotFacts(c, length);
    var s := StrongSlots(c, length);
    if c.Ordinary? && c.isReference {
      assert c.refs == [c.refs[0]] + c.refs[1..];
      if t in s {
        var i :| 0 <= i < |s| && s[i] == t;
        assert c.refs[i + 1] == t && c.refs[0] != c.refs[i + 1];
      }
    }
    if c.ReferenceArray? && 4 <= t < 4 + length { assert s[t - 4] == t; }
  }

  lemma DataIff(env: Env, m: seq<int>, x: int, b: int)
    requires EntryOk(env, m, x) && !IsMonitor(x) && HoldsData(env, m, x, b)
    ensures 2 <= b / 8 < EntryWords(env, m, x) && b / 8 !in Strong(env, m, x) && !Weak(env, m, x, b / 8)
  {
    HoldsIff(env, m, x, b / 8);
    var c, n := ClassOf(env, m, At(x)), Length(env, m, At(x));
    match c
    case Ordinary(bytes, refs, isReference) =>
    case ReferenceArray =>
    case PrimitiveArray(k) => assert n * k == k * n;
  }

  lemma BytesFit(env: Env, m: seq<int>, x: int)
    requires EntryOk(env, m, x) && !IsMonitor(x) && At(x) + 2 < |m|
    ensures m[At(x) + 1] in env.classes && Bytes(env, m, At(x)) <= 8 * EntryWords(env, m, x) < Bytes(env, m, At(x)) + 8
  {
    var c, n := ClassOf(env, m, At(x)), Length(env, m, At(x));
    if c.PrimitiveArray? { assert n * c.elementBytes == c.elementBytes * n; }
  }

  lemma EdgeIff(env: Env, m: seq<int>, x: int, y: int)
    requires EntryOk(env, m, x) && !IsMonitor(x)
    ensures Edge(env, m, x, y) <==> RawEdge(env, m, x, y)
  {
    hide Strong, EntryOk, IsMonitor, Holds;
    forall t ensures t in Strong(env, m, x) <==> Holds(env, m, x, t) { HoldsIff(env, m, x, t); }
    AtNatural(env, m, x);
    if Edge(env, m, x, y) {
      var i :| 0 <= i < |Strong(env, m, x)| && At(x) + Strong(env, m, x)[i] < |m| && m[At(x) + Strong(env, m, x)[i]] == y;
      HoldsIff(env, m, x, Strong(env, m, x)[i]);
    }
    if RawEdge(env, m, x, y) {
      var t :| Holds(env, m, x, t) && 0 <= x / 8 + t < |m| && m[x / 8 + t] == y;
      var i :| 0 <= i < |Strong(env, m, x)| && Strong(env, m, x)[i] == t;
    }
  }

  lemma AtNatural(env: Env, m: seq<int>, x: int)
    requires EntryOk(env, m, x)
    ensures 0 <= At(x)
  {
    WordsBound(env, m, x);
  }

  // ---------- reachability ----------

  lemma {:induction false} PathFromRaw(env: Env, m: seq<int>, blocks: set<int>, top: int, slots: seq<nat>, p: seq<int>)
    requires WellFormed(env, m, blocks, top) && SlotsPlaced(env, m, slots) && RootSlotsOk(env, m, blocks, slots)
    requires IsRawPath(env, m, slots, p)
    ensures Reachable(env, m, RootTargets(env, m, slots), p[|p| - 1]) && p[|p| - 1] in blocks && !IsMonitor(p[|p| - 1])
    decreases |p|
  {
    hide WellFormed, RawEdge, Edge, Reachable, IsMonitor;
    var targets, n := RootTargets(env, m, slots), |p| - 1;
    if n == 0 {
      var i :| 0 <= i < |slots| && slots[i] < |m| && m[slots[i]] == p[0];
      assert SlotOk(env, blocks, m[slots[i]]);
      ReachableRoot(env, m, targets, p[0]);
    } else {
      assert IsRawPath(env, m, slots, p[..n]);
      PathFromRaw(env, m, blocks, top, slots, p[..n]);
      var x := p[n - 1];
      BlockOk(env, m, blocks, top, x);
      assert RawEdge(env, m, p[n - 1], p[n - 1 + 1]);
      EdgeIff(env, m, x, p[n]);
      ReachableStep(env, m, targets, x, p[n]);
      EdgeInBlocks(env, m, blocks, top, x, p[n]);
    }
  }

  lemma EdgeInBlocks(env: Env, m: seq<int>, blocks: set<int>, top: int, x: int, y: int)
    requires WellFormed(env, m, blocks, top) && x in blocks && !IsMonitor(x) && Edge(env, m, x, y)
    ensures y in blocks && !IsMonitor(y)
  {
    StrongSlotFacts(ClassOf(env, m, At(x)), Length(env, m, At(x)));
    hide StrongSlots, Words, ClassOk;
    var i :| 0 <= i < |Strong(env, m, x)| && At(x) + Strong(env, m, x)[i] < |m| && m[At(x) + Strong(env, m, x)[i]] == y;
    var t := Strong(env, m, x)[i];
    assert t in Strong(env, m, x) && 0 <= t < EntryWords(env, m, x);
    assert SlotOk(env, blocks, m[At(x) + t]);
  }

  lemma {:induction false} PathToRaw(env: Env, m: seq<int>, slots: seq<nat>, p: seq<int>)
    requires SlotsPlaced(env, m, slots) && IsPath(env, m, RootTargets(env, m, slots), p)
    ensures IsRawPath(env, m, slots, p)
  {
    hide RawEdge, Edge;
    forall i | 0 <= i < |p| - 1 ensures RawEdge(env, m, p[i], p[i + 1]) {
      assert Edge(env, m, p[i], p[i + 1]);
      EdgeSource(env, m, p[i], p[i + 1]);
      EdgeIff(env, m, p[i], p[i + 1]);
    }
  }

  lemma EdgeSource(env: Env, m: seq<int>, x: int, y: int)
    requires Edge(env, m, x, y)
    ensures EntryOk(env, m, x) && !IsMonitor(x)
  {
  }

  /** The objects that a collection keeps are exactly those that can be reached in this reading. */
  lemma KeptIffReachable(env: Env, m0: seq<int>, blocks: set<int>, top: int, slots: seq<nat>, pend: nat,
                         live: set<int>, entries: seq<int>, m: seq<int>, top': int, y: int)
    requires CollectedRepeated(env, m0, blocks, top, slots, pend, live, entries, m, top')
    requires WellFormed(env, m0, blocks, top) && RootSlotsOk(env, m0, blocks, slots)
    ensures y in live <==> RawReachable(env, m0, slots, y)
  {
    hide WellFormed, LiveList, EntriesOk, RootSlotsOk, RootTargets, Edge, RawEdge, EntryCollected, OutsideRepeated, PendingHead, Loc;
    var targets := RootTargets(env, m0, slots);
    if y in live {
      var p :| IsPath(env, m0, targets, p) && p[|p| - 1] == y;
      PathToRaw(env, m0, slots, p);
    }
    if RawReachable(env, m0, slots, y) {
      var p :| IsRawPath(env, m0, slots, p) && p[|p| - 1] == y;
      PathFromRaw(env, m0, blocks, top, slots, p);
    }
  }

  // ---------- what a collection does to the words of an object ----------

  /** The reference that the collector may put into this slot: the link of a Reference that was on no list. */
  ghost predicate MayBeLinked(env: Env, m: seq<int>, x: int, t: int) {
    && t == 5 && 0 <= x / 8 && x / 8 + 5 < |m| && m[x / 8 + 5] == 0 && m[x / 8 + 1] in env.classes
    && env.classes[m[x / 8 + 1]].Ordinary? && env.classes[m[x / 8 + 1]].isReference
  }

  /** Word `t` of `e` has been followed: a target in the heap is live, and the same word of the new object holds its new address;
      a pointer out of the heap is kept. */
  ghost predicate Followed(env: Env, m0: seq<int>, live: set<int>, fwd: map<int, nat>, e: int, t: int, m: seq<int>) {
    && e in fwd && 0 <= e / 8 && 0 <= t && e / 8 + t < |m0| && fwd[e] + t < |m|
    && var v := m0[e / 8 + t];
       if 8 * env.base <= v < 8 * env.limit then v in live && v in fwd && m[fwd[e] + t] == 8 * fwd[v]
       else MayBeLinked(env, m0, e, t) || m[fwd[e] + t] == v
  }

  /** Word `t` of `e` has been copied. */
  ghost predicate CopiedWord(m0: seq<int>, fwd: map<int, nat>, e: int, t: int, m: seq<int>) {
    && e in fwd && 0 <= e / 8 && 0 <= t && e / 8 + t < |m0| && fwd[e] + t < |m|
    && m[fwd[e] + t] == m0[e / 8 + t]
  }

  /** The new object of `e` lies in the heap and ends before that of `f` starts. */
  ghost predicate EndsBefore(env: Env, m: seq<int>, fwd: map<int, nat>, e: int, f: int) {
    && e in fwd && f in fwd && env.base <= fwd[e] && 0 <= fwd[e] && fwd[e] + 2 < |m| && m[fwd[e] + 1] in env.classes
    && 8 * fwd[e] + Bytes(env, m, fwd[e]) <= 8 * fwd[f]
  }

  /** Every reference held by a live object is followed. */
  lemma ReferencesFollowed(env: Env, m0: seq<int>, blocks: set<int>, top: int, slots: seq<nat>, pend: nat,
                           live: set<int>, entries: seq<int>, m: seq<int>, top': int, fwd: map<int, nat>, e: int, t: int)
    requires Collected(env, m0, blocks, top, slots, pend, live, entries, m, top') && e in live
    requires EntriesOk(env, m0, entries) && StrictlySorted(entries) && fwd == Forwarding(env, m0, entries)
    requires Holds(env, m0, e, t)
    ensures Followed(env, m0, live, fwd, e, t, m)
  {
    hide Collected, WellFormed, Reachable, LiveList, EntriesOk, StrictlySorted, Forwarding, Strong, IsEnqueued, Holds;
    LiveFacts(env, m0, blocks, top, slots, pend, live, entries, m, top');
    ShapeKept(env, m0, blocks, top, slots, pend, live, entries, m, top', e);
    HoldsIff(env, m0, e, t);
    WordsBound(env, m0, e);
    WordForwarded(env, m0, blocks, top, slots, pend, live, entries, m, top', fwd, e, t);
    EnqueuedMeans(env, m0, fwd, e);
    var i :| 0 <= i < |Strong(env, m0, e)| && Strong(env, m0, e)[i] == t;
    StrongTargetLive(env, m0, blocks, top, slots, pend, live, entries, m, top', e, i);
  }

  /** Everything else in a live object is kept: its class, its length, and every byte of its other fields and elements. */
  lemma DataKept(env: Env, m0: seq<int>, blocks: set<int>, top: int, slots: seq<nat>, pend: nat,
                 live: set<int>, entries: seq<int>, m: seq<int>, top': int, fwd: map<int, nat>, e: int, b: int)
    requires Collected(env, m0, blocks, top, slots, pend, live, entries, m, top') && e in live
    requires EntriesOk(env, m0, entries) && StrictlySorted(entries) && fwd == Forwarding(env, m0, entries)
    requires 8 <= b < 16 || HoldsData(env, m0, e, b)
    ensures CopiedWord(m0, fwd, e, b / 8, m)
  {
    hide Collected, WellFormed, Reachable, LiveList, EntriesOk, StrictlySorted, Forwarding, IsEnqueued, HoldsData;
    LiveFacts(env, m0, blocks, top, slots, pend, live, entries, m, top');
    ShapeKept(env, m0, blocks, top, slots, pend, live, entries, m, top', e);
    WordsBound(env, m0, e);
    if HoldsData(env, m0, e, b) { DataIff(env, m0, e, b); } else { HoldsIff(env, m0, e, 1); assert b / 8 == 1; }
    WordForwarded(env, m0, blocks, top, slots, pend, live, entries, m, top', fwd, e, b / 8);
  }

  /** The new objects do not overlap. */
  lemma ObjectsApart(env: Env, m0: seq<int>, blocks: set<int>, top: int, slots: seq<nat>, pend: nat,
                     live: set<int>, entries: seq<int>, m: seq<int>, top': int, fwd: map<int, nat>, e: int, f: int)
    requires Collected(env, m0, blocks, top, slots, pend, live, entries, m, top') && e in live && f in live && e < f
    requires EntriesOk(env, m0, entries) && StrictlySorted(entries) && fwd == Forwarding(env, m0, entries)
    ensures EndsBefore(env, m, fwd, e, f)
  {
    hide Collected, WellFormed, Reachable, LiveList, EntriesOk, StrictlySorted, Forwarding, EntryWords, Bytes, EntryOk, At, IsMonitor,
         NewEntry;
    LiveFacts(env, m0, blocks, top, slots, pend, live, entries, m, top');
    ShapeKept(env, m0, blocks, top, slots, pend, live, entries, m, top', e);
    FwdOrder(env, m0, entries, e, f);
    FwdBounds(env, m0, entries, e);
    FwdBounds(env, m0, entries, f);
    CollectedTop(env, m0, blocks, top, slots, pend, live, entries, m, top');
    BytesFit(env, m, NewEntry(fwd, e));
  }

  /** The new heap has no gaps: every word below its top belongs to a live object or to the monitor of one. */
  lemma NoGaps(env: Env, m0: seq<int>, blocks: set<int>, top: int, slots: seq<nat>, pend: nat,
               live: set<int>, entries: seq<int>, m: seq<int>, top': int, fwd: map<int, nat>, a: int) returns (e: int)
    requires Collected(env, m0, blocks, top, slots, pend, live, entries, m, top') && env.base <= a < top'
    requires EntriesOk(env, m0, entries) && StrictlySorted(entries) && fwd == Forwarding(env, m0, entries)
    ensures e in fwd && EntryOk(env, m0, e) && fwd[e] <= a < fwd[e] + EntryWords(env, m0, e)
    ensures e in live || exists o :: o in live && 0 <= o / 8 < |m0| && e == m0[o / 8] + 1
  {
    hide Collected, WellFormed, Reachable, StrictlySorted, Forwarding, EntryOk, EntryWords, Loc, EntriesOk;
    CollectedTop(env, m0, blocks, top, slots, pend, live, entries, m, top');
    var k := LocTiles(env, m0, entries, |entries|, a);
    e := entries[k];
    EntryForwarded(env, m0, entries, fwd, k);
    ListedWhy(env, m0, blocks, top, slots, pend, live, entries, m, top', e);
  }

  lemma {:induction false} LocTiles(env: Env, m: seq<int>, entries: seq<int>, n: int, a: int) returns (k: int)
    requires 0 <= n <= |entries| && EntriesOk(env, m, entries) && env.base <= a < Loc(env, m, entries, n)
    ensures 0 <= k < n && Loc(env, m, entries, k) <= a < Loc(env, m, entries, k) + EntryWords(env, m, entries[k])
  {
    hide EntryOk, EntryWords;
    if Loc(env, m, entries, n - 1) <= a { k := n - 1; } else { k := LocTiles(env, m, entries, n - 1, a); }
  }

  lemma EntryForwarded(env: Env, m: seq<int>, entries: seq<int>, fwd: map<int, nat>, k: int)
    requires EntriesOk(env, m, entries) && StrictlySorted(entries) && fwd == Forwarding(env, m, entries) && 0 <= k < |entries|
    ensures EntryOk(env, m, entries[k]) && entries[k] in fwd && fwd[entries[k]] == Loc(env, m, entries, k)
  {
    hide EntryOk, Loc;
  }

  lemma ListedWhy(env: Env, m0: seq<int>, blocks: set<int>, top: int, slots: seq<nat>, pend: nat,
                  live: set<int>, entries: seq<int>, m: seq<int>, top': int, e: int)
    requires Collected(env, m0, blocks, top, slots, pend, live, entries, m, top') && e in entries
    ensures e in live || exists o :: o in live && 0 <= o / 8 < |m0| && e == m0[o / 8] + 1
  {
    hide WellFormed, Reachable, StrictlySorted, EntryOk, Loc, EntriesOk, EntryCollected, OutsideCollected, PendingHead;
    assert LiveList(env, m0, blocks, top, live, entries);
    assert e in Elements(entries);
    if e !in live {
      var o :| o in live && !IsMarkWord(m0[At(o)]) && e == m0[At(o)] + 1;
    }
  }

  /** The references pending after a collection are those pending before it and those that it has cleared: the live ones with a
      referent that is not live and with no link. */
  lemma PendingExactly(env: Env, m0: seq<int>, blocks: set<int>, top: int, slots: seq<nat>, pend: nat,
                       live: set<int>, entries: seq<int>, m: seq<int>, top': int, fwd: map<int, nat>, prior: seq<int>, x: int)
    requires Collected(env, m0, blocks, top, slots, pend, live, entries, m, top')
    requires EntriesOk(env, m0, entries) && StrictlySorted(entries) && fwd == Forwarding(env, m0, entries)
    requires pend < |m0| == |m| && Chain(env, m0, blocks, m0[pend], prior)
    ensures x in PendingAt(env, m0, fwd, entries, ForwardList(fwd, prior), |entries|) <==>
            exists e :: e in live && e in fwd && x == 8 * fwd[e] && (e in prior || Clears(env, m0, live, e))
  {
    hide Collected, WellFormed, Reachable, LiveList, StrictlySorted, Forwarding, Chain, PendingAt, IsEnqueued, Clears, EntryOk,
         IsMonitor;
    LiveFacts(env, m0, blocks, top, slots, pend, live, entries, m, top');
    PriorLive(env, m0, blocks, top, slots, pend, live, entries, m, top', prior);
    var kept, n := ForwardList(fwd, prior), |entries|;
    PendingAtHas(env, m0, fwd, entries, kept, n);
    if x in PendingAt(env, m0, fwd, entries, kept, n) {
      PendingAtMember(env, m0, fwd, entries, kept, n, x);
      if x in kept {
        var i :| 0 <= i < |kept| && kept[i] == x;
        assert prior[i] in prior && prior[i] in live;
      } else {
        var j :| 0 <= j < n && entries[j] in fwd && IsEnqueued(env, m0, fwd, entries[j]) && x == 8 * fwd[entries[j]];
        EnqueuedIsObject(env, m0, fwd, entries, j);
        EnqueuedIff(env, m0, blocks, top, slots, pend, live, entries, m, top', fwd, entries[j]);
      }
    }
    if e :| e in live && e in fwd && x == 8 * fwd[e] && (e in prior || Clears(env, m0, live, e)) {
      if e in prior {
        var i :| 0 <= i < |prior| && prior[i] == e;
        assert kept[i] == x;
      } else {
        EnqueuedIff(env, m0, blocks, top, slots, pend, live, entries, m, top', fwd, e);
        var j := FwdIndex(env, m0, entries, e);
      }
    }
  }

  lemma EnqueuedIsObject(env: Env, m0: seq<int>, fwd: map<int, nat>, entries: seq<int>, j: int)
    requires EntriesOk(env, m0, entries) && 0 <= j < |entries| && IsEnqueued(env, m0, fwd, entries[j])
    ensures !IsMonitor(entries[j])
  {
  }

  /** What makes the collector put a live object on the pending list. */
  lemma EnqueuedIff(env: Env, m0: seq<int>, blocks: set<int>, top: int, slots: seq<nat>, pend: nat,
                    live: set<int>, entries: seq<int>, m: seq<int>, top': int, fwd: map<int, nat>, e: int)
    requires Collected(env, m0, blocks, top, slots, pend, live, entries, m, top') && e in live
    requires EntriesOk(env, m0, entries) && StrictlySorted(entries) && fwd == Forwarding(env, m0, entries)
    ensures EntryOk(env, m0, e) && (IsEnqueued(env, m0, fwd, e) <==> Clears(env, m0, live, e))
  {
    hide Collected, WellFormed, Reachable, LiveList, EntriesOk, StrictlySorted, Forwarding, InHeap, Words, StrongSlots;
    LiveFacts(env, m0, blocks, top, slots, pend, live, entries, m, top');
    ShapeKept(env, m0, blocks, top, slots, pend, live, entries, m, top', e);
    EnqueuedMeans(env, m0, fwd, e);
    WordsBound(env, m0, e);
    if IsReference(env, m0, {e}, e) {
      ReferenceSlots(env, m0, {e}, e);
      NotMonitorTarget(env, m0, blocks, top, e);
    }
  }

  /** A referent is no monitor, so it is live exactly if it is forwarded. */
  lemma NotMonitorTarget(env: Env, m0: seq<int>, blocks: set<int>, top: int, e: int)
    requires WellFormed(env, m0, blocks, top) && e in blocks && IsReference(env, m0, {e}, e)
    ensures 0 <= At(e) && At(e) + REFERENT < |m0| && (InHeap(env, m0[At(e) + REFERENT]) ==> !IsMonitor(m0[At(e) + REFERENT]))
  {
    ReferenceSlots(env, m0, {e}, e);
    hide Words, StrongSlots, ClassOk;
    assert SlotOk(env, blocks, m0[At(e) + REFERENT]);
  }

  /** A live Reference whose referent dies, and which is on no list. */
  ghost predicate Clears(env: Env, m: seq<int>, live: set<int>, e: int) {
    && 0 <= e / 8 && e / 8 + 5 < |m| && m[e / 8 + 1] in env.classes
    && env.classes[m[e / 8 + 1]].Ordinary? && env.classes[m[e / 8 + 1]].isReference
    && m[e / 8 + 2] != 0 && m[e / 8 + 2] !in live && m[e / 8 + 5] == 0
  }
}
