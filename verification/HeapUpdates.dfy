/** Single updates of a well-formed heap: new objects, new monitors, and what each leaves unchanged. */
module HeapUpdates {
  import opened Memory
  import opened Mark
  import opened PointerSort
  import opened Slide
  import opened Relocate
  import opened Collector
  import opened HeapGraph
  import opened PendingReferences

  // ---------- memory that changes only outside the blocks ----------

  /** The words of the heap below `top` are unchanged. */
  ghost predicate SameBelow(env: Env, m: seq<int>, m': seq<int>, top: int) {
    |m'| == |m| && forall a :: 0 <= a < |m| && env.base <= a < top ==> m'[a] == m[a]
  }

  /** Block `e` has kept its size and, if it is an object, its class, length and slots. */
  ghost predicate SameShape(env: Env, m: seq<int>, m': seq<int>, e: int) {
    && EntryOk(env, m, e) && EntryOk(env, m', e) && EntryWords(env, m', e) == EntryWords(env, m, e)
    && (!IsMonitor(e) ==> && Strong(env, m', e) == Strong(env, m, e)
                          && ClassOf(env, m', At(e)) == ClassOf(env, m, At(e)) && Length(env, m', At(e)) == Length(env, m, At(e)))
  }

  lemma SameEntry(env: Env, m: seq<int>, m': seq<int>, blocks: set<int>, top: int, e: int)
    requires WellFormed(env, m, blocks, top) && SameBelow(env, m, m', top) && e in blocks
    ensures SameShape(env, m, m', e)
    ensures 0 <= env.base <= At(e) && At(e) + EntryWords(env, m, e) <= top && 2 <= EntryWords(env, m, e)
  {
    hide WellFormed;
    BlockOk(env, m, blocks, top, e);
  }

  /** Writing to free space or outside the heap, and giving free space away, keeps the heap well formed. */
  lemma FreeSpaceWrites(env: Env, m: seq<int>, m': seq<int>, blocks: set<int>, top: int, top': int)
    requires WellFormed(env, m, blocks, top) && SameBelow(env, m, m', top) && top <= top' <= env.limit
    ensures WellFormed(env, m', blocks, top')
  {
    hide EntryOk, EntryWords;
    forall e | e in blocks
      ensures EntryOk(env, m, e) && EntryOk(env, m', e) && EntryWords(env, m', e) == EntryWords(env, m, e)
      ensures At(e) + EntryWords(env, m', e) <= top'
      ensures HeaderOk(env, m', blocks, e)
    {
      SameEntry(env, m, m', blocks, top, e);
      assert HeaderOk(env, m, blocks, e);
    }
    forall e, f | e in blocks && f in blocks && SharesMonitor(env, m', e, f) ensures e == f {
      SameEntry(env, m, m', blocks, top, e);
      SameEntry(env, m, m', blocks, top, f);
      assert SharesMonitor(env, m, e, f);
    }
    assert SlotsOk(env, m', blocks) by { FreeSpaceSlots(env, m, m', blocks, top); }
  }

  lemma FreeSpaceSlots(env: Env, m: seq<int>, m': seq<int>, blocks: set<int>, top: int)
    requires WellFormed(env, m, blocks, top) && SameBelow(env, m, m', top)
    requires forall e :: e in blocks ==> EntryOk(env, m', e)
    ensures SlotsOk(env, m', blocks)
  {
    hide WellFormed, EntryOk, EntryWords, SlotOk;
    forall e, t | e in blocks && !IsMonitor(e) && 0 <= t < EntryWords(env, m', e) && (t in Strong(env, m', e) || Weak(env, m', e, t))
      ensures 0 <= At(e) && At(e) + t < |m'| && SlotOk(env, blocks, m'[At(e) + t])
    {
      SameEntry(env, m, m', blocks, top, e);
      HeapBounds(env, m, blocks, top);
      OldSlotOk(env, m, blocks, top, e, t);
    }
  }

  // ---------- new blocks ----------

  /** A freshly initialised object at the end of the heap. */
  lemma AddObject(env: Env, m: seq<int>, blocks: set<int>, p: int, n: int)
    requires WellFormed(env, m, blocks, p) && EntryOk(env, m, 8 * p) && EntryWords(env, m, 8 * p) == n
    requires p + n <= env.limit && IsMarkWord(m[p]) && !Flagged(m[p])
    requires forall t :: t in Strong(env, m, 8 * p) || Weak(env, m, 8 * p, t) ==>
                           0 <= t < n && At(8 * p) + t < |m| && m[At(8 * p) + t] == 0
    ensures WellFormed(env, m, blocks + {8 * p}, p + n)
  {
    hide WellFormed, EntryWords, ObjectAt, StrongSlots, Words;
    var e := 8 * p;
    var blocks' := blocks + {e};
    HeapBounds(env, m, blocks, p);
    forall f | f in blocks ensures f < e && EntryOk(env, m, f) { BlockOk(env, m, blocks, p, f); }
    assert At(e) == p && !IsMonitor(e);
    WordsBound(env, m, e);
    AddPlaced(env, m, blocks, p, e, n);
    AddHeaders(env, m, blocks, p, e);
    AddSlots(env, m, blocks, p, e);
    JoinWellFormed(env, m, blocks', p + n);
  }

  lemma AddHeaders(env: Env, m: seq<int>, blocks: set<int>, p: int, e: int)
    requires WellFormed(env, m, blocks, p) && EntryOk(env, m, e) && !IsMonitor(e) && 0 <= At(e) < |m|
    requires IsMarkWord(m[At(e)]) && !Flagged(m[At(e)])
    requires forall f :: f in blocks + {e} ==> EntryOk(env, m, f)
    ensures HeadersOk(env, m, blocks + {e})
  {
    hide WellFormed, EntryOk, At, Flagged;
    var blocks' := blocks + {e};
    forall f | f in blocks' ensures HeaderOk(env, m, blocks', f) {
      if f in blocks { OldHeader(env, m, blocks, p, f); }
    }
    forall f, g | f in blocks' && g in blocks' && SharesMonitor(env, m, f, g) ensures f == g {
      if f != e && g != e {
        BlockOk(env, m, blocks, p, f);
        BlockOk(env, m, blocks, p, g);
        OldPrivate(env, m, blocks, p, f, g);
      }
    }
  }

  lemma AddSlots(env: Env, m: seq<int>, blocks: set<int>, p: int, e: int)
    requires WellFormed(env, m, blocks, p) && EntryOk(env, m, e) && !IsMonitor(e) && 0 <= At(e) < |m|
    requires forall f :: f in blocks + {e} ==> EntryOk(env, m, f)
    requires env.limit <= |m| && 0 < env.base
    requires forall t :: t in Strong(env, m, e) || Weak(env, m, e, t) ==>
               0 <= t < EntryWords(env, m, e) && At(e) + t < |m| && m[At(e) + t] == 0
    ensures SlotsOk(env, m, blocks + {e})
  {
    hide WellFormed, EntryOk, EntryWords, At, Strong, Weak, IsMonitor;
    var blocks' := blocks + {e};
    forall f, t | f in blocks' && !IsMonitor(f) && 0 <= t < EntryWords(env, m, f) && (t in Strong(env, m, f) || Weak(env, m, f, t))
      ensures 0 <= At(f) && At(f) + t < |m| && SlotOk(env, blocks', m[At(f) + t])
    {
      if f in blocks { OldSlotOk(env, m, blocks, p, f, t); }
    }
  }

  lemma AddPlaced(env: Env, m: seq<int>, blocks: set<int>, p: int, e: int, n: int)
    requires WellFormed(env, m, blocks, p) && EntryOk(env, m, e) && At(e) == p && EntryWords(env, m, e) == n && p + n <= env.limit
    requires forall f :: f in blocks ==> f < e
    ensures Placed(env, m, blocks + {e}, p + n)
  {
  }

  /** `m'` is `m` after giving object `o` the monitor record at `p`, which takes over its mark word. */
  ghost predicate Inflated(m: seq<int>, m': seq<int>, p: int, o: int) {
    && 0 <= At(o) < p && p + 1 < |m| == |m'|
    && m'[At(o)] == 8 * p && m'[p + 1] == m[At(o)]
    && forall a :: 0 <= a < |m| && a != At(o) && a != p && a != p + 1 ==> m'[a] == m[a]
  }

  /** A freshly allocated monitor record at `p` that takes over the mark word of object `o`. */
  lemma AddMonitor(env: Env, m: seq<int>, m': seq<int>, blocks: set<int>, p: int, o: int)
    requires WellFormed(env, m, blocks, p) && p + MONITOR_WORDS <= env.limit
    requires o in blocks && !IsMonitor(o) && 0 <= At(o) < |m| && IsMarkWord(m[At(o)])
    requires Inflated(m, m', p, o)
    ensures WellFormed(env, m', blocks + {8 * p + 1}, p + MONITOR_WORDS)
    ensures MarkAddr(m', o) == p + 1 && m'[p + 1] == m[At(o)]
  {
    hide WellFormed, Words, StrongSlots, ObjectAt, EntryWords, Placed, SlotsOk, HeadersOk, HeaderOk, IsMonitor;
    var blocks' := blocks + {8 * p + 1};
    InflatePlaced(env, m, m', blocks, p, o);
    InflateHeaders(env, m, m', blocks, p, o);
    InflateSlots(env, m, m', blocks, p, o);
    JoinWellFormed(env, m', blocks', p + MONITOR_WORDS);
    assert At(8 * p) == p;
  }

  lemma InflatePlaced(env: Env, m: seq<int>, m': seq<int>, blocks: set<int>, p: int, o: int)
    requires WellFormed(env, m, blocks, p) && p + MONITOR_WORDS <= env.limit
    requires o in blocks && !IsMonitor(o) && 0 <= At(o) < |m| && Inflated(m, m', p, o)
    ensures Placed(env, m', blocks + {8 * p + 1}, p + MONITOR_WORDS)
    ensures forall f :: f in blocks + {8 * p + 1} ==> EntryOk(env, m', f)
  {
    hide WellFormed, ObjectAt, Words;
    var e := 8 * p + 1;
    MonitorEntry(p);
    HeapBounds(env, m, blocks, p);
    forall f | f in blocks
      ensures f < 8 * p && EntryOk(env, m, f) && EntryOk(env, m', f) && At(f) + EntryWords(env, m', f) <= p
    {
      InflateShape(env, m, m', blocks, p, o, f);
    }
    assert EntryOk(env, m', e) && EntryWords(env, m', e) == MONITOR_WORDS;
    forall f, g | f in blocks + {e} && g in blocks + {e} && f < g ensures At(f) + EntryWords(env, m', f) <= At(g) {
      if g in blocks { InflateOrder(env, m, m', blocks, p, o, f, g); }
    }
  }

  lemma InflateOrder(env: Env, m: seq<int>, m': seq<int>, blocks: set<int>, p: int, o: int, f: int, g: int)
    requires WellFormed(env, m, blocks, p) && p + MONITOR_WORDS <= env.limit
    requires o in blocks && !IsMonitor(o) && 0 <= At(o) < |m| && Inflated(m, m', p, o)
    requires f in blocks && g in blocks && f < g
    ensures EntryOk(env, m', f) && At(f) + EntryWords(env, m', f) <= At(g)
  {
    hide EntryOk, EntryWords;
    InflateShape(env, m, m', blocks, p, o, f);
  }

  lemma InflateSlots(env: Env, m: seq<int>, m': seq<int>, blocks: set<int>, p: int, o: int)
    requires WellFormed(env, m, blocks, p) && p + MONITOR_WORDS <= env.limit
    requires o in blocks && !IsMonitor(o) && 0 <= At(o) < |m| && Inflated(m, m', p, o)
    requires forall f :: f in blocks + {8 * p + 1} ==> EntryOk(env, m', f)
    ensures SlotsOk(env, m', blocks + {8 * p + 1})
  {
    hide WellFormed, EntryOk, EntryWords, Inflated, IsWeakSlot;
    MonitorTag(p);
    var blocks' := blocks + {8 * p + 1};
    forall f, t | f in blocks' && !IsMonitor(f) && 0 <= t < EntryWords(env, m', f) && (t in Strong(env, m', f) || Weak(env, m', f, t))
      ensures 0 <= At(f) && At(f) + t < |m'| && SlotOk(env, blocks', m'[At(f) + t])
    {
      assert f in blocks;
      InflateShape(env, m, m', blocks, p, o, f);
      OldSlotOk(env, m, blocks, p, f, t);
      InflateSlot(env, m, m', blocks, p, o, f, t);
    }
  }

  lemma InflateShape(env: Env, m: seq<int>, m': seq<int>, blocks: set<int>, p: int, o: int, f: int)
    requires WellFormed(env, m, blocks, p) && p + MONITOR_WORDS <= env.limit
    requires o in blocks && !IsMonitor(o) && 0 <= At(o) < |m| && f in blocks
    requires Inflated(m, m', p, o)
    ensures f < 8 * p && SameShape(env, m, m', f)
    ensures At(f) + EntryWords(env, m, f) <= p && 2 <= EntryWords(env, m, f) && 0 <= At(f)
  {
    hide WellFormed;
    BlockOk(env, m, blocks, p, f);
    if !IsMonitor(f) {
      NotHeaderOf(env, m, blocks, p, o, f, 1);
      if !ClassOf(env, m, At(f)).Ordinary? { NotHeaderOf(env, m, blocks, p, o, f, 2); }
    }
  }

  /** Word `t` of block `f` is not the header of object `o`, unless it is `f`'s own. */
  lemma NotHeaderOf(env: Env, m: seq<int>, blocks: set<int>, p: int, o: int, f: int, t: int)
    requires WellFormed(env, m, blocks, p) && o in blocks && f in blocks && !IsMonitor(o)
    requires EntryOk(env, m, f) && 0 <= t < EntryWords(env, m, f) && (f != o || t != 0)
    ensures At(f) + t != At(o)
  {
    BlockOk(env, m, blocks, p, o);
    if At(f) + t == At(o) { SameBlock(env, m, blocks, p, o, f, At(o)); }
  }

  lemma InflateSlot(env: Env, m: seq<int>, m': seq<int>, blocks: set<int>, p: int, o: int, f: int, t: int)
    requires WellFormed(env, m, blocks, p) && p + MONITOR_WORDS <= env.limit
    requires o in blocks && !IsMonitor(o) && 0 <= At(o) < |m| && f in blocks && EntryOk(env, m, f) && !IsMonitor(f)
    requires Inflated(m, m', p, o)
    requires 0 <= t < EntryWords(env, m, f) && (t in Strong(env, m, f) || Weak(env, m, f, t))
    ensures 0 <= At(f) && At(f) + t < |m| == |m'| && m'[At(f) + t] == m[At(f) + t]
  {
    hide WellFormed;
    BlockOk(env, m, blocks, p, f);
    StrongSlotFacts(ClassOf(env, m, At(f)), Length(env, m, At(f)));
    assert t != 0;
    NotHeaderOf(env, m, blocks, p, o, f, t);
  }

  lemma InflateHeader(env: Env, m: seq<int>, m': seq<int>, blocks: set<int>, p: int, o: int, f: int)
    requires WellFormed(env, m, blocks, p) && p + MONITOR_WORDS <= env.limit
    requires o in blocks && !IsMonitor(o) && 0 <= At(o) < |m| && IsMarkWord(m[At(o)])
    requires Inflated(m, m', p, o) && f in blocks && EntryOk(env, m', f)
    ensures HeaderOk(env, m', blocks + {8 * p + 1}, f)
    ensures f != o && !IsMonitor(f) ==> 0 <= At(f) < |m| && m'[At(f)] == m[At(f)]
    ensures !IsMonitor(f) ==> 0 <= At(f) < |m| && m[At(f)] != 8 * p
  {
    hide WellFormed, EntryWords, ObjectAt, Flagged;
    BlockOk(env, m, blocks, p, o);
    BlockOk(env, m, blocks, p, f);
    OldHeader(env, m, blocks, p, f);
    if IsMonitor(f) {
      NotHeaderOf(env, m, blocks, p, o, f, 1);
      assert m'[At(f) + 1] == m[At(f) + 1];
    } else {
      OldMonitorBelow(env, m, blocks, p, f);
      if f != o {
        NotHeaderOf(env, m, blocks, p, o, f, 0);
        assert m'[At(f)] == m[At(f)];
      }
    }
  }

  lemma InflateNewHeader(env: Env, m: seq<int>, m': seq<int>, blocks: set<int>, p: int, o: int)
    requires WellFormed(env, m, blocks, p) && p + MONITOR_WORDS <= env.limit
    requires o in blocks && !IsMonitor(o) && 0 <= At(o) < |m| && IsMarkWord(m[At(o)])
    requires Inflated(m, m', p, o)
    ensures EntryOk(env, m', 8 * p + 1) && HeaderOk(env, m', blocks + {8 * p + 1}, 8 * p + 1)
    ensures m'[At(o)] == 8 * p && IsMonitor(8 * p + 1)
  {
    hide WellFormed, EntryWords, ObjectAt, At, IsMonitor, IsMarkWord, Flagged;
    HeapBounds(env, m, blocks, p);
    MonitorEntry(p);
    OldHeader(env, m, blocks, p, o);
  }

  lemma MonitorEntry(p: int)
    ensures IsMonitor(8 * p + 1) && At(8 * p + 1) == p && (8 * p + 1) % 8 == 1
  {
    hide IsMonitor, At;
    MonitorTag(p);
    MonitorAt(p);
  }

  lemma MonitorTag(p: int)
    ensures IsMonitor(8 * p + 1)
  {
  }

  lemma MonitorAt(p: int)
    ensures At(8 * p + 1) == p
  {
  }

  lemma OldMonitorBelow(env: Env, m: seq<int>, blocks: set<int>, p: int, f: int)
    requires WellFormed(env, m, blocks, p) && f in blocks && !IsMonitor(f)
    ensures 0 <= At(f) < |m| && m[At(f)] != 8 * p
  {
    hide WellFormed;
    BlockOk(env, m, blocks, p, f);
    OldHeader(env, m, blocks, p, f);
    if !IsMarkWord(m[At(f)]) {
      BlockOk(env, m, blocks, p, m[At(f)] + 1);
    }
  }

  lemma InflateHeaders(env: Env, m: seq<int>, m': seq<int>, blocks: set<int>, p: int, o: int)
    requires WellFormed(env, m, blocks, p) && p + MONITOR_WORDS <= env.limit
    requires o in blocks && !IsMonitor(o) && 0 <= At(o) < |m| && IsMarkWord(m[At(o)])
    requires Inflated(m, m', p, o)
    requires forall f :: f in blocks + {8 * p + 1} ==> EntryOk(env, m', f)
    ensures HeadersOk(env, m', blocks + {8 * p + 1})
  {
    hide WellFormed, EntryOk, HeaderOk, SharesMonitor;
    var blocks' := blocks + {8 * p + 1};
    InflateNewHeader(env, m, m', blocks, p, o);
    forall f | f in blocks' ensures HeaderOk(env, m', blocks', f) {
      if f in blocks { InflateHeader(env, m, m', blocks, p, o, f); }
    }
    forall f, g | f in blocks' && g in blocks' && SharesMonitor(env, m', f, g) ensures f == g {
      InflatePrivate(env, m, m', blocks, p, o, f, g);
    }
  }

  lemma InflatePrivate(env: Env, m: seq<int>, m': seq<int>, blocks: set<int>, p: int, o: int, f: int, g: int)
    requires WellFormed(env, m, blocks, p) && p + MONITOR_WORDS <= env.limit
    requires o in blocks && !IsMonitor(o) && 0 <= At(o) < |m| && IsMarkWord(m[At(o)])
    requires Inflated(m, m', p, o)
    requires f in blocks + {8 * p + 1} && g in blocks + {8 * p + 1}
    requires EntryOk(env, m', f) && EntryOk(env, m', g) && SharesMonitor(env, m', f, g)
    ensures f == g
  {
    hide WellFormed, EntryOk, HeaderOk, IsMonitor, At, IsMarkWord, Inflated;
    InflateNewHeader(env, m, m', blocks, p, o);
    assert f in blocks && g in blocks;
    InflateHeader(env, m, m', blocks, p, o, f);
    InflateHeader(env, m, m', blocks, p, o, g);
    if f != o && g != o { OldPrivate(env, m, blocks, p, f, g); }
  }

  // ---------- identity hashes ----------

  /** Every object has an identity; `hashes` records the hash that each identity has been given. */
  ghost predicate HashesOk(m: seq<int>, blocks: set<int>, ids: map<int, nat>, next: nat, hashes: map<nat, int>) {
    && (forall e :: e in ids <==> e in blocks && !IsMonitor(e))
    && (forall e :: e in ids ==> HashKnown(m, ids[e], e, next, hashes))
    && (forall e, f :: e in ids && f in ids && ids[e] == ids[f] ==> e == f)
    && (forall k :: k in hashes ==> k < next)
  }

  /** The hash in the mark word of `e` is nonzero exactly when one is recorded, and then it is that one. */
  ghost predicate HashKnown(m: seq<int>, id: nat, e: int, next: nat, hashes: map<nat, int>) {
    && 0 <= At(e) < |m| && 0 <= MarkAddr(m, e) < |m| && id < next
    && (HashOf(m, e) != 0 <==> id in hashes)
    && (id in hashes ==> hashes[id] == HashOf(m, e))
  }

  /** Identities move with their objects. */
  ghost function MovedIds(fwd: map<int, nat>, live: set<int>, ids: map<int, nat>): map<int, nat>
    requires forall e :: e in live ==> e in fwd && e in ids
    requires forall e, f :: e in fwd && f in fwd && e < f ==> NewEntry(fwd, e) < NewEntry(fwd, f)
  {
    map e | e in live :: NewEntry(fwd, e) := ids[e]
  }

  lemma HashesMoved(env: Env, m0: seq<int>, blocks: set<int>, top: int, slots: seq<nat>, pend: nat,
                    live: set<int>, entries: seq<int>, m: seq<int>, top': int, fwd: map<int, nat>,
                    ids: map<int, nat>, next: nat, hashes: map<nat, int>)
    requires Collected(env, m0, blocks, top, slots, pend, live, entries, m, top')
    requires EntriesOk(env, m0, entries) && StrictlySorted(entries) && fwd == Forwarding(env, m0, entries)
    requires HashesOk(m0, blocks, ids, next, hashes)
    ensures forall e :: e in live ==> e in fwd && e in ids
    ensures forall e, f :: e in fwd && f in fwd && e < f ==> NewEntry(fwd, e) < NewEntry(fwd, f)
    ensures HashesOk(m, NewBlocks(fwd), MovedIds(fwd, live, ids), next, hashes)
  {
    hide Collected, WellFormed, Reachable, LiveList, EntriesOk, StrictlySorted, Forwarding, HashKnown, InHeap, MarkAddr, HashOf,
         IsMonitor, NewEntry, NewBlocks, At;
    LiveFacts(env, m0, blocks, top, slots, pend, live, entries, m, top');
    RootsForwarded(env, m0, blocks, top, slots, pend, live, entries, m, top');
    var ids' := MovedIds(fwd, live, ids);
    MovedIdsDomain(fwd, live, ids);
    forall f | f in ids' ensures HashKnown(m, ids'[f], f, next, hashes) {
      var e :| e in live && f == NewEntry(fwd, e);
      MarkWordKept(env, m0, blocks, top, slots, pend, live, entries, m, top', e);
      HashKnownMoved(m0, m, ids[e], e, f, next, hashes);
    }
  }

  lemma MovedIdsDomain(fwd: map<int, nat>, live: set<int>, ids: map<int, nat>)
    requires forall e :: e in live ==> e in fwd && e in ids
    requires forall e :: e in fwd && !IsMonitor(e) <==> e in live
    requires forall e, f :: e in fwd && f in fwd && e < f ==> NewEntry(fwd, e) < NewEntry(fwd, f)
    ensures forall f :: f in MovedIds(fwd, live, ids) <==> f in NewBlocks(fwd) && !IsMonitor(f)
  {
    hide IsMonitor, NewEntry, At;
    forall f ensures f in MovedIds(fwd, live, ids) <==> f in NewBlocks(fwd) && !IsMonitor(f) {
      if f in NewBlocks(fwd) {
        var e := NewBlockSource(fwd, f);
        NewEntryTag(fwd, e);
      }
      if f in MovedIds(fwd, live, ids) {
        var e :| e in live && f == NewEntry(fwd, e);
        NewEntryTag(fwd, e);
        assert f in NewBlocks(fwd);
      }
    }
  }

  lemma HashKnownMoved(m0: seq<int>, m: seq<int>, id: nat, e: int, f: int, next: nat, hashes: map<nat, int>)
    requires HashKnown(m0, id, e, next, hashes) && 0 <= At(f) < |m| && 0 <= MarkAddr(m, f) < |m| && HashOf(m, f) == HashOf(m0, e)
    ensures HashKnown(m, id, f, next, hashes)
  {
  }

  // ---------- what else such writes leave alone ----------

  lemma FreeSpaceHashes(env: Env, m: seq<int>, m': seq<int>, blocks: set<int>, top: int,
                        ids: map<int, nat>, next: nat, hashes: map<nat, int>)
    requires WellFormed(env, m, blocks, top) && SameBelow(env, m, m', top) && HashesOk(m, blocks, ids, next, hashes)
    ensures HashesOk(m', blocks, ids, next, hashes)
  {
    hide WellFormed;
    forall e | e in ids ensures HashKnown(m', ids[e], e, next, hashes) {
      MarkAddrWhere(env, m, blocks, top, e);
      BlockOk(env, m, blocks, top, e);
    }
  }

  lemma {:induction false} FreeSpaceChain(env: Env, m: seq<int>, m': seq<int>, blocks: set<int>, top: int, head: int, list: seq<int>)
    requires WellFormed(env, m, blocks, top) && SameBelow(env, m, m', top) && Chain(env, m, blocks, head, list)
    ensures Chain(env, m', blocks, head, list)
    decreases |list|
  {
    hide WellFormed, EntryOk, EntryWords, Strong;
    if list != [] {
      SameEntry(env, m, m', blocks, top, head);
      ReferenceSlots(env, m, blocks, head);
      FreeSpaceChain(env, m, m', blocks, top, Discovered(env, m, blocks, head), list[1..]);
    }
  }

  // ---------- writing a mark word ----------

  /** `m'` is `m` with a new hash or other high bits in the mark word of `o`; its two flag bits are unchanged. */
  ghost predicate MarkWordWritten(m: seq<int>, m': seq<int>, o: int) {
    && |m'| == |m| && 0 <= At(o) < |m| && 0 <= MarkAddr(m, o) < |m|
    && m'[MarkAddr(m, o)] % 4 == m[MarkAddr(m, o)] % 4
    && forall a :: 0 <= a < |m| && a != MarkAddr(m, o) ==> m'[a] == m[a]
  }

  lemma MarkWriteReads(env: Env, m: seq<int>, m': seq<int>, blocks: set<int>, top: int, o: int, e: int, t: int)
    requires WellFormed(env, m, blocks, top) && o in blocks && !IsMonitor(o) && MarkWordWritten(m, m', o)
    requires e in blocks && EntryOk(env, m, e) && 0 <= t < EntryWords(env, m, e)
    requires if IsMonitor(e) then t != 1 else t != 0
    ensures 0 <= At(e) && At(e) + t < |m| && m'[At(e) + t] == m[At(e) + t]
  {
    hide WellFormed;
    BlockOk(env, m, blocks, top, e);
    if At(e) + t == MarkAddr(m, o) { MarkInBlock(env, m, blocks, top, o, e); }
  }

  lemma MarkWriteShape(env: Env, m: seq<int>, m': seq<int>, blocks: set<int>, top: int, o: int, e: int)
    requires WellFormed(env, m, blocks, top) && o in blocks && !IsMonitor(o) && MarkWordWritten(m, m', o) && e in blocks
    ensures SameShape(env, m, m', e)
    ensures 0 <= At(e) && At(e) + EntryWords(env, m, e) <= top && 2 <= EntryWords(env, m, e)
  {
    hide WellFormed;
    BlockOk(env, m, blocks, top, e);
    if !IsMonitor(e) {
      MarkWriteReads(env, m, m', blocks, top, o, e, 1);
      if !ClassOf(env, m, At(e)).Ordinary? { MarkWriteReads(env, m, m', blocks, top, o, e, 2); }
    }
  }

  /** Every header still is a mark word, or the same monitor pointer; only `o`'s mark word changed. */
  lemma MarkWriteHeader(env: Env, m: seq<int>, m': seq<int>, blocks: set<int>, top: int, o: int, e: int)
    requires WellFormed(env, m, blocks, top) && o in blocks && !IsMonitor(o) && MarkWordWritten(m, m', o) && e in blocks
    requires EntryOk(env, m', e)
    ensures HeaderOk(env, m', blocks, e)
    ensures !IsMonitor(e) ==> && 0 <= At(e) < |m| && MarkAddr(m', e) == MarkAddr(m, e) && 0 <= MarkAddr(m, e) < |m|
                              && IsMarkWord(m'[At(e)]) == IsMarkWord(m[At(e)])
                              && (!IsMarkWord(m[At(e)]) ==> m'[At(e)] == m[At(e)])
                              && (e != o ==> m'[MarkAddr(m, e)] == m[MarkAddr(m, e)])
  {
    hide WellFormed, EntryOk, EntryWords, IsMonitor, At;
    BlockOk(env, m, blocks, top, e);
    OldHeader(env, m, blocks, top, e);
    MarkAddrWhere(env, m, blocks, top, o);
    if IsMonitor(e) {
      WordsBoundMonitor(env, m, e);
      if At(e) + 1 != MarkAddr(m, o) { assert m'[At(e) + 1] == m[At(e) + 1]; }
    } else {
      MarkAddrWhere(env, m, blocks, top, e);
      if e != o && MarkAddr(m, e) == MarkAddr(m, o) { MarkAddrInjective(env, m, blocks, top, e, o); }
      if !IsMarkWord(m[At(e)]) && At(e) == MarkAddr(m, o) { MarkInBlock(env, m, blocks, top, o, e); assert false; }
    }
  }

  lemma WordsBoundMonitor(env: Env, m: seq<int>, e: int)
    requires EntryOk(env, m, e) && IsMonitor(e)
    ensures 0 <= At(e) && At(e) + 1 < |m|
  {
  }

  lemma MarkWriteWellFormed(env: Env, m: seq<int>, m': seq<int>, blocks: set<int>, top: int, o: int)
    requires WellFormed(env, m, blocks, top) && o in blocks && !IsMonitor(o) && MarkWordWritten(m, m', o)
    ensures WellFormed(env, m', blocks, top)
  {
    hide WellFormed, EntryOk, EntryWords, IsMonitor, At, IsMarkWord, SlotOk, HeaderOk, Weak, Strong;
    HeapBounds(env, m, blocks, top);
    forall e | e in blocks ensures EntryOk(env, m', e) && At(e) + EntryWords(env, m', e) <= top && HeaderOk(env, m', blocks, e) {
      MarkWriteShape(env, m, m', blocks, top, o, e);
      MarkWriteHeader(env, m, m', blocks, top, o, e);
    }
    forall e, f | e in blocks && f in blocks && e < f ensures At(e) + EntryWords(env, m', e) <= At(f) {
      MarkWriteShape(env, m, m', blocks, top, o, e);
      OldOrder(env, m, blocks, top, e, f);
    }
    forall e, f | e in blocks && f in blocks && SharesMonitor(env, m', e, f) ensures e == f {
      MarkWriteHeader(env, m, m', blocks, top, o, e);
      MarkWriteHeader(env, m, m', blocks, top, o, f);
      OldPrivate(env, m, blocks, top, e, f);
    }
    MarkWriteSlots(env, m, m', blocks, top, o);
    JoinWellFormed(env, m', blocks, top);
  }

  lemma OldOrder(env: Env, m: seq<int>, blocks: set<int>, top: int, e: int, f: int)
    requires WellFormed(env, m, blocks, top) && e in blocks && f in blocks && e < f
    ensures EntryOk(env, m, e) && At(e) + EntryWords(env, m, e) <= At(f)
  {
  }

  lemma MarkWriteSlots(env: Env, m: seq<int>, m': seq<int>, blocks: set<int>, top: int, o: int)
    requires WellFormed(env, m, blocks, top) && o in blocks && !IsMonitor(o) && MarkWordWritten(m, m', o)
    requires forall e :: e in blocks ==> EntryOk(env, m', e)
    ensures SlotsOk(env, m', blocks)
  {
    hide WellFormed, EntryOk, EntryWords, MarkWordWritten, StrongSlots, IsWeakSlot, SlotOk;
    forall e, t | e in blocks && !IsMonitor(e) && 0 <= t < EntryWords(env, m', e) && (t in Strong(env, m', e) || Weak(env, m', e, t))
      ensures 0 <= At(e) && At(e) + t < |m'| && SlotOk(env, blocks, m'[At(e) + t])
    {
      MarkWriteShape(env, m, m', blocks, top, o, e);
      SlotNotHeader(env, m, e, t);
      MarkWriteReads(env, m, m', blocks, top, o, e, t);
      OldSlotOk(env, m, blocks, top, e, t);
      SameLength(m, m', o);
    }
  }

  lemma SameLength(m: seq<int>, m': seq<int>, o: int)
    requires MarkWordWritten(m, m', o)
    ensures |m'| == |m|
  {
  }

  lemma SlotNotHeader(env: Env, m: seq<int>, e: int, t: int)
    requires EntryOk(env, m, e) && !IsMonitor(e) && (t in Strong(env, m, e) || Weak(env, m, e, t))
    ensures 2 <= t
  {
    StrongSlotFacts(ClassOf(env, m, At(e)), Length(env, m, At(e)));
  }

  lemma {:induction false} MarkWriteChain(env: Env, m: seq<int>, m': seq<int>, blocks: set<int>, top: int, o: int, head: int,
                                          list: seq<int>)
    requires WellFormed(env, m, blocks, top) && o in blocks && !IsMonitor(o) && MarkWordWritten(m, m', o)
    requires Chain(env, m, blocks, head, list)
    ensures Chain(env, m', blocks, head, list)
    decreases |list|
  {
    hide WellFormed, EntryOk, EntryWords, Strong, MarkWordWritten;
    if list != [] {
      MarkWriteShape(env, m, m', blocks, top, o, head);
      ReferenceSlots(env, m, blocks, head);
      MarkWriteReads(env, m, m', blocks, top, o, head, REFERENT);
      MarkWriteReads(env, m, m', blocks, top, o, head, DISCOVERED);
      MarkWriteChain(env, m, m', blocks, top, o, Discovered(env, m, blocks, head), list[1..]);
    }
  }

  // ---------- storing a reference in an object ----------

  /** `m'` is `m` with word `t` of object `o` overwritten, which is a reference slot. */
  ghost predicate SlotWritten(env: Env, m: seq<int>, m': seq<int>, o: int, t: int) {
    && EntryOk(env, m, o) && !IsMonitor(o) && (t in Strong(env, m, o) || Weak(env, m, o, t))
    && 0 <= At(o) && At(o) + t < |m| == |m'| && m' == m[At(o) + t := m'[At(o) + t]]
  }

  lemma SlotWriteReads(env: Env, m: seq<int>, m': seq<int>, blocks: set<int>, top: int, o: int, t: int, e: int, u: int)
    requires WellFormed(env, m, blocks, top) && o in blocks && SlotWritten(env, m, m', o, t) && |m'| == |m|
    requires e in blocks && EntryOk(env, m, e) && 0 <= u < EntryWords(env, m, e) && (e != o || u != t)
    ensures 0 <= At(e) && At(e) + u < |m| && m'[At(e) + u] == m[At(e) + u]
  {
    hide WellFormed, Strong, Weak;
    BlockOk(env, m, blocks, top, e);
    BlockOk(env, m, blocks, top, o);
    SlotInBlock(env, m, o, t);
    if At(e) + u == At(o) + t { SameBlockAt(env, m, blocks, top, e, o, At(o) + t); }
  }

  lemma StrongInBlock(env: Env, m: seq<int>, o: int, t: int)
    requires EntryOk(env, m, o) && !IsMonitor(o) && t in Strong(env, m, o)
    ensures 2 <= t < EntryWords(env, m, o)
    ensures !ClassOf(env, m, At(o)).Ordinary? ==> 4 <= t
  {
    StrongSlotFacts(ClassOf(env, m, At(o)), Length(env, m, At(o)));
  }

  lemma SlotInBlock(env: Env, m: seq<int>, o: int, t: int)
    requires EntryOk(env, m, o) && !IsMonitor(o) && (t in Strong(env, m, o) || Weak(env, m, o, t))
    ensures 2 <= t < EntryWords(env, m, o)
    ensures !ClassOf(env, m, At(o)).Ordinary? ==> 4 <= t
  {
    if t in Strong(env, m, o) {
      StrongInBlock(env, m, o, t);
    } else {
      ReferenceSlots(env, m, {o}, o);
    }
  }

  lemma SameBlockAt(env: Env, m: seq<int>, blocks: set<int>, top: int, b: int, c: int, a: int)
    requires WellFormed(env, m, blocks, top) && b in blocks && c in blocks && EntryOk(env, m, b) && EntryOk(env, m, c)
    requires At(b) <= a < At(b) + EntryWords(env, m, b) && At(c) <= a < At(c) + EntryWords(env, m, c)
    ensures b == c
  {
    SameBlock(env, m, blocks, top, b, c, a);
  }

  lemma SlotWriteShape(env: Env, m: seq<int>, m': seq<int>, blocks: set<int>, top: int, o: int, t: int, e: int)
    requires WellFormed(env, m, blocks, top) && o in blocks && SlotWritten(env, m, m', o, t) && |m'| == |m| && e in blocks
    ensures SameShape(env, m, m', e)
    ensures 0 <= At(e) && At(e) + EntryWords(env, m, e) <= top && 2 <= EntryWords(env, m, e)
    ensures m'[At(e)] == m[At(e)] && (IsMonitor(e) ==> At(e) + 1 < |m| && m'[At(e) + 1] == m[At(e) + 1])
  {
    hide WellFormed, SlotWritten, StrongSlots, ClassOk, IsWeakSlot;
    BlockOk(env, m, blocks, top, e);
    SlotWrittenMeans(env, m, m', o, t);
    SlotInBlock(env, m, o, t);
    SlotWriteReads(env, m, m', blocks, top, o, t, e, 0);
    SlotWriteReads(env, m, m', blocks, top, o, t, e, 1);
    if !IsMonitor(e) {
      if !ClassOf(env, m, At(e)).Ordinary? { SlotWriteReads(env, m, m', blocks, top, o, t, e, 2); }
    }
  }

  lemma SlotWrittenMeans(env: Env, m: seq<int>, m': seq<int>, o: int, t: int)
    requires SlotWritten(env, m, m', o, t)
    ensures EntryOk(env, m, o) && !IsMonitor(o) && (t in Strong(env, m, o) || Weak(env, m, o, t))
    ensures 0 <= At(o) && At(o) + t < |m| == |m'|
  {
  }

  lemma SlotWriteWellFormed(env: Env, m: seq<int>, m': seq<int>, blocks: set<int>, top: int, o: int, t: int)
    requires WellFormed(env, m, blocks, top) && o in blocks && SlotWritten(env, m, m', o, t) && |m'| == |m|
    requires SlotOk(env, blocks, m'[At(o) + t])
    ensures WellFormed(env, m', blocks, top)
  {
    hide WellFormed, EntryOk, EntryWords, SlotWritten, SlotOk, Weak, Strong;
    HeapBounds(env, m, blocks, top);
    forall e | e in blocks ensures EntryOk(env, m', e) && At(e) + EntryWords(env, m', e) <= top && HeaderOk(env, m', blocks, e) {
      SlotWriteShape(env, m, m', blocks, top, o, t, e);
      OldHeader(env, m, blocks, top, e);
    }
    forall e, f | e in blocks && f in blocks && e < f ensures At(e) + EntryWords(env, m', e) <= At(f) {
      SlotWriteShape(env, m, m', blocks, top, o, t, e);
      OldOrder(env, m, blocks, top, e, f);
    }
    forall e, f | e in blocks && f in blocks && SharesMonitor(env, m', e, f) ensures e == f {
      SlotWriteShape(env, m, m', blocks, top, o, t, e);
      SlotWriteShape(env, m, m', blocks, top, o, t, f);
      OldPrivate(env, m, blocks, top, e, f);
    }
    SlotWriteSlots(env, m, m', blocks, top, o, t);
    JoinWellFormed(env, m', blocks, top);
  }

  lemma SlotWriteSlots(env: Env, m: seq<int>, m': seq<int>, blocks: set<int>, top: int, o: int, t: int)
    requires WellFormed(env, m, blocks, top) && o in blocks && SlotWritten(env, m, m', o, t) && |m'| == |m|
    requires SlotOk(env, blocks, m'[At(o) + t]) && forall e :: e in blocks ==> EntryOk(env, m', e)
    ensures SlotsOk(env, m', blocks)
  {
    hide WellFormed, EntryOk, EntryWords, StrongSlots, IsWeakSlot, SlotOk, SlotWritten;
    forall e, u | e in blocks && !IsMonitor(e) && 0 <= u < EntryWords(env, m', e) && (u in Strong(env, m', e) || Weak(env, m', e, u))
      ensures 0 <= At(e) && At(e) + u < |m'| && SlotOk(env, blocks, m'[At(e) + u])
    {
      SlotWriteShape(env, m, m', blocks, top, o, t, e);
      OldSlotOk(env, m, blocks, top, e, u);
      if e != o || u != t { SlotWriteReads(env, m, m', blocks, top, o, t, e, u); }
    }
  }

  /** The pending list stays as it is, unless the link of one of its members is overwritten or the referent set again. */
  lemma {:induction false} SlotWriteChain(env: Env, m: seq<int>, m': seq<int>, blocks: set<int>, top: int, o: int, t: int,
                                          head: int, list: seq<int>)
    requires WellFormed(env, m, blocks, top) && o in blocks && SlotWritten(env, m, m', o, t) && |m'| == |m|
    requires Chain(env, m, blocks, head, list)
    requires o in list ==> t != DISCOVERED && (t == REFERENT ==> m'[At(o) + t] == 0)
    ensures Chain(env, m', blocks, head, list)
    decreases |list|
  {
    hide WellFormed, EntryOk, EntryWords, Strong, SlotWritten;
    if list != [] {
      SlotWriteShape(env, m, m', blocks, top, o, t, head);
      ReferenceSlots(env, m, blocks, head);
      SlotWrittenMeans(env, m, m', o, t);
      if head != o || t != REFERENT { SlotWriteReads(env, m, m', blocks, top, o, t, head, REFERENT); }
      SlotWriteReads(env, m, m', blocks, top, o, t, head, DISCOVERED);
      SlotWriteChain(env, m, m', blocks, top, o, t, Discovered(env, m, blocks, head), list[1..]);
    }
  }

  lemma SlotWriteHashes(env: Env, m: seq<int>, m': seq<int>, blocks: set<int>, top: int, o: int, t: int,
                        ids: map<int, nat>, next: nat, hashes: map<nat, int>)
    requires WellFormed(env, m, blocks, top) && o in blocks && SlotWritten(env, m, m', o, t) && |m'| == |m|
    requires HashesOk(m, blocks, ids, next, hashes)
    ensures HashesOk(m', blocks, ids, next, hashes)
  {
    hide WellFormed, SlotWritten, IsMonitor, At;
    forall e | e in ids ensures HashKnown(m', ids[e], e, next, hashes) {
      MarkAddrWhere(env, m, blocks, top, e);
      SlotWriteShape(env, m, m', blocks, top, o, t, e);
      if !IsMarkWord(m[At(e)]) { SlotWriteShape(env, m, m', blocks, top, o, t, m[At(e)] + 1); }
    }
  }
}
