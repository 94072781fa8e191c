/** What a collection preserves: the heap stays well formed, the live object graph survives up to
    renaming of addresses, and identity hashes stay with their objects. */
module HeapGraph {
  import opened Memory
  import opened Mark
  import opened PointerSort
  import opened Slide
  import opened Relocate
  import opened Collector

  /** The entry of a block after it has moved. */
  function NewEntry(fwd: map<int, nat>, e: int): int
    requires e in fwd
  {
    8 * fwd[e] + if IsMonitor(e) then 1 else 0
  }

  ghost function NewBlocks(fwd: map<int, nat>): set<int> {
    set e | e in fwd :: NewEntry(fwd, e)
  }

  // ---------- the forwarding map ----------

  lemma FwdIndex(env: Env, m0: seq<int>, entries: seq<int>, e: int) returns (k: int)
    requires EntriesOk(env, m0, entries) && StrictlySorted(entries) && e in Forwarding(env, m0, entries)
    ensures 0 <= k < |entries| && entries[k] == e && Forwarding(env, m0, entries)[e] == Loc(env, m0, entries, k)
  {
    hide EntryOk;
    k :| 0 <= k < |entries| && entries[k] == e;
  }

  /** Forwarding keeps the address order and leaves room for every block. */
  lemma FwdOrder(env: Env, m0: seq<int>, entries: seq<int>, e: int, f: int)
    requires EntriesOk(env, m0, entries) && StrictlySorted(entries)
    requires e in Forwarding(env, m0, entries) && f in Forwarding(env, m0, entries) && e < f
    ensures EntryOk(env, m0, e)
    ensures Forwarding(env, m0, entries)[e] + EntryWords(env, m0, e) <= Forwarding(env, m0, entries)[f]
  {
    hide EntryOk, Forwarding;
    var i := FwdIndex(env, m0, entries, e);
    var j := FwdIndex(env, m0, entries, f);
    LocMonotone(env, m0, entries, if i < j then i else j, if i < j then j else i);
  }

  lemma FwdBounds(env: Env, m0: seq<int>, entries: seq<int>, e: int)
    requires EntriesOk(env, m0, entries) && StrictlySorted(entries) && e in Forwarding(env, m0, entries)
    ensures EntryOk(env, m0, e) && 2 <= EntryWords(env, m0, e)
    ensures env.base <= Forwarding(env, m0, entries)[e]
    ensures Forwarding(env, m0, entries)[e] + EntryWords(env, m0, e) <= Loc(env, m0, entries, |entries|)
  {
    hide Forwarding;
    var i := FwdIndex(env, m0, entries, e);
    WordsBound(env, m0, e);
    LocBase(env, m0, entries, i);
    LocMonotone(env, m0, entries, i, |entries|);
  }

  // ---------- reading collected blocks ----------

  /** The premises that a collection establishes for the block of `e`. */
  ghost predicate BlockAt(env: Env, m0: seq<int>, fwd: map<int, nat>, e: int, head: int, m: seq<int>) {
    && EntryOk(env, m0, e) && 2 <= EntryWords(env, m0, e) && e in fwd
    && env.base <= fwd[e] && fwd[e] + EntryWords(env, m0, e) <= env.limit <= |m|
    && m[fwd[e]..fwd[e] + EntryWords(env, m0, e)] == NewBlock(env, m0, fwd, e, head)
  }

  /** A word of a block before the collection. */
  ghost function Old(env: Env, m0: seq<int>, e: int, t: int): int
    requires EntryOk(env, m0, e) && 0 <= t < EntryWords(env, m0, e)
  {
    WordsBound(env, m0, e);
    m0[At(e) + t]
  }

  lemma BlockWord(env: Env, m0: seq<int>, fwd: map<int, nat>, e: int, head: int, m: seq<int>, t: int)
    requires BlockAt(env, m0, fwd, e, head, m) && 0 <= t < EntryWords(env, m0, e)
    ensures IsMonitor(e) ==> m[fwd[e] + t] == Old(env, m0, e, t)
    ensures !IsMonitor(e) ==>
              m[fwd[e] + t] == NewWord(ClassOf(env, m0, At(e)), Length(env, m0, At(e)), BlockOf(env, m0, e), fwd, head, t)
  {
    assert m[fwd[e] + t] == m[fwd[e]..fwd[e] + EntryWords(env, m0, e)][t];
  }

  lemma ObjectWord(env: Env, m0: seq<int>, fwd: map<int, nat>, e: int, head: int, m: seq<int>, t: int)
    requires BlockAt(env, m0, fwd, e, head, m) && 0 <= t < EntryWords(env, m0, e) && !IsMonitor(e)
    ensures t == 0 ==> m[fwd[e] + t] == ForwardHeader(fwd, Old(env, m0, e, 0))
    ensures t != 0 && Weak(env, m0, e, t) ==> m[fwd[e] + t] == ForwardWeak(fwd, Old(env, m0, e, t))
    ensures t == DISCOVERED && IsEnqueued(env, m0, fwd, e) ==> m[fwd[e] + t] == head
    ensures t in Strong(env, m0, e) && !(t == DISCOVERED && IsEnqueued(env, m0, fwd, e)) ==>
              m[fwd[e] + t] == ForwardRef(fwd, Old(env, m0, e, t))
    ensures t != 0 && t !in Strong(env, m0, e) && !Weak(env, m0, e, t) ==> m[fwd[e] + t] == Old(env, m0, e, t)
  {
    BlockWord(env, m0, fwd, e, head, m, t);
    StrongSlotFacts(ClassOf(env, m0, At(e)), Length(env, m0, At(e)));
    assert 0 !in Strong(env, m0, e) && (Weak(env, m0, e, t) ==> t !in Strong(env, m0, e));
    assert IsEnqueued(env, m0, fwd, e) ==> DISCOVERED in Strong(env, m0, e);
  }

  /** A Reference is enqueued when its referent is about to be cleared and its `discovered` link is free. */
  lemma EnqueuedMeans(env: Env, m0: seq<int>, fwd: map<int, nat>, e: int)
    requires EntryOk(env, m0, e)
    ensures IsEnqueued(env, m0, fwd, e) <==>
            && !IsMonitor(e) && ClassOf(env, m0, At(e)).Ordinary? && ClassOf(env, m0, At(e)).isReference
            && DISCOVERED < EntryWords(env, m0, e)
            && Old(env, m0, e, REFERENT) != 0 && Old(env, m0, e, REFERENT) !in fwd && Old(env, m0, e, DISCOVERED) == 0
  {
    WordsBound(env, m0, e);
    var b := BlockOf(env, m0, e);
    assert REFERENT < |b| ==> b[REFERENT] == m0[At(e) + REFERENT];
    assert DISCOVERED < |b| ==> b[DISCOVERED] == m0[At(e) + DISCOVERED];
  }

  lemma NewEntryTag(fwd: map<int, nat>, e: int)
    requires e in fwd
    ensures At(NewEntry(fwd, e)) == fwd[e] && IsMonitor(NewEntry(fwd, e)) == IsMonitor(e)
    ensures NewEntry(fwd, e) % 8 == if IsMonitor(e) then 1 else 0
  {
  }

  lemma NewEntryPlain(fwd: map<int, nat>, v: int)
    requires v in fwd && !IsMonitor(v)
    ensures NewEntry(fwd, v) == ForwardRef(fwd, v) == 8 * fwd[v]
  {
  }

  lemma ShapeWords(env: Env, m0: seq<int>, fwd: map<int, nat>, e: int, head: int, m: seq<int>)
    requires BlockAt(env, m0, fwd, e, head, m) && !IsMonitor(e)
    ensures 0 <= At(e) && At(e) + 1 < |m0| && fwd[e] + 1 < |m| && m[fwd[e] + 1] == m0[At(e) + 1]
    ensures !ClassOf(env, m0, At(e)).Ordinary? ==> At(e) + 2 < |m0| && fwd[e] + 2 < |m| && m[fwd[e] + 2] == m0[At(e) + 2]
  {
    hide NewBlock;
    StrongSlotFacts(ClassOf(env, m0, At(e)), Length(env, m0, At(e)));
    ObjectWord(env, m0, fwd, e, head, m, 1);
    if !ClassOf(env, m0, At(e)).Ordinary? {
      ObjectWord(env, m0, fwd, e, head, m, 2);
    }
  }

  /** A collected block keeps its class, length, size and slots. */
  lemma BlockShape(env: Env, m0: seq<int>, fwd: map<int, nat>, e: int, head: int, m: seq<int>)
    requires BlockAt(env, m0, fwd, e, head, m)
    ensures At(NewEntry(fwd, e)) == fwd[e] && IsMonitor(NewEntry(fwd, e)) == IsMonitor(e)
    ensures EntryOk(env, m, NewEntry(fwd, e)) && EntryWords(env, m, NewEntry(fwd, e)) == EntryWords(env, m0, e)
    ensures !IsMonitor(e) ==> Strong(env, m, NewEntry(fwd, e)) == Strong(env, m0, e)
    ensures !IsMonitor(e) ==> ClassOf(env, m, fwd[e]) == ClassOf(env, m0, At(e)) && Length(env, m, fwd[e]) == Length(env, m0, At(e))
  {
    hide NewBlock, StrongSlots, IsEnqueued;
    NewEntryTag(fwd, e);
    if !IsMonitor(e) {
      ShapeWords(env, m0, fwd, e, head, m);
    }
  }

  /** Every forwarded entry of a collection satisfies `BlockAt`. */
  lemma CollectedBlock(env: Env, m0: seq<int>, blocks: set<int>, top: int, slots: seq<nat>, pend: nat,
                       live: set<int>, entries: seq<int>, m: seq<int>, top': int, e: int) returns (k: int)
    requires Collected(env, m0, blocks, top, slots, pend, live, entries, m, top') && top' <= env.limit <= |m0|
    requires e in Forwarding(env, m0, entries)
    ensures 0 <= k < |entries| && entries[k] == e
    ensures var fwd := Forwarding(env, m0, entries);
            BlockAt(env, m0, fwd, e, PendingHead(env, m0, fwd, entries, ForwardRef(fwd, m0[pend]), k), m)
  {
    hide LiveList, EntryOk, EntryWords, NewBlock, Forwarding, Loc, PendingHead, Reachable;
    assert StrictlySorted(entries) by { SortedLiveList(env, m0, blocks, top, live, entries); }
    k := FwdIndex(env, m0, entries, e);
    FwdBounds(env, m0, entries, e);
    assert EntryCollected(env, m0, entries, ForwardRef(Forwarding(env, m0, entries), m0[pend]), m, k);
  }

  // ---------- live objects ----------

  /** Facts about a collection that the proofs below use. */
  lemma LiveFacts(env: Env, m0: seq<int>, blocks: set<int>, top: int, slots: seq<nat>, pend: nat,
                  live: set<int>, entries: seq<int>, m: seq<int>, top': int)
    requires Collected(env, m0, blocks, top, slots, pend, live, entries, m, top')
    ensures StrictlySorted(entries) && EntriesOk(env, m0, entries) && WellFormed(env, m0, blocks, top)
    ensures 0 < env.base <= top' <= top <= env.limit <= |m0| == |m| && pend in slots && pend < |m0|
    ensures forall e :: e in Forwarding(env, m0, entries) ==> e in blocks && InHeap(env, e)
    ensures forall e :: e in Forwarding(env, m0, entries) && !IsMonitor(e) <==> e in live
  {
    hide Collected, WellFormed, EntriesOk, LiveList, StrictlySorted, EntryOk;
    CollectedParts(env, m0, blocks, top, slots, pend, live, entries, m, top');
    LiveListBlocks(env, m0, blocks, top, live, entries);
    WellFormedList(env, m0, blocks, top, live, entries);
    SortedLiveList(env, m0, blocks, top, live, entries);
    HeapBounds(env, m0, blocks, top);
    var fwd := Forwarding(env, m0, entries);
    LocBase(env, m0, entries, |entries|);
    LocBelow(env, m0, blocks, top, entries, |entries|);
    forall e | e in fwd ensures e in blocks && InHeap(env, e) && (!IsMonitor(e) ==> e in live) {
      var k :| 0 <= k < |entries| && entries[k] == e;
      BlockOk(env, m0, blocks, top, e);
    }
    forall e | e in live ensures e in fwd && !IsMonitor(e) {
      LiveListed(env, m0, blocks, top, live, entries, e);
    }
  }

  lemma CollectedParts(env: Env, m0: seq<int>, blocks: set<int>, top: int, slots: seq<nat>, pend: nat,
                       live: set<int>, entries: seq<int>, m: seq<int>, top': int)
    requires Collected(env, m0, blocks, top, slots, pend, live, entries, m, top')
    ensures LiveList(env, m0, blocks, top, live, entries) && EntriesOk(env, m0, entries) && top' == Loc(env, m0, entries, |entries|)
    ensures pend in slots && pend < |m0| == |m|
  {
    hide LiveList, EntriesOk, Reachable, EntryCollected, RootTargets, Loc, PendingHead, Forwarding, ForwardRef;
    var i :| 0 <= i < |slots| && slots[i] == pend;
  }

  lemma LiveListed(env: Env, m0: seq<int>, blocks: set<int>, top: int, live: set<int>, entries: seq<int>, e: int)
    requires LiveList(env, m0, blocks, top, live, entries) && e in live
    ensures !IsMonitor(e) && exists k :: 0 <= k < |entries| && entries[k] == e
  {
    hide WellFormed;
    assert e in Elements(entries);
  }

  /** A strong slot of a live object holds a live object, or no heap object at all. */
  lemma StrongTargetLive(env: Env, m0: seq<int>, blocks: set<int>, top: int, slots: seq<nat>, pend: nat,
                         live: set<int>, entries: seq<int>, m: seq<int>, top': int, e: int, i: int)
    requires Collected(env, m0, blocks, top, slots, pend, live, entries, m, top')
    requires e in live && EntryOk(env, m0, e) && !IsMonitor(e) && 0 <= i < |Strong(env, m0, e)|
    ensures 2 <= Strong(env, m0, e)[i] < EntryWords(env, m0, e)
    ensures InHeap(env, Old(env, m0, e, Strong(env, m0, e)[i])) ==> Old(env, m0, e, Strong(env, m0, e)[i]) in live
  {
    hide WellFormed, Reachable, EntryCollected, OutsideCollected, PendingHead, Loc, EntriesOk;
    StrongSlotOk(env, m0, blocks, top, e, i);
    var v := Old(env, m0, e, Strong(env, m0, e)[i]);
    if InHeap(env, v) {
      assert Edge(env, m0, e, v);
      ReachableStep(env, m0, RootTargets(env, m0, slots), e, v);
    }
  }

  lemma RootTargetLive(env: Env, m0: seq<int>, blocks: set<int>, top: int, slots: seq<nat>, pend: nat,
                       live: set<int>, entries: seq<int>, m: seq<int>, top': int, a: nat)
    requires Collected(env, m0, blocks, top, slots, pend, live, entries, m, top') && a in slots
    ensures a < |m0| && (InHeap(env, m0[a]) ==> m0[a] in live)
  {
    hide WellFormed, Reachable, EntryCollected, OutsideCollected, PendingHead, Loc, EntriesOk, LiveList;
    var i :| 0 <= i < |slots| && slots[i] == a;
    if InHeap(env, m0[a]) {
      assert m0[a] in RootTargets(env, m0, slots);
      ReachableRoot(env, m0, RootTargets(env, m0, slots), m0[a]);
    }
  }

  /** A forwarded pointer into the heap points to a collected object. */
  lemma ForwardedOk(env: Env, fwd: map<int, nat>, live: set<int>, v: int)
    requires forall e :: e in fwd ==> InHeap(env, e)
    requires forall e :: e in fwd && !IsMonitor(e) <==> e in live
    requires InHeap(env, v) ==> v in live
    ensures SlotOk(env, NewBlocks(fwd), ForwardRef(fwd, v))
  {
    if v in fwd {
      assert NewEntry(fwd, v) in NewBlocks(fwd);
      assert ForwardRef(fwd, v) == NewEntry(fwd, v);
    }
  }

  lemma {:induction false} PendingHeadOk(env: Env, m0: seq<int>, fwd: map<int, nat>, entries: seq<int>, start: int, k: int)
    requires 0 <= k <= |entries| && EntriesOk(env, m0, entries)
    requires SlotOk(env, NewBlocks(fwd), start)
    ensures SlotOk(env, NewBlocks(fwd), PendingHead(env, m0, fwd, entries, start, k))
  {
    hide EntryOk;
    if k > 0 {
      PendingHeadOk(env, m0, fwd, entries, start, k - 1);
      var e := entries[k - 1];
      if IsEnqueued(env, m0, fwd, e) && e in fwd {
        assert NewEntry(fwd, e) in NewBlocks(fwd);
      }
    }
  }

  /** Unpacks a member of `NewBlocks`. */
  lemma NewBlockSource(fwd: map<int, nat>, f: int) returns (e: int)
    requires f in NewBlocks(fwd)
    ensures e in fwd && f == NewEntry(fwd, e)
  {
    e :| e in fwd && f == NewEntry(fwd, e);
  }

  // ---------- the heap stays well formed ----------

  lemma NewSlotOk(env: Env, m0: seq<int>, blocks: set<int>, top: int, slots: seq<nat>, pend: nat,
                  live: set<int>, entries: seq<int>, m: seq<int>, top': int, e: int, t: int)
    requires Collected(env, m0, blocks, top, slots, pend, live, entries, m, top')
    requires e in live && EntryOk(env, m0, e) && 0 <= t < EntryWords(env, m0, e) && !IsMonitor(e)
    requires t in Strong(env, m0, e) || Weak(env, m0, e, t)
    ensures e in Forwarding(env, m0, entries)
    ensures var fwd := Forwarding(env, m0, entries);
            fwd[e] + t < |m| && SlotOk(env, NewBlocks(fwd), m[fwd[e] + t])
  {
    hide Collected, WellFormed, Reachable, LiveList, EntriesOk, NewBlocks, PendingHead, IsEnqueued, BlockAt, InHeap, Forwarding;
    LiveFacts(env, m0, blocks, top, slots, pend, live, entries, m, top');
    var fwd := Forwarding(env, m0, entries);
    var k := CollectedBlock(env, m0, blocks, top, slots, pend, live, entries, m, top', e);
    RootTargetLive(env, m0, blocks, top, slots, pend, live, entries, m, top', pend);
    ForwardedOk(env, fwd, live, m0[pend]);
    PendingHeadOk(env, m0, fwd, entries, ForwardRef(fwd, m0[pend]), k);
    var head := PendingHead(env, m0, fwd, entries, ForwardRef(fwd, m0[pend]), k);
    BlockAtBounds(env, m0, fwd, e, head, m);
    ObjectWord(env, m0, fwd, e, head, m, t);
    if t in Strong(env, m0, e) {
      var i :| 0 <= i < |Strong(env, m0, e)| && Strong(env, m0, e)[i] == t;
      StrongTargetLive(env, m0, blocks, top, slots, pend, live, entries, m, top', e, i);
      ForwardedOk(env, fwd, live, Old(env, m0, e, t));
    } else {
      WeakTarget(env, m0, blocks, top, fwd, live, e, t);
    }
  }

  lemma BlockAtBounds(env: Env, m0: seq<int>, fwd: map<int, nat>, e: int, head: int, m: seq<int>)
    requires BlockAt(env, m0, fwd, e, head, m)
    ensures EntryOk(env, m0, e) && e in fwd && fwd[e] + EntryWords(env, m0, e) <= |m|
  {
  }

  lemma WeakTarget(env: Env, m0: seq<int>, blocks: set<int>, top: int, fwd: map<int, nat>, live: set<int>, e: int, t: int)
    requires WellFormed(env, m0, blocks, top) && e in blocks && EntryOk(env, m0, e) && !IsMonitor(e)
    requires 0 <= t < EntryWords(env, m0, e) && Weak(env, m0, e, t) && 0 < env.base
    requires forall f :: f in fwd ==> InHeap(env, f)
    ensures SlotOk(env, NewBlocks(fwd), ForwardWeak(fwd, Old(env, m0, e, t)))
  {
    hide WellFormed, EntryOk, ObjectAt, EntryWords;
    var v := Old(env, m0, e, t);
    if v in fwd {
      OldSlotOk(env, m0, blocks, top, e, t);
      assert NewEntry(fwd, v) in NewBlocks(fwd);
    }
  }

  lemma NewHeaderOk(env: Env, m0: seq<int>, blocks: set<int>, top: int, slots: seq<nat>, pend: nat,
                    live: set<int>, entries: seq<int>, m: seq<int>, top': int, e: int)
    requires Collected(env, m0, blocks, top, slots, pend, live, entries, m, top') && e in Forwarding(env, m0, entries)
    ensures var fwd := Forwarding(env, m0, entries);
            EntryOk(env, m, NewEntry(fwd, e)) && HeaderOk(env, m, NewBlocks(fwd), NewEntry(fwd, e))
    ensures var fwd := Forwarding(env, m0, entries);
            EntryOk(env, m0, e) && fwd[e] < |m| && 0 <= At(e) < |m0| &&
            (!IsMonitor(e) ==> m[fwd[e]] == ForwardHeader(fwd, m0[At(e)]) && (!IsMarkWord(m0[At(e)]) ==> m0[At(e)] + 1 in fwd))
  {
    hide Collected, WellFormed, Reachable, LiveList, EntriesOk, NewBlocks, PendingHead, IsEnqueued, InHeap, Forwarding, BlockAt, NewBlock,
      ObjectAt, EntryWords, NewWord, BlockOf;
    LiveFacts(env, m0, blocks, top, slots, pend, live, entries, m, top');
    var fwd := Forwarding(env, m0, entries);
    var k := CollectedBlock(env, m0, blocks, top, slots, pend, live, entries, m, top', e);
    var head := PendingHead(env, m0, fwd, entries, ForwardRef(fwd, m0[pend]), k);
    BlockAtBounds(env, m0, fwd, e, head, m);
    WordsBound(env, m0, e);
    BlockShape(env, m0, fwd, e, head, m);
    OldHeader(env, m0, blocks, top, e);
    if IsMonitor(e) {
      BlockWord(env, m0, fwd, e, head, m, 1);
    } else {
      ObjectWord(env, m0, fwd, e, head, m, 0);
      if !IsMarkWord(m0[At(e)]) {
        var mon := m0[At(e)] + 1;
        assert mon in fwd by {
          assert LiveList(env, m0, blocks, top, live, entries) by {
            CollectedList(env, m0, blocks, top, slots, pend, live, entries, m, top');
          }
          MonitorForwarded(env, m0, blocks, top, live, entries, k);
        }
        FwdOrder(env, m0, entries, e, mon);
        NewMonitorAbove(env, m0, fwd, e, mon);
      }
    }
  }

  lemma NewMonitorAbove(env: Env, m0: seq<int>, fwd: map<int, nat>, e: int, mon: int)
    requires e in fwd && mon in fwd && IsMonitor(mon) && !IsMonitor(e) && EntryOk(env, m0, e)
    requires fwd[e] + EntryWords(env, m0, e) <= fwd[mon]
    ensures 8 * fwd[mon] + 1 in NewBlocks(fwd) && NewEntry(fwd, e) < 8 * fwd[mon]
  {
    WordsBound(env, m0, e);
    assert NewEntry(fwd, mon) in NewBlocks(fwd);
  }

  lemma CollectedList(env: Env, m0: seq<int>, blocks: set<int>, top: int, slots: seq<nat>, pend: nat,
                      live: set<int>, entries: seq<int>, m: seq<int>, top': int)
    requires Collected(env, m0, blocks, top, slots, pend, live, entries, m, top')
    ensures LiveList(env, m0, blocks, top, live, entries)
  {
  }

  lemma OldHeader(env: Env, m0: seq<int>, blocks: set<int>, top: int, e: int)
    requires WellFormed(env, m0, blocks, top) && e in blocks
    ensures EntryOk(env, m0, e) && HeaderOk(env, m0, blocks, e)
  {
  }

  /** Moving keeps monitors private to their objects. */
  lemma NewMonitorsPrivate(env: Env, m0: seq<int>, blocks: set<int>, top: int, slots: seq<nat>, pend: nat,
                           live: set<int>, entries: seq<int>, m: seq<int>, top': int, e: int, f: int)
    requires Collected(env, m0, blocks, top, slots, pend, live, entries, m, top')
    requires e in Forwarding(env, m0, entries) && f in Forwarding(env, m0, entries)
    requires var fwd := Forwarding(env, m0, entries);
             EntryOk(env, m, NewEntry(fwd, e)) && EntryOk(env, m, NewEntry(fwd, f))
                 && SharesMonitor(env, m, NewEntry(fwd, e), NewEntry(fwd, f))
    ensures e == f
  {
    hide Collected, WellFormed, Reachable, LiveList, EntriesOk, NewBlocks, PendingHead, InHeap, Forwarding, ObjectAt, EntryOk, HeaderOk;
    LiveFacts(env, m0, blocks, top, slots, pend, live, entries, m, top');
    NewHeaderOk(env, m0, blocks, top, slots, pend, live, entries, m, top', e);
    NewHeaderOk(env, m0, blocks, top, slots, pend, live, entries, m, top', f);
    var fwd := Forwarding(env, m0, entries);
    var x, y := m0[At(e)], m0[At(f)];
    assert !IsMarkWord(x) && !IsMarkWord(y) by { EvenHeaders(fwd, x); EvenHeaders(fwd, y); }
    if x + 1 < y + 1 { FwdOrder(env, m0, entries, x + 1, y + 1); WordsBound(env, m0, x + 1); }
    if y + 1 < x + 1 { FwdOrder(env, m0, entries, y + 1, x + 1); WordsBound(env, m0, y + 1); }
    OldPrivate(env, m0, blocks, top, e, f);
  }

  lemma EvenHeaders(fwd: map<int, nat>, h: int)
    ensures IsMarkWord(ForwardHeader(fwd, h)) <==> IsMarkWord(h)
  {
  }

  lemma OldPrivate(env: Env, m0: seq<int>, blocks: set<int>, top: int, e: int, f: int)
    requires WellFormed(env, m0, blocks, top) && e in blocks && f in blocks && !IsMonitor(e) && !IsMonitor(f)
    requires 0 <= At(e) < |m0| && 0 <= At(f) < |m0| && !IsMarkWord(m0[At(e)]) && m0[At(e)] == m0[At(f)]
    ensures e == f
  {
    assert SharesMonitor(env, m0, e, f);
  }

  /** A collection leaves a well-formed heap whose blocks are the moved live blocks; in particular every
      monitor still lies above its object. */
  lemma CollectionWellFormed(env: Env, m0: seq<int>, blocks: set<int>, top: int, slots: seq<nat>, pend: nat,
                             live: set<int>, entries: seq<int>, m: seq<int>, top': int)
    requires Collected(env, m0, blocks, top, slots, pend, live, entries, m, top')
    ensures EntriesOk(env, m0, entries) && StrictlySorted(entries)
    ensures WellFormed(env, m, NewBlocks(Forwarding(env, m0, entries)), top')
    ensures SlotsDistinct(env, m, slots) && RootSlotsOk(env, m, NewBlocks(Forwarding(env, m0, entries)), slots)
  {
    hide Collected, WellFormed, Reachable, LiveList, EntriesOk, NewBlocks, PendingHead, InHeap, Forwarding, SlotOk;
    LiveFacts(env, m0, blocks, top, slots, pend, live, entries, m, top');
    NewPlaced(env, m0, blocks, top, slots, pend, live, entries, m, top');
    NewHeaders(env, m0, blocks, top, slots, pend, live, entries, m, top');
    NewSlots(env, m0, blocks, top, slots, pend, live, entries, m, top');
    NewRoots(env, m0, blocks, top, slots, pend, live, entries, m, top');
    JoinWellFormed(env, m, NewBlocks(Forwarding(env, m0, entries)), top');
  }

  lemma JoinWellFormed(env: Env, m: seq<int>, blocks: set<int>, top: int)
    requires Placed(env, m, blocks, top) && HeadersOk(env, m, blocks) && SlotsOk(env, m, blocks)
    ensures WellFormed(env, m, blocks, top)
  {
  }

  lemma NewPlaced(env: Env, m0: seq<int>, blocks: set<int>, top: int, slots: seq<nat>, pend: nat,
                  live: set<int>, entries: seq<int>, m: seq<int>, top': int)
    requires Collected(env, m0, blocks, top, slots, pend, live, entries, m, top')
    ensures EntriesOk(env, m0, entries) && StrictlySorted(entries)
    ensures Placed(env, m, NewBlocks(Forwarding(env, m0, entries)), top')
  {
    hide Collected, WellFormed, Reachable, LiveList, NewBlocks, PendingHead, InHeap, Forwarding, EntryOk, EntryWords, BlockAt, EntriesOk,
      StrictlySorted;
    LiveFacts(env, m0, blocks, top, slots, pend, live, entries, m, top');
    var fwd := Forwarding(env, m0, entries);
    forall f | f in NewBlocks(fwd)
      ensures EntryOk(env, m, f) && At(f) + EntryWords(env, m, f) <= top'
    {
      var e := NewBlockSource(fwd, f);
      var k := CollectedBlock(env, m0, blocks, top, slots, pend, live, entries, m, top', e);
      BlockShape(env, m0, fwd, e, PendingHead(env, m0, fwd, entries, ForwardRef(fwd, m0[pend]), k), m);
      FwdBounds(env, m0, entries, e);
      CollectedTop(env, m0, blocks, top, slots, pend, live, entries, m, top');
    }
    forall f, g | f in NewBlocks(fwd) && g in NewBlocks(fwd) && f < g
      ensures At(f) + EntryWords(env, m, f) <= At(g)
    {
      var e := NewBlockSource(fwd, f);
      var d := NewBlockSource(fwd, g);
      var k := CollectedBlock(env, m0, blocks, top, slots, pend, live, entries, m, top', e);
      BlockShape(env, m0, fwd, e, PendingHead(env, m0, fwd, entries, ForwardRef(fwd, m0[pend]), k), m);
      k := CollectedBlock(env, m0, blocks, top, slots, pend, live, entries, m, top', d);
      BlockShape(env, m0, fwd, d, PendingHead(env, m0, fwd, entries, ForwardRef(fwd, m0[pend]), k), m);
      if e < d {
        FwdOrder(env, m0, entries, e, d);
      } else if d < e {
        FwdOrder(env, m0, entries, d, e);
        FwdBounds(env, m0, entries, d);
      }
    }
  }

  lemma CollectedTop(env: Env, m0: seq<int>, blocks: set<int>, top: int, slots: seq<nat>, pend: nat,
                     live: set<int>, entries: seq<int>, m: seq<int>, top': int)
    requires Collected(env, m0, blocks, top, slots, pend, live, entries, m, top')
    ensures EntriesOk(env, m0, entries) && top' == Loc(env, m0, entries, |entries|)
  {
  }

  lemma NewHeaders(env: Env, m0: seq<int>, blocks: set<int>, top: int, slots: seq<nat>, pend: nat,
                   live: set<int>, entries: seq<int>, m: seq<int>, top': int)
    requires Collected(env, m0, blocks, top, slots, pend, live, entries, m, top')
    requires EntriesOk(env, m0, entries) && StrictlySorted(entries)
    requires forall f :: f in NewBlocks(Forwarding(env, m0, entries)) ==> EntryOk(env, m, f)
    ensures HeadersOk(env, m, NewBlocks(Forwarding(env, m0, entries)))
  {
    hide Collected, WellFormed, Reachable, LiveList, NewBlocks, Forwarding, EntryOk, EntriesOk, StrictlySorted, HeaderOk, SharesMonitor;
    var fwd := Forwarding(env, m0, entries);
    forall f | f in NewBlocks(fwd) ensures HeaderOk(env, m, NewBlocks(fwd), f) {
      var e := NewBlockSource(fwd, f);
      NewHeaderOk(env, m0, blocks, top, slots, pend, live, entries, m, top', e);
    }
    forall f, g | f in NewBlocks(fwd) && g in NewBlocks(fwd) && SharesMonitor(env, m, f, g) ensures f == g {
      var e := NewBlockSource(fwd, f);
      var d := NewBlockSource(fwd, g);
      NewMonitorsPrivate(env, m0, blocks, top, slots, pend, live, entries, m, top', e, d);
    }
  }

  lemma NewSlots(env: Env, m0: seq<int>, blocks: set<int>, top: int, slots: seq<nat>, pend: nat,
                 live: set<int>, entries: seq<int>, m: seq<int>, top': int)
    requires Collected(env, m0, blocks, top, slots, pend, live, entries, m, top')
    requires EntriesOk(env, m0, entries) && StrictlySorted(entries)
    requires forall f :: f in NewBlocks(Forwarding(env, m0, entries)) ==> EntryOk(env, m, f)
    requires env.limit <= |m|
    ensures SlotsOk(env, m, NewBlocks(Forwarding(env, m0, entries)))
  {
    hide Collected, WellFormed, Reachable, LiveList, NewBlocks, Forwarding, EntriesOk, StrictlySorted, SlotOk, BlockAt,
         PendingHead, EntryWords,
      EntryOk;
    LiveFacts(env, m0, blocks, top, slots, pend, live, entries, m, top');
    var fwd := Forwarding(env, m0, entries);
    forall f, t | f in NewBlocks(fwd) && !IsMonitor(f) && 0 <= t < EntryWords(env, m, f) && (t in Strong(env, m, f) || Weak(env, m, f, t))
      ensures 0 <= At(f) && At(f) + t < |m| && SlotOk(env, NewBlocks(fwd), m[At(f) + t])
    {
      var e := NewBlockSource(fwd, f);
      var k := CollectedBlock(env, m0, blocks, top, slots, pend, live, entries, m, top', e);
      var head := PendingHead(env, m0, fwd, entries, ForwardRef(fwd, m0[pend]), k);
      BlockAtBounds(env, m0, fwd, e, head, m);
      BlockShape(env, m0, fwd, e, head, m);
      NewSlotOk(env, m0, blocks, top, slots, pend, live, entries, m, top', e, t);
    }
  }

  lemma NewRoots(env: Env, m0: seq<int>, blocks: set<int>, top: int, slots: seq<nat>, pend: nat,
                 live: set<int>, entries: seq<int>, m: seq<int>, top': int)
    requires Collected(env, m0, blocks, top, slots, pend, live, entries, m, top')
    ensures EntriesOk(env, m0, entries) && StrictlySorted(entries)
    ensures SlotsDistinct(env, m, slots) && RootSlotsOk(env, m, NewBlocks(Forwarding(env, m0, entries)), slots)
  {
    hide WellFormed, Reachable, LiveList, NewBlocks, Forwarding, EntriesOk, StrictlySorted, SlotOk, PendingHead, EntryCollected, Loc;
    LiveFacts(env, m0, blocks, top, slots, pend, live, entries, m, top');
    var fwd := Forwarding(env, m0, entries);
    RootTargetLive(env, m0, blocks, top, slots, pend, live, entries, m, top', pend);
    ForwardedOk(env, fwd, live, m0[pend]);
    forall i | 0 <= i < |slots| ensures SlotOk(env, NewBlocks(fwd), m[slots[i]]) {
      RootTargetLive(env, m0, blocks, top, slots, pend, live, entries, m, top', slots[i]);
      ForwardedOk(env, fwd, live, m0[slots[i]]);
      PendingHeadOk(env, m0, fwd, entries, ForwardRef(fwd, m0[pend]), |entries|);
    }
  }

  // ---------- the object graph survives ----------

  /** Object `f` of `m` has the class, size and strong slots of object `e` of `m0`. */
  ghost predicate SameObjectShape(env: Env, m0: seq<int>, e: int, m: seq<int>, f: int) {
    && EntryOk(env, m0, e) && !IsMonitor(e) && EntryOk(env, m, f) && !IsMonitor(f)
    && EntryWords(env, m, f) == EntryWords(env, m0, e) && Strong(env, m, f) == Strong(env, m0, e)
    && ClassOf(env, m, At(f)) == ClassOf(env, m0, At(e)) && Length(env, m, At(f)) == Length(env, m0, At(e))
  }

  /** A live object keeps its class, length, size and slots. */
  lemma ShapeKept(env: Env, m0: seq<int>, blocks: set<int>, top: int, slots: seq<nat>, pend: nat,
                  live: set<int>, entries: seq<int>, m: seq<int>, top': int, e: int)
    requires Collected(env, m0, blocks, top, slots, pend, live, entries, m, top') && e in live
    ensures EntriesOk(env, m0, entries) && StrictlySorted(entries) && e in Forwarding(env, m0, entries)
    ensures var fwd := Forwarding(env, m0, entries);
            SameObjectShape(env, m0, e, m, NewEntry(fwd, e)) && At(NewEntry(fwd, e)) == fwd[e]
  {
    hide Collected, WellFormed, Reachable, LiveList, EntriesOk, NewBlocks, PendingHead, BlockAt, InHeap, Forwarding, StrictlySorted,
      NewEntry, At;
    LiveFacts(env, m0, blocks, top, slots, pend, live, entries, m, top');
    var fwd := Forwarding(env, m0, entries);
    var k := CollectedBlock(env, m0, blocks, top, slots, pend, live, entries, m, top', e);
    var head := PendingHead(env, m0, fwd, entries, ForwardRef(fwd, m0[pend]), k);
    BlockAtBounds(env, m0, fwd, e, head, m);
    BlockShape(env, m0, fwd, e, head, m);
  }

  /** Old and new value of word `t` of a live object. */
  lemma WordForwarded(env: Env, m0: seq<int>, blocks: set<int>, top: int, slots: seq<nat>, pend: nat,
                      live: set<int>, entries: seq<int>, m: seq<int>, top': int, fwd: map<int, nat>, e: int, t: int)
    requires Collected(env, m0, blocks, top, slots, pend, live, entries, m, top') && e in live
    requires EntriesOk(env, m0, entries) && StrictlySorted(entries) && fwd == Forwarding(env, m0, entries) && e in fwd
    requires EntryOk(env, m0, e) && !IsMonitor(e) && 0 < t < EntryWords(env, m0, e)
    ensures fwd[e] + t < |m|
    ensures t in Strong(env, m0, e) && !(t == DISCOVERED && IsEnqueued(env, m0, fwd, e)) ==>
              m[fwd[e] + t] == ForwardRef(fwd, Old(env, m0, e, t))
    ensures t !in Strong(env, m0, e) && !Weak(env, m0, e, t) ==> m[fwd[e] + t] == Old(env, m0, e, t)
    ensures Weak(env, m0, e, t) ==> m[fwd[e] + t] == ForwardWeak(fwd, Old(env, m0, e, t))
  {
    hide Collected, WellFormed, Reachable, LiveList, EntriesOk, NewBlocks, PendingHead, IsEnqueued, BlockAt, InHeap, Forwarding;
    LiveFacts(env, m0, blocks, top, slots, pend, live, entries, m, top');
    var k := CollectedBlock(env, m0, blocks, top, slots, pend, live, entries, m, top', e);
    var head := PendingHead(env, m0, fwd, entries, ForwardRef(fwd, m0[pend]), k);
    BlockAtBounds(env, m0, fwd, e, head, m);
    ObjectWord(env, m0, fwd, e, head, m, t);
  }

  /** No strong edge between live objects is lost by a collection. */
  lemma EdgeKept(env: Env, m0: seq<int>, blocks: set<int>, top: int, slots: seq<nat>, pend: nat,
                 live: set<int>, entries: seq<int>, m: seq<int>, top': int, x: int, y: int)
    requires Collected(env, m0, blocks, top, slots, pend, live, entries, m, top') && x in live && Edge(env, m0, x, y)
    ensures EntriesOk(env, m0, entries) && StrictlySorted(entries)
    ensures var fwd := Forwarding(env, m0, entries);
            x in fwd && y in live && y in fwd && Edge(env, m, NewEntry(fwd, x), NewEntry(fwd, y))
  {
    hide Collected, WellFormed, Reachable, LiveList, EntriesOk, NewBlocks, PendingHead, BlockAt, Forwarding, StrictlySorted,
         ObjectAt, Words,
      StrongSlots, SlotOk, ClassOf, Length;
    LiveFacts(env, m0, blocks, top, slots, pend, live, entries, m, top');
    var fwd := Forwarding(env, m0, entries);
    var i :| 0 <= i < |Strong(env, m0, x)| && At(x) + Strong(env, m0, x)[i] < |m0| && m0[At(x) + Strong(env, m0, x)[i]] == y;
    StrongTargetLive(env, m0, blocks, top, slots, pend, live, entries, m, top', x, i);
    var t := Strong(env, m0, x)[i];
    ShapeKept(env, m0, blocks, top, slots, pend, live, entries, m, top', x);
    WordForwarded(env, m0, blocks, top, slots, pend, live, entries, m, top', fwd, x, t);
    assert t in Strong(env, m0, x) && y != 0;
    EnqueuedMeans(env, m0, fwd, x);
    FwdBounds(env, m0, entries, y);
    CollectedTop(env, m0, blocks, top, slots, pend, live, entries, m, top');
    assert InHeap(env, NewEntry(fwd, y));
    assert m[fwd[x] + Strong(env, m, NewEntry(fwd, x))[i]] == NewEntry(fwd, y);
  }

  /** A collection makes up no strong edge, except the link that puts a cleared Reference on the pending list. */
  lemma EdgeFromOld(env: Env, m0: seq<int>, blocks: set<int>, top: int, slots: seq<nat>, pend: nat,
                    live: set<int>, entries: seq<int>, m: seq<int>, top': int, x: int, z: int) returns (y: int)
    requires Collected(env, m0, blocks, top, slots, pend, live, entries, m, top') && x in live
    requires EntriesOk(env, m0, entries) && StrictlySorted(entries) && x in Forwarding(env, m0, entries)
    requires Edge(env, m, NewEntry(Forwarding(env, m0, entries), x), z)
    ensures EntryOk(env, m0, x)
    ensures var fwd := Forwarding(env, m0, entries);
            || (y in live && y in fwd && z == NewEntry(fwd, y) && Edge(env, m0, x, y))
            || (IsEnqueued(env, m0, fwd, x) && fwd[x] + DISCOVERED < |m| && z == m[fwd[x] + DISCOVERED])
  {
    hide Collected, WellFormed, Reachable, LiveList, EntriesOk, NewBlocks, PendingHead, BlockAt, Forwarding, StrictlySorted, NewEntry,
         At, InHeap, IsEnqueued, IsMonitor, StrongSlots, Words, ClassOk;
    LiveFacts(env, m0, blocks, top, slots, pend, live, entries, m, top');
    var fwd := Forwarding(env, m0, entries);
    ShapeKept(env, m0, blocks, top, slots, pend, live, entries, m, top', x);
    var x' := NewEntry(fwd, x);
    var i :| 0 <= i < |Strong(env, m, x')| && At(x') + Strong(env, m, x')[i] < |m| && m[At(x') + Strong(env, m, x')[i]] == z;
    StrongTargetLive(env, m0, blocks, top, slots, pend, live, entries, m, top', x, i);
    var t := Strong(env, m0, x)[i];
    assert t in Strong(env, m0, x);
    WordForwarded(env, m0, blocks, top, slots, pend, live, entries, m, top', fwd, x, t);
    y := Old(env, m0, x, t);
    if !(t == DISCOVERED && IsEnqueued(env, m0, fwd, x)) {
      assert z == ForwardRef(fwd, y);
      NewEntryPlain(fwd, y);
      WordsBound(env, m0, x);
      assert Edge(env, m0, x, y);
    }
  }

  /** Every root slot but the pending-list head holds the forwarded target; distinct objects stay distinct. */
  lemma RootsForwarded(env: Env, m0: seq<int>, blocks: set<int>, top: int, slots: seq<nat>, pend: nat,
                       live: set<int>, entries: seq<int>, m: seq<int>, top': int)
    requires Collected(env, m0, blocks, top, slots, pend, live, entries, m, top')
    ensures EntriesOk(env, m0, entries) && StrictlySorted(entries)
    ensures var fwd := Forwarding(env, m0, entries);
            && (forall a :: a in slots && a != pend ==> a < |m| == |m0| && m[a] == ForwardRef(fwd, m0[a]))
            && (forall e, f :: e in fwd && f in fwd && e < f ==> NewEntry(fwd, e) < NewEntry(fwd, f))
  {
    hide WellFormed, Reachable, LiveList, EntriesOk, PendingHead, Forwarding, StrictlySorted, Loc, EntryCollected;
    LiveFacts(env, m0, blocks, top, slots, pend, live, entries, m, top');
    var fwd := Forwarding(env, m0, entries);
    forall a | a in slots && a != pend ensures a < |m| && m[a] == ForwardRef(fwd, m0[a]) {
      var i :| 0 <= i < |slots| && slots[i] == a;
    }
    forall e, f | e in fwd && f in fwd && e < f ensures NewEntry(fwd, e) < NewEntry(fwd, f) {
      FwdOrder(env, m0, entries, e, f);
      FwdBounds(env, m0, entries, e);
    }
  }

  // ---------- the whole graph ----------

  /** `z` is the link that puts the cleared Reference `x` on the pending list. */
  ghost predicate PendingLink(env: Env, m0: seq<int>, m: seq<int>, fwd: map<int, nat>, x: int, z: int) {
    x in fwd && EntryOk(env, m0, x) && !IsMonitor(x) && IsEnqueued(env, m0, fwd, x) && fwd[x] + DISCOVERED < |m|
        && z == m[fwd[x] + DISCOVERED]
  }

  /** Strong edges from `x` correspond one to one, except for the link of the pending list. */
  ghost predicate EdgesCorrespond(env: Env, m0: seq<int>, live: set<int>, m: seq<int>, fwd: map<int, nat>, x: int)
    requires x in fwd
  {
    && (forall y :: Edge(env, m0, x, y) ==> y in live && y in fwd && Edge(env, m, NewEntry(fwd, x), NewEntry(fwd, y)))
    && (forall z :: Edge(env, m, NewEntry(fwd, x), z) ==>
          PendingLink(env, m0, m, fwd, x, z) || exists y :: y in live && y in fwd && z == NewEntry(fwd, y) && Edge(env, m0, x, y))
  }

  /** Forwarding is an isomorphism from the live part of `m0` onto the objects of `m`. */
  ghost predicate Isomorphic(env: Env, m0: seq<int>, slots: seq<nat>, pend: nat, live: set<int>, m: seq<int>, fwd: map<int, nat>) {
    && (forall e :: e in live ==> e in fwd && SameObjectShape(env, m0, e, m, NewEntry(fwd, e)) && EdgesCorrespond(env, m0, live, m, fwd, e))
    && (forall e, f :: e in live && f in live && e in fwd && f in fwd && NewEntry(fwd, e) == NewEntry(fwd, f) ==> e == f)
    && (forall f :: f in NewBlocks(fwd) && !IsMonitor(f) ==> exists e :: e in live && e in fwd && f == NewEntry(fwd, e))
    && (forall a :: a in slots && a != pend ==> a < |m| == |m0| && m[a] == ForwardRef(fwd, m0[a]))
  }

  /** The collected heap is isomorphic to the reachable part of the old one. */
  lemma HeapIsomorphic(env: Env, m0: seq<int>, blocks: set<int>, top: int, slots: seq<nat>, pend: nat,
                       live: set<int>, entries: seq<int>, m: seq<int>, top': int)
    requires Collected(env, m0, blocks, top, slots, pend, live, entries, m, top')
    ensures EntriesOk(env, m0, entries) && StrictlySorted(entries)
            && Isomorphic(env, m0, slots, pend, live, m, Forwarding(env, m0, entries))
  {
    hide Collected, WellFormed, EntriesOk, StrictlySorted, Forwarding, NewBlocks, NewEntry, SameObjectShape, EdgesCorrespond, IsMonitor;
    RootsForwarded(env, m0, blocks, top, slots, pend, live, entries, m, top');
    LiveFacts(env, m0, blocks, top, slots, pend, live, entries, m, top');
    var fwd := Forwarding(env, m0, entries);
    forall e | e in live ensures SameObjectShape(env, m0, e, m, NewEntry(fwd, e)) && EdgesCorrespond(env, m0, live, m, fwd, e) {
      ShapeKept(env, m0, blocks, top, slots, pend, live, entries, m, top', e);
      EdgesOf(env, m0, blocks, top, slots, pend, live, entries, m, top', fwd, e);
    }
    forall f | f in NewBlocks(fwd) && !IsMonitor(f) ensures exists e :: e in live && e in fwd && f == NewEntry(fwd, e) {
      var e := NewBlockSource(fwd, f);
      NewEntryTag(fwd, e);
    }
  }

  lemma EdgesOf(env: Env, m0: seq<int>, blocks: set<int>, top: int, slots: seq<nat>, pend: nat,
                live: set<int>, entries: seq<int>, m: seq<int>, top': int, fwd: map<int, nat>, x: int)
    requires Collected(env, m0, blocks, top, slots, pend, live, entries, m, top') && x in live
    requires EntriesOk(env, m0, entries) && StrictlySorted(entries) && fwd == Forwarding(env, m0, entries) && x in fwd
    ensures EdgesCorrespond(env, m0, live, m, fwd, x)
  {
    hide Collected, WellFormed, EntriesOk, StrictlySorted, Forwarding, NewEntry, Edge, IsMonitor, EntryOk, IsEnqueued;
    forall y | Edge(env, m0, x, y) ensures y in live && y in fwd && Edge(env, m, NewEntry(fwd, x), NewEntry(fwd, y)) {
      EdgeKept(env, m0, blocks, top, slots, pend, live, entries, m, top', x, y);
    }
    assert !IsMonitor(x) by { LiveFacts(env, m0, blocks, top, slots, pend, live, entries, m, top'); }
    forall z | Edge(env, m, NewEntry(fwd, x), z)
      ensures PendingLink(env, m0, m, fwd, x, z) || exists y :: y in live && y in fwd && z == NewEntry(fwd, y) && Edge(env, m0, x, y)
    {
      var y := EdgeFromOld(env, m0, blocks, top, slots, pend, live, entries, m, top', x, z);
    }
  }

  // ---------- mark words and identity hashes ----------

  const HASH_UNIT := 0x1_0000_0000

  /** The identity hash is the upper half of the mark word; zero means not yet computed. */
  function HashOf(m: seq<int>, e: int): int
    requires 0 <= At(e) < |m| && 0 <= MarkAddr(m, e) < |m|
  {
    m[MarkAddr(m, e)] / HASH_UNIT
  }

  /** A collection keeps the mark word, and with it the hash, of every live object. */
  lemma MarkWordKept(env: Env, m0: seq<int>, blocks: set<int>, top: int, slots: seq<nat>, pend: nat,
                     live: set<int>, entries: seq<int>, m: seq<int>, top': int, e: int)
    requires Collected(env, m0, blocks, top, slots, pend, live, entries, m, top') && e in live
    ensures EntriesOk(env, m0, entries) && StrictlySorted(entries) && e in Forwarding(env, m0, entries)
    ensures var f := NewEntry(Forwarding(env, m0, entries), e);
            && 0 <= At(e) < |m0| && 0 <= MarkAddr(m0, e) < |m0|
            && 0 <= At(f) < |m| && 0 <= MarkAddr(m, f) < |m|
            && m[MarkAddr(m, f)] == m0[MarkAddr(m0, e)]
            && HashOf(m, f) == HashOf(m0, e)
  {
    hide Collected, WellFormed, Reachable, LiveList, EntriesOk, PendingHead, Forwarding, StrictlySorted, BlockAt, EntryOk, HeaderOk, InHeap;
    LiveFacts(env, m0, blocks, top, slots, pend, live, entries, m, top');
    var fwd := Forwarding(env, m0, entries);
    NewHeaderOk(env, m0, blocks, top, slots, pend, live, entries, m, top', e);
    MarkAddrWhere(env, m0, blocks, top, e);
    if !IsMarkWord(m0[At(e)]) {
      var mon := m0[At(e)] + 1;
      var k := CollectedBlock(env, m0, blocks, top, slots, pend, live, entries, m, top', mon);
      var head := PendingHead(env, m0, fwd, entries, ForwardRef(fwd, m0[pend]), k);
      BlockAtBounds(env, m0, fwd, mon, head, m);
      WordsBound(env, m0, mon);
      BlockWord(env, m0, fwd, mon, head, m, 1);
    }
  }
}
