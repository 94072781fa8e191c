/** java.lang.ref.Reference: clearing of dead referents, and the list of references pending for Java code. */
module PendingReferences {
  import opened Memory
  import opened Mark
  import opened PointerSort
  import opened Slide
  import opened Relocate
  import opened Collector
  import opened HeapGraph

  ghost predicate IsReference(env: Env, m: seq<int>, blocks: set<int>, e: int) {
    && e in blocks && EntryOk(env, m, e) && !IsMonitor(e)
    && ClassOf(env, m, At(e)).Ordinary? && ClassOf(env, m, At(e)).isReference
  }

  lemma ReferenceSlots(env: Env, m: seq<int>, blocks: set<int>, e: int)
    requires IsReference(env, m, blocks, e)
    ensures 0 <= At(e) && DISCOVERED < EntryWords(env, m, e) && At(e) + EntryWords(env, m, e) <= |m|
    ensures DISCOVERED in Strong(env, m, e) && Weak(env, m, e, REFERENT)
  {
    WordsBound(env, m, e);
    StrongSlotFacts(ClassOf(env, m, At(e)), Length(env, m, At(e)));
    var c := ClassOf(env, m, At(e));
    var i :| 0 <= i < |c.refs| && c.refs[i] == DISCOVERED;
  }

  ghost function Referent(env: Env, m: seq<int>, blocks: set<int>, e: int): int
    requires IsReference(env, m, blocks, e)
  {
    ReferenceSlots(env, m, blocks, e);
    m[At(e) + REFERENT]
  }

  ghost function Discovered(env: Env, m: seq<int>, blocks: set<int>, e: int): int
    requires IsReference(env, m, blocks, e)
  {
    ReferenceSlots(env, m, blocks, e);
    m[At(e) + DISCOVERED]
  }

  /** Starting from `head` the `discovered` links run through exactly `list`, which ends in null, has no
      duplicates, and holds only references whose referent is null. */
  ghost predicate Chain(env: Env, m: seq<int>, blocks: set<int>, head: int, list: seq<int>)
    decreases |list|
  {
    if list == [] then head == 0 else
      && head == list[0] && list[0] !in list[1..]
      && IsReference(env, m, blocks, head) && Referent(env, m, blocks, head) == 0
      && Chain(env, m, blocks, Discovered(env, m, blocks, head), list[1..])
  }

  lemma {:induction false} ChainMember(env: Env, m: seq<int>, blocks: set<int>, head: int, list: seq<int>, x: int)
    requires Chain(env, m, blocks, head, list) && x in list
    ensures IsReference(env, m, blocks, x) && Referent(env, m, blocks, x) == 0
    decreases |list|
  {
    hide IsReference, Referent;
    if x != list[0] {
      assert x in list[1..];
      ChainMember(env, m, blocks, Discovered(env, m, blocks, head), list[1..], x);
    }
  }

  // ---------- one reference ----------

  /** After a collection the referent of a live Reference is the forwarded old one if that is live, else null. */
  lemma ReferentAfter(env: Env, m0: seq<int>, blocks: set<int>, top: int, slots: seq<nat>, pend: nat,
                      live: set<int>, entries: seq<int>, m: seq<int>, top': int, fwd: map<int, nat>, e: int)
    requires Collected(env, m0, blocks, top, slots, pend, live, entries, m, top') && e in live
    requires EntriesOk(env, m0, entries) && StrictlySorted(entries) && fwd == Forwarding(env, m0, entries)
    requires IsReference(env, m0, blocks, e)
    ensures e in fwd && IsReference(env, m, NewBlocks(fwd), NewEntry(fwd, e))
    ensures var v := Referent(env, m0, blocks, e);
            Referent(env, m, NewBlocks(fwd), NewEntry(fwd, e)) == if v in live then ForwardRef(fwd, v) else 0
    ensures !IsEnqueued(env, m0, fwd, e) ==>
              Discovered(env, m, NewBlocks(fwd), NewEntry(fwd, e)) == ForwardRef(fwd, Discovered(env, m0, blocks, e))
    ensures IsEnqueued(env, m0, fwd, e) <==>
              Referent(env, m0, blocks, e) != 0 && Referent(env, m0, blocks, e) !in live && Discovered(env, m0, blocks, e) == 0
  {
    hide Collected, WellFormed, Reachable, LiveList, EntriesOk, StrictlySorted, Forwarding, InHeap, ObjectAt, Words, StrongSlots;
    LiveFacts(env, m0, blocks, top, slots, pend, live, entries, m, top');
    ShapeKept(env, m0, blocks, top, slots, pend, live, entries, m, top', e);
    assert NewEntry(fwd, e) in NewBlocks(fwd);
    ReferenceSlots(env, m0, blocks, e);
    ReferenceSlots(env, m, NewBlocks(fwd), NewEntry(fwd, e));
    WordForwarded(env, m0, blocks, top, slots, pend, live, entries, m, top', fwd, e, REFERENT);
    WordForwarded(env, m0, blocks, top, slots, pend, live, entries, m, top', fwd, e, DISCOVERED);
    EnqueuedMeans(env, m0, fwd, e);
    ReferentKind(env, m0, blocks, top, e);
    assert Referent(env, m0, blocks, e) in fwd <==> Referent(env, m0, blocks, e) in live;
  }

  lemma ReferentKind(env: Env, m0: seq<int>, blocks: set<int>, top: int, e: int)
    requires WellFormed(env, m0, blocks, top) && IsReference(env, m0, blocks, e)
    ensures Referent(env, m0, blocks, e) in blocks ==> !IsMonitor(Referent(env, m0, blocks, e))
  {
    ReferenceSlots(env, m0, blocks, e);
    var v := Referent(env, m0, blocks, e);
    assert SlotOk(env, blocks, m0[At(e) + REFERENT]);
    if v in blocks { BlockOk(env, m0, blocks, top, v); }
  }

  // ---------- the list ----------

  ghost function ForwardList(fwd: map<int, nat>, list: seq<int>): seq<int> {
    seq(|list|, i requires 0 <= i < |list| => ForwardRef(fwd, list[i]))
  }

  /** The list that was pending before the collection survives it. */
  lemma {:induction false} ChainForwarded(env: Env, m0: seq<int>, blocks: set<int>, top: int, slots: seq<nat>, pend: nat,
                                          live: set<int>, entries: seq<int>, m: seq<int>, top': int, fwd: map<int, nat>, v: int,
                                              list: seq<int>)
    requires Collected(env, m0, blocks, top, slots, pend, live, entries, m, top')
    requires EntriesOk(env, m0, entries) && StrictlySorted(entries) && fwd == Forwarding(env, m0, entries)
    requires Chain(env, m0, blocks, v, list) && (InHeap(env, v) ==> v in live)
    ensures Chain(env, m, NewBlocks(fwd), ForwardRef(fwd, v), ForwardList(fwd, list))
    ensures forall x :: x in list ==> x in live
    decreases |list|
  {
    hide Collected, WellFormed, Reachable, LiveList, EntriesOk, StrictlySorted, Forwarding, NewBlocks, IsReference, Referent, Discovered;
    LiveFacts(env, m0, blocks, top, slots, pend, live, entries, m, top');
    if list == [] {
      assert ForwardList(fwd, list) == [];
    } else {
      ReferenceInHeap(env, m0, blocks, top, v);
      ReferentAfter(env, m0, blocks, top, slots, pend, live, entries, m, top', fwd, v);
      var next := Discovered(env, m0, blocks, v);
      DiscoveredLive(env, m0, blocks, top, slots, pend, live, entries, m, top', v);
      ChainForwarded(env, m0, blocks, top, slots, pend, live, entries, m, top', fwd, next, list[1..]);
      assert ForwardList(fwd, list)[1..] == ForwardList(fwd, list[1..]);
      forall j | 0 <= j < |list[1..]| ensures ForwardList(fwd, list[1..])[j] != ForwardRef(fwd, v) {
        ForwardInjective(env, m0, entries, fwd, v, list[1..][j]);
      }
      assert ForwardRef(fwd, v) == NewEntry(fwd, v);
      forall x | x in list ensures x in live { assert x == list[0] || x in list[1..]; }
    }
  }

  lemma ReferenceInHeap(env: Env, m0: seq<int>, blocks: set<int>, top: int, v: int)
    requires WellFormed(env, m0, blocks, top) && IsReference(env, m0, blocks, v)
    ensures InHeap(env, v) && !IsMonitor(v)
  {
    BlockOk(env, m0, blocks, top, v);
  }

  lemma ForwardInjective(env: Env, m0: seq<int>, entries: seq<int>, fwd: map<int, nat>, x: int, y: int)
    requires EntriesOk(env, m0, entries) && StrictlySorted(entries) && fwd == Forwarding(env, m0, entries)
    requires x in fwd && y in fwd && x != y
    ensures ForwardRef(fwd, x) != ForwardRef(fwd, y)
  {
    hide Forwarding, EntriesOk, EntryOk;
    if x < y {
      FwdOrder(env, m0, entries, x, y); FwdBounds(env, m0, entries, x);
    } else {
      FwdOrder(env, m0, entries, y, x); FwdBounds(env, m0, entries, y);
    }
  }

  lemma DiscoveredLive(env: Env, m0: seq<int>, blocks: set<int>, top: int, slots: seq<nat>, pend: nat,
                       live: set<int>, entries: seq<int>, m: seq<int>, top': int, e: int)
    requires Collected(env, m0, blocks, top, slots, pend, live, entries, m, top') && e in live && IsReference(env, m0, blocks, e)
    ensures InHeap(env, Discovered(env, m0, blocks, e)) ==> Discovered(env, m0, blocks, e) in live
  {
    hide Collected, InHeap;
    ReferenceSlots(env, m0, blocks, e);
    var i :| 0 <= i < |Strong(env, m0, e)| && Strong(env, m0, e)[i] == DISCOVERED;
    StrongTargetLive(env, m0, blocks, top, slots, pend, live, entries, m, top', e, i);
  }

  /** The pending list when the collector reaches entry `k`: newly cleared references in front of `list`. */
  ghost function PendingAt(env: Env, m0: seq<int>, fwd: map<int, nat>, entries: seq<int>, list: seq<int>, k: int): seq<int>
    requires 0 <= k <= |entries| && EntriesOk(env, m0, entries)
  {
    if k == 0 then list
    else if IsEnqueued(env, m0, fwd, entries[k - 1]) && entries[k - 1] in fwd then
      [8 * fwd[entries[k - 1]]] + PendingAt(env, m0, fwd, entries, list, k - 1)
    else PendingAt(env, m0, fwd, entries, list, k - 1)
  }

  lemma {:induction false} PendingAtMember(env: Env, m0: seq<int>, fwd: map<int, nat>, entries: seq<int>, list: seq<int>, k: int, x: int)
    requires 0 <= k <= |entries| && EntriesOk(env, m0, entries) && x in PendingAt(env, m0, fwd, entries, list, k)
    ensures x in list || exists j :: 0 <= j < k && entries[j] in fwd && IsEnqueued(env, m0, fwd, entries[j]) && x == 8 * fwd[entries[j]]
  {
    hide EntryOk;
    if k > 0 {
      if IsEnqueued(env, m0, fwd, entries[k - 1]) && entries[k - 1] in fwd && x == 8 * fwd[entries[k - 1]] {
      } else {
        PendingAtMember(env, m0, fwd, entries, list, k - 1, x);
      }
    }
  }

  /** Pushing entry `k` keeps the chain a chain. */
  lemma PushKeepsChain(env: Env, m0: seq<int>, blocks: set<int>, top: int, slots: seq<nat>, pend: nat,
                       live: set<int>, entries: seq<int>, m: seq<int>, top': int, fwd: map<int, nat>, prior: seq<int>, k: int)
    requires Collected(env, m0, blocks, top, slots, pend, live, entries, m, top')
    requires EntriesOk(env, m0, entries) && StrictlySorted(entries) && fwd == Forwarding(env, m0, entries)
    requires 0 <= k < |entries| && entries[k] in fwd && IsEnqueued(env, m0, fwd, entries[k]) && pend < |m0|
    requires forall x :: x in prior ==> x in live && IsReference(env, m0, blocks, x) && Referent(env, m0, blocks, x) == 0
    requires Chain(env, m, NewBlocks(fwd), PendingHead(env, m0, fwd, entries, ForwardRef(fwd, m0[pend]), k),
                   PendingAt(env, m0, fwd, entries, ForwardList(fwd, prior), k))
    ensures Chain(env, m, NewBlocks(fwd), 8 * fwd[entries[k]],
                  [8 * fwd[entries[k]]] + PendingAt(env, m0, fwd, entries, ForwardList(fwd, prior), k))
  {
    hide Collected, WellFormed, Reachable, LiveList, EntriesOk, Forwarding, NewBlocks, IsReference, Referent, Discovered, PendingHead,
      IsEnqueued, EntryOk, StrictlySorted;
    LiveFacts(env, m0, blocks, top, slots, pend, live, entries, m, top');
    var e := entries[k];
    BlockOk(env, m0, blocks, top, e);
    EnqueuedReference(env, m0, blocks, top, fwd, e);
    ReferentAfter(env, m0, blocks, top, slots, pend, live, entries, m, top', fwd, e);
    DiscoveredIsHead(env, m0, blocks, top, slots, pend, live, entries, m, top', fwd, k);
    var tail := PendingAt(env, m0, fwd, entries, ForwardList(fwd, prior), k);
    if 8 * fwd[e] in tail {
      PendingAtMember(env, m0, fwd, entries, ForwardList(fwd, prior), k, 8 * fwd[e]);
      NotPushedTwice(env, m0, blocks, entries, fwd, live, prior, k);
      assert false;
    }
    var list := [8 * fwd[e]] + tail;
    assert list[1..] == tail;
  }

  lemma EnqueuedReference(env: Env, m0: seq<int>, blocks: set<int>, top: int, fwd: map<int, nat>, e: int)
    requires WellFormed(env, m0, blocks, top) && e in blocks && EntryOk(env, m0, e) && IsEnqueued(env, m0, fwd, e)
    ensures IsReference(env, m0, blocks, e) && !IsMonitor(e)
    ensures Referent(env, m0, blocks, e) != 0
  {
    EnqueuedMeans(env, m0, fwd, e);
    ReferenceSlots(env, m0, blocks, e);
  }

  lemma NotPushedTwice(env: Env, m0: seq<int>, blocks: set<int>, entries: seq<int>, fwd: map<int, nat>, live: set<int>,
                       prior: seq<int>, k: int)
    requires EntriesOk(env, m0, entries) && StrictlySorted(entries) && fwd == Forwarding(env, m0, entries)
    requires 0 <= k < |entries| && entries[k] in fwd && IsReference(env, m0, blocks, entries[k])
             && Referent(env, m0, blocks, entries[k]) != 0
    requires forall x :: x in live ==> x in fwd
    requires forall x :: x in prior ==> x in live && IsReference(env, m0, blocks, x) && Referent(env, m0, blocks, x) == 0
    ensures 8 * fwd[entries[k]] !in ForwardList(fwd, prior)
    ensures forall j :: 0 <= j < k && entries[j] in fwd ==> fwd[entries[k]] != fwd[entries[j]]
  {
    hide EntriesOk, Forwarding, IsReference, Referent;
    var e := entries[k];
    forall i | 0 <= i < |prior| ensures ForwardList(fwd, prior)[i] != 8 * fwd[e] {
      ForwardInjective(env, m0, entries, fwd, e, prior[i]);
    }
    forall j | 0 <= j < k && entries[j] in fwd ensures fwd[entries[k]] != fwd[entries[j]] {
      ForwardInjective(env, m0, entries, fwd, e, entries[j]);
    }
  }

  lemma DiscoveredIsHead(env: Env, m0: seq<int>, blocks: set<int>, top: int, slots: seq<nat>, pend: nat,
                         live: set<int>, entries: seq<int>, m: seq<int>, top': int, fwd: map<int, nat>, k: int)
    requires Collected(env, m0, blocks, top, slots, pend, live, entries, m, top')
    requires EntriesOk(env, m0, entries) && StrictlySorted(entries) && fwd == Forwarding(env, m0, entries)
    requires 0 <= k < |entries| && entries[k] in fwd && IsEnqueued(env, m0, fwd, entries[k]) && pend < |m0|
    requires !IsMonitor(entries[k]) && IsReference(env, m, NewBlocks(fwd), NewEntry(fwd, entries[k]))
    ensures Discovered(env, m, NewBlocks(fwd), NewEntry(fwd, entries[k])) ==
            PendingHead(env, m0, fwd, entries, ForwardRef(fwd, m0[pend]), k)
  {
    hide Collected, Forwarding, NewBlocks, PendingHead, Reachable, WellFormed;
    LiveFacts(env, m0, blocks, top, slots, pend, live, entries, m, top');
    var k' := CollectedBlock(env, m0, blocks, top, slots, pend, live, entries, m, top', entries[k]);
    assert k' == k;
    var head := PendingHead(env, m0, fwd, entries, ForwardRef(fwd, m0[pend]), k);
    EnqueuedMeans(env, m0, fwd, entries[k]);
    ObjectWord(env, m0, fwd, entries[k], head, m, DISCOVERED);
  }

  lemma {:induction false} ChainAt(env: Env, m0: seq<int>, blocks: set<int>, top: int, slots: seq<nat>, pend: nat,
                                   live: set<int>, entries: seq<int>, m: seq<int>, top': int, fwd: map<int, nat>, prior: seq<int>, k: int)
    requires Collected(env, m0, blocks, top, slots, pend, live, entries, m, top')
    requires EntriesOk(env, m0, entries) && StrictlySorted(entries) && fwd == Forwarding(env, m0, entries)
    requires 0 <= k <= |entries| && pend < |m0|
    requires forall x :: x in prior ==> x in live && IsReference(env, m0, blocks, x) && Referent(env, m0, blocks, x) == 0
    requires Chain(env, m, NewBlocks(fwd), ForwardRef(fwd, m0[pend]), ForwardList(fwd, prior))
    ensures Chain(env, m, NewBlocks(fwd), PendingHead(env, m0, fwd, entries, ForwardRef(fwd, m0[pend]), k),
                  PendingAt(env, m0, fwd, entries, ForwardList(fwd, prior), k))
    decreases k
  {
    hide Collected, Forwarding, NewBlocks, Chain, EntryOk, IsReference, Referent, StrictlySorted;
    if k > 0 {
      ChainAt(env, m0, blocks, top, slots, pend, live, entries, m, top', fwd, prior, k - 1);
      if IsEnqueued(env, m0, fwd, entries[k - 1]) && entries[k - 1] in fwd {
        PushKeepsChain(env, m0, blocks, top, slots, pend, live, entries, m, top', fwd, prior, k - 1);
      }
    }
  }

  /** If the pending list was a chain of cleared references before a collection, it is one afterwards:
      the newly cleared references followed by the old list. */
  lemma PendingListKept(env: Env, m0: seq<int>, blocks: set<int>, top: int, slots: seq<nat>, pend: nat,
                        live: set<int>, entries: seq<int>, m: seq<int>, top': int, fwd: map<int, nat>, prior: seq<int>)
    requires Collected(env, m0, blocks, top, slots, pend, live, entries, m, top')
    requires EntriesOk(env, m0, entries) && StrictlySorted(entries) && fwd == Forwarding(env, m0, entries)
    requires pend < |m0| == |m| && Chain(env, m0, blocks, m0[pend], prior)
    ensures Chain(env, m, NewBlocks(fwd), m[pend], PendingAt(env, m0, fwd, entries, ForwardList(fwd, prior), |entries|))
  {
    hide WellFormed, Reachable, LiveList, EntriesOk, Forwarding, NewBlocks, Chain, IsReference, Referent, PendingHead,
         StrictlySorted, EntryCollected,
      PendingAt, Loc;
    RootTargetLive(env, m0, blocks, top, slots, pend, live, entries, m, top', pend);
    ChainForwarded(env, m0, blocks, top, slots, pend, live, entries, m, top', fwd, m0[pend], prior);
    forall x | x in prior ensures IsReference(env, m0, blocks, x) && Referent(env, m0, blocks, x) == 0 {
      ChainMember(env, m0, blocks, m0[pend], prior, x);
    }
    ChainAt(env, m0, blocks, top, slots, pend, live, entries, m, top', fwd, prior, |entries|);
  }

  lemma PriorLive(env: Env, m0: seq<int>, blocks: set<int>, top: int, slots: seq<nat>, pend: nat,
                  live: set<int>, entries: seq<int>, m: seq<int>, top': int, prior: seq<int>)
    requires Collected(env, m0, blocks, top, slots, pend, live, entries, m, top')
    requires EntriesOk(env, m0, entries) && StrictlySorted(entries)
    requires pend < |m0| == |m| && Chain(env, m0, blocks, m0[pend], prior)
    ensures forall x :: x in prior ==> x in live && !IsMonitor(x)
  {
    PendSlot(env, m0, blocks, top, slots, pend, live, entries, m, top');
    hide Collected, WellFormed, Reachable, LiveList, EntriesOk, StrictlySorted, Forwarding, NewBlocks, Chain, IsReference, Referent,
         IsMonitor;
    RootTargetLive(env, m0, blocks, top, slots, pend, live, entries, m, top', pend);
    ChainForwarded(env, m0, blocks, top, slots, pend, live, entries, m, top', Forwarding(env, m0, entries), m0[pend], prior);
    forall x | x in prior ensures x in live && !IsMonitor(x) {
      ChainMember(env, m0, blocks, m0[pend], prior, x);
      ReferenceIsObject(env, m0, blocks, x);
    }
  }

  lemma PendSlot(env: Env, m0: seq<int>, blocks: set<int>, top: int, slots: seq<nat>, pend: nat,
                 live: set<int>, entries: seq<int>, m: seq<int>, top': int)
    requires Collected(env, m0, blocks, top, slots, pend, live, entries, m, top')
    ensures pend in slots
  {
  }

  lemma ReferenceIsObject(env: Env, m: seq<int>, blocks: set<int>, x: int)
    requires IsReference(env, m, blocks, x)
    ensures x in blocks && !IsMonitor(x)
  {
  }

  /** The list holds what was pending before and every Reference that is cleared. */
  lemma {:induction false} PendingAtHas(env: Env, m0: seq<int>, fwd: map<int, nat>, entries: seq<int>, list: seq<int>, k: int)
    requires 0 <= k <= |entries| && EntriesOk(env, m0, entries)
    ensures forall x :: x in list ==> x in PendingAt(env, m0, fwd, entries, list, k)
    ensures forall j :: 0 <= j < k && entries[j] in fwd && IsEnqueued(env, m0, fwd, entries[j]) ==>
                          8 * fwd[entries[j]] in PendingAt(env, m0, fwd, entries, list, k)
  {
    hide EntryOk, IsEnqueued;
    if k > 0 { PendingAtHas(env, m0, fwd, entries, list, k - 1); }
  }
}
