/** A whole collection: enumerate roots, mark, sort, slide, and relocate roots and fields. */
module Collector {
  import opened Memory
  import opened Mark
  import opened PointerSort
  import opened Slide
  import opened Relocate

  // ---------- the specification ----------

  /** New word address of every live entry. */
  ghost function Forwarding(env: Env, m0: seq<int>, entries: seq<int>): map<int, nat>
    requires EntriesOk(env, m0, entries) && StrictlySorted(entries)
  {
    map k | 0 <= k < |entries| :: entries[k] := Loc(env, m0, entries, k)
  }

  /** Root slots lie outside the heap. */
  ghost predicate SlotsPlaced(env: Env, m: seq<int>, slots: seq<nat>) {
    forall i :: 0 <= i < |slots| ==> slots[i] < |m| && !(env.base <= slots[i] < env.limit)
  }

  ghost predicate SlotsDistinct(env: Env, m: seq<int>, slots: seq<nat>) {
    SlotsPlaced(env, m, slots) && forall i, j :: 0 <= i < j < |slots| ==> slots[i] != slots[j]
  }

  /** Root slots hold null, a pointer out of the heap, or an object. */
  ghost predicate RootSlotsOk(env: Env, m: seq<int>, blocks: set<int>, slots: seq<nat>)
    requires SlotsPlaced(env, m, slots)
  {
    forall i :: 0 <= i < |slots| ==> SlotOk(env, blocks, m[slots[i]])
  }

  ghost function RootTargets(env: Env, m: seq<int>, slots: seq<nat>): set<int>
    requires SlotsPlaced(env, m, slots)
  {
    set i | 0 <= i < |slots| && InHeap(env, m[slots[i]]) :: m[slots[i]]
  }

  /** Entry `k` is in its new place, rewritten. */
  ghost predicate EntryCollected(env: Env, m0: seq<int>, entries: seq<int>, start: int, m: seq<int>, k: int)
    requires 0 <= k < |entries| && EntriesOk(env, m0, entries) && StrictlySorted(entries)
  {
    var fwd := Forwarding(env, m0, entries);
    var l, n := Loc(env, m0, entries, k), EntryWords(env, m0, entries[k]);
    l + n <= |m| && m[l..l + n] == NewBlock(env, m0, fwd, entries[k], PendingHead(env, m0, fwd, entries, start, k))
  }

  /** Words outside the heap: root slots are forwarded, the pending-list head is `head`, the rest is as before. */
  ghost predicate OutsideCollected(env: Env, m0: seq<int>, fwd: map<int, nat>, slots: seq<nat>, pend: nat, head: int, m: seq<int>) {
    && |m| == |m0| && pend < |m| && m[pend] == head
    && forall a :: 0 <= a < |m| && !(env.base <= a < env.limit) && a != pend ==>
                     m[a] == if a in slots then ForwardRef(fwd, m0[a]) else m0[a]
  }

  /** `m` is the result of collecting `m0`: the live objects are exactly those reachable from the root
      slots, and every word of every live block, every root slot and every other word outside the heap
      has the value that forwarding prescribes. */
  ghost predicate Collected(env: Env, m0: seq<int>, blocks: set<int>, top: int, slots: seq<nat>, pend: nat,
                            live: set<int>, entries: seq<int>, m: seq<int>, top': int)
  {
    && LiveList(env, m0, blocks, top, live, entries) && EntriesOk(env, m0, entries)
    && SlotsDistinct(env, m0, slots) && pend in slots && |m| == |m0|
    && (forall e :: e in live <==> Reachable(env, m0, RootTargets(env, m0, slots), e))
    && top' == Loc(env, m0, entries, |entries|)
    && var fwd := Forwarding(env, m0, entries);
    var start := ForwardRef(fwd, m0[pend]);
    && (forall k :: 0 <= k < |entries| ==> EntryCollected(env, m0, entries, start, m, k))
    && OutsideCollected(env, m0, fwd, slots, pend, PendingHead(env, m0, fwd, entries, start, |entries|), m)
  }

  // ---------- repeated root slots ----------

  /** The value of a slot that is rewritten `n` times. */
  ghost function ForwardTimes(fwd: map<int, nat>, v: int, n: nat): int {
    if n == 0 then v else ForwardRef(fwd, ForwardTimes(fwd, v, n - 1))
  }

  /** How often slot `a` is listed. */
  ghost function Times(slots: seq<nat>, a: nat): nat { multiset(slots)[a] }

  ghost predicate OutsideRepeated(env: Env, m0: seq<int>, fwd: map<int, nat>, slots: seq<nat>, pend: nat, head: int, m: seq<int>) {
    && |m| == |m0| && pend < |m| && m[pend] == head
    && forall a: nat :: a < |m| && !(env.base <= a < env.limit) && a != pend ==> m[a] == ForwardTimes(fwd, m0[a], Times(slots, a))
  }

  /** The same for root slots that may be listed more than once: each is rewritten as often as it is listed. */
  ghost predicate CollectedRepeated(env: Env, m0: seq<int>, blocks: set<int>, top: int, slots: seq<nat>, pend: nat,
                                    live: set<int>, entries: seq<int>, m: seq<int>, top': int)
  {
    && LiveList(env, m0, blocks, top, live, entries) && EntriesOk(env, m0, entries)
    && SlotsPlaced(env, m0, slots) && pend in slots && |m| == |m0|
    && (forall e :: e in live <==> Reachable(env, m0, RootTargets(env, m0, slots), e))
    && top' == Loc(env, m0, entries, |entries|)
    && var fwd := Forwarding(env, m0, entries);
    var start := ForwardTimes(fwd, m0[pend], Times(slots, pend));
    && (forall k :: 0 <= k < |entries| ==> EntryCollected(env, m0, entries, start, m, k))
    && OutsideRepeated(env, m0, fwd, slots, pend, PendingHead(env, m0, fwd, entries, start, |entries|), m)
  }

  /** Slots listed once are rewritten once. */
  lemma CollectedOnce(env: Env, m0: seq<int>, blocks: set<int>, top: int, slots: seq<nat>, pend: nat,
                      live: set<int>, entries: seq<int>, m: seq<int>, top': int)
    requires CollectedRepeated(env, m0, blocks, top, slots, pend, live, entries, m, top') && SlotsDistinct(env, m0, slots)
    ensures Collected(env, m0, blocks, top, slots, pend, live, entries, m, top')
  {
    hide LiveList, EntriesOk, Reachable, EntryCollected, Forwarding, Loc, PendingHead;
    forall a: nat ensures Times(slots, a) == if a in slots then 1 else 0 { ListedOnce(slots, a); }
    assert forall fwd: map<int, nat>, v :: ForwardTimes(fwd, v, 1) == ForwardRef(fwd, v) by {
      forall fwd: map<int, nat>, v ensures ForwardTimes(fwd, v, 1) == ForwardRef(fwd, v) { assert ForwardTimes(fwd, v, 0) == v; }
    }
  }

  lemma ListedOnce(slots: seq<nat>, a: nat)
    requires forall i, j :: 0 <= i < j < |slots| ==> slots[i] != slots[j]
    ensures Times(slots, a) == if a in slots then 1 else 0
  {
    var q: seq<int> := slots;
    assert multiset(slots)[a] == multiset(q)[a];
    PointerSort.CountOnce(q, a);
    assert a in q <==> a in multiset(q);
  }

  // ---------- roots ----------

  /** The slots that hold a pointer into the heap, in order. */
  function HeapSlots(env: Env, m: seq<int>, slots: seq<nat>): seq<nat> {
    if slots == [] then []
    else
      var n := |slots| - 1;
      HeapSlots(env, m, slots[..n]) + if slots[n] < |m| && InHeap(env, m[slots[n]]) then [slots[n]] else []
  }

  lemma {:induction false} HeapSlotsAre(env: Env, m: seq<int>, slots: seq<nat>)
    requires SlotsPlaced(env, m, slots)
    ensures SlotsPlaced(env, m, HeapSlots(env, m, slots))
    ensures forall a :: a in HeapSlots(env, m, slots) <==> a in slots && a < |m| && InHeap(env, m[a])
    ensures forall a: nat :: Times(HeapSlots(env, m, slots), a) == if a < |m| && InHeap(env, m[a]) then Times(slots, a) else 0
  {
    if slots != [] {
      var n := |slots| - 1;
      HeapSlotsAre(env, m, slots[..n]);
      var kept := HeapSlots(env, m, slots[..n]);
      assert HeapSlots(env, m, slots) == kept + if slots[n] < |m| && InHeap(env, m[slots[n]]) then [slots[n]] else [];
      assert slots == slots[..n] + [slots[n]];
      hide InHeap, HeapSlots;
      OneMoreSlot(env, m, slots[..n], kept, slots[n]);
    }
  }

  lemma OneMoreSlot(env: Env, m: seq<int>, slots: seq<nat>, kept: seq<nat>, s: nat)
    requires s < |m| && !(env.base <= s < env.limit) && SlotsPlaced(env, m, kept)
    requires forall a :: a in kept <==> a in slots && a < |m| && InHeap(env, m[a])
    requires forall a: nat :: Times(kept, a) == if a < |m| && InHeap(env, m[a]) then Times(slots, a) else 0
    ensures var slots', kept' := slots + [s], kept + if InHeap(env, m[s]) then [s] else [];
            && SlotsPlaced(env, m, kept')
            && (forall a :: a in kept' <==> a in slots' && a < |m| && InHeap(env, m[a]))
            && (forall a: nat :: Times(kept', a) == if a < |m| && InHeap(env, m[a]) then Times(slots', a) else 0)
  {
    hide InHeap;
  }

  /** PUSH_ROOT over all root slots: keep those that hold a pointer into the heap, in order. */
  method EnumerateRoots(env: Env, mem: array<int>, slots: seq<nat>) returns (roots: seq<nat>)
    requires SlotsPlaced(env, mem[..], slots) && 0 < env.base
    ensures roots == HeapSlots(env, mem[..], slots)
  {
    roots := [];
    for i := 0 to |slots|
      invariant roots == HeapSlots(env, mem[..], slots[..i])
    {
      assert slots[..i + 1][..i] == slots[..i];
      if mem[slots[i]] != 0 && InHeap(env, mem[slots[i]]) {
        roots := roots + [slots[i]];
      }
    }
    assert slots[..|slots|] == slots;
  }

  lemma RootTargetsAgree(env: Env, m: seq<int>, slots: seq<nat>, roots: seq<nat>)
    requires SlotsPlaced(env, m, slots) && SlotsPlaced(env, m, roots)
    requires forall a :: a in roots <==> a in slots && a < |m| && InHeap(env, m[a])
    ensures Targets(m, roots) == RootTargets(env, m, slots)
  {
    forall v | v in Targets(m, roots) ensures v in RootTargets(env, m, slots) {
      var i :| 0 <= i < |roots| && m[roots[i]] == v;
      assert roots[i] in roots;
      var j :| 0 <= j < |slots| && slots[j] == roots[i];
    }
    forall v | v in RootTargets(env, m, slots) ensures v in Targets(m, roots) {
      var j :| 0 <= j < |slots| && m[slots[j]] == v && InHeap(env, m[slots[j]]);
      assert slots[j] in slots && slots[j] in roots;
      var i :| 0 <= i < |roots| && roots[i] == slots[j];
    }
  }

  lemma RootsOkFromSlots(env: Env, m: seq<int>, blocks: set<int>, slots: seq<nat>, roots: seq<nat>)
    requires SlotsPlaced(env, m, slots) && SlotsPlaced(env, m, roots) && RootSlotsOk(env, m, blocks, slots)
    requires forall a :: a in roots <==> a in slots && a < |m| && InHeap(env, m[a])
    ensures RootsOk(env, m, blocks, roots)
  {
    forall i | 0 <= i < |roots| ensures InHeap(env, m[roots[i]]) && SlotOk(env, blocks, m[roots[i]]) {
      assert roots[i] in roots;
      var j :| 0 <= j < |slots| && slots[j] == roots[i];
    }
  }

  /** Rewrite the root slots.  A slot that is listed more than once is rewritten more than once. */
  method RelocateRoots(env: Env, mem: array<int>, roots: seq<nat>, entries: seq<int>, locs: seq<nat>, ghost fwd: map<int, nat>)
    requires SlotsPlaced(env, mem[..], roots) && Table(entries, locs, fwd)
    modifies mem
    ensures forall a: nat :: a < mem.Length ==> mem[a] == ForwardTimes(fwd, old(mem[a]), Times(roots, a))
  {
    hide Table, ForwardRef;
    ghost var m := mem[..];
    for i := 0 to |roots|
      invariant forall a: nat :: a < mem.Length ==> mem[a] == ForwardTimes(fwd, m[a], Times(roots[..i], a))
    {
      assert roots[..i + 1] == roots[..i] + [roots[i]];
      ghost var before := mem[..];
      var _ := RelocateSlot(mem, roots[i], entries, locs, fwd);
      assert forall a: nat :: a < mem.Length ==> mem[a] == mem[..][a];
    }
    assert roots[..|roots|] == roots;
  }

  // ---------- fields ----------

  /** Entry `k` has been moved but not rewritten. */
  ghost predicate Untouched(env: Env, m0: seq<int>, entries: seq<int>, m: seq<int>, k: int)
    requires 0 <= k < |entries| && EntriesOk(env, m0, entries)
  {
    Copied(m0, At(entries[k]), m, Loc(env, m0, entries, k), EntryWords(env, m0, entries[k]))
  }

  /** Entries below `i` are rewritten, the others still hold their original words. */
  ghost predicate FieldsAt(env: Env, m0: seq<int>, entries: seq<int>, start: int, pend: nat, m: seq<int>, i: int)
    requires 0 <= i <= |entries| && EntriesOk(env, m0, entries) && StrictlySorted(entries)
  {
    && |m| == |m0| && pend < |m|
    && (forall k :: 0 <= k < i ==> EntryCollected(env, m0, entries, start, m, k))
    && (forall k :: i <= k < |entries| ==> Untouched(env, m0, entries, m, k))
    && m[pend] == PendingHead(env, m0, Forwarding(env, m0, entries), entries, start, i)
  }

  /** Rewriting block `i` and the pending head leaves every other block alone. */
  lemma OtherBlockKept(env: Env, m0: seq<int>, entries: seq<int>, fwd: map<int, nat>, pend: nat, m: seq<int>, m': seq<int>, i: int, k: int)
    requires 0 <= i < |entries| && EntriesOk(env, m0, entries) && 0 <= k < |entries| && k != i
    requires Loc(env, m0, entries, |entries|) <= env.limit <= |m| && !(env.base <= pend < env.limit)
    requires pend < |m| && Loc(env, m0, entries, i) + EntryWords(env, m0, entries[i]) <= |m|
    requires BlockRelocated(env, m0, fwd, entries[i], Loc(env, m0, entries, i), pend, m, m')
    ensures var l, n := Loc(env, m0, entries, k), EntryWords(env, m0, entries[k]);
            l + n <= |m| == |m'| && m'[l..l + n] == m[l..l + n]
  {
    hide EntryOk, EntryWords, NewBlock, IsEnqueued;
    var l, n := Loc(env, m0, entries, i), EntryWords(env, m0, entries[i]);
    LocBase(env, m0, entries, k);
    LocMonotone(env, m0, entries, k, |entries|);
    if k < i { LocMonotone(env, m0, entries, k, i); } else { LocMonotone(env, m0, entries, i, k); }
    SameSlice(m, m', Loc(env, m0, entries, k), EntryWords(env, m0, entries[k]), l, n, pend);
  }

  lemma FieldsStep(env: Env, m0: seq<int>, entries: seq<int>, start: int, pend: nat, m: seq<int>, m': seq<int>, i: int)
    requires 0 <= i < |entries| && EntriesOk(env, m0, entries) && StrictlySorted(entries)
    requires FieldsAt(env, m0, entries, start, pend, m, i)
    requires Loc(env, m0, entries, |entries|) <= env.limit <= |m0| && !(env.base <= pend < env.limit)
    requires Loc(env, m0, entries, i) + EntryWords(env, m0, entries[i]) <= |m|
    requires BlockRelocated(env, m0, Forwarding(env, m0, entries), entries[i], Loc(env, m0, entries, i), pend, m, m')
    ensures FieldsAt(env, m0, entries, start, pend, m', i + 1)
  {
    hide EntryOk, EntryWords, Forwarding, BlockRelocated, Untouched, EntryCollected, StrictlySorted, EntriesOk, Loc, PendingHead;
    forall k | 0 <= k < i ensures EntryCollected(env, m0, entries, start, m', k) {
      OtherBlockKept(env, m0, entries, Forwarding(env, m0, entries), pend, m, m', i, k);
      CollectedKept(env, m0, entries, start, m, m', k);
    }
    forall k | i < k < |entries| ensures Untouched(env, m0, entries, m', k) {
      StillUntouched(env, m0, entries, Forwarding(env, m0, entries), pend, m, m', i, k);
    }
    NewlyCollected(env, m0, entries, start, pend, m, m', i);
  }

  lemma StillUntouched(env: Env, m0: seq<int>, entries: seq<int>, fwd: map<int, nat>, pend: nat, m: seq<int>, m': seq<int>, i: int, k: int)
    requires 0 <= i < k < |entries| && EntriesOk(env, m0, entries) && Untouched(env, m0, entries, m, k)
    requires Loc(env, m0, entries, |entries|) <= env.limit <= |m| && !(env.base <= pend < env.limit)
    requires pend < |m| && Loc(env, m0, entries, i) + EntryWords(env, m0, entries[i]) <= |m|
    requires BlockRelocated(env, m0, fwd, entries[i], Loc(env, m0, entries, i), pend, m, m')
    ensures Untouched(env, m0, entries, m', k)
  {
    hide EntryOk, EntryWords, BlockRelocated, Copied, Loc;
    OtherBlockKept(env, m0, entries, fwd, pend, m, m', i, k);
    CopiedSame(m0, At(entries[k]), m, m', Loc(env, m0, entries, k), EntryWords(env, m0, entries[k]));
  }

  lemma CollectedKept(env: Env, m0: seq<int>, entries: seq<int>, start: int, m: seq<int>, m': seq<int>, k: int)
    requires 0 <= k < |entries| && EntriesOk(env, m0, entries) && StrictlySorted(entries) && |m'| == |m|
    requires EntryCollected(env, m0, entries, start, m, k)
    requires var l, n := Loc(env, m0, entries, k), EntryWords(env, m0, entries[k]);
             l + n <= |m| && m'[l..l + n] == m[l..l + n]
    ensures EntryCollected(env, m0, entries, start, m', k)
  {
  }

  lemma CopiedSame(m0: seq<int>, src: int, m: seq<int>, m': seq<int>, dst: int, n: int)
    requires Copied(m0, src, m, dst, n) && |m'| == |m| && m'[dst..dst + n] == m[dst..dst + n]
    ensures Copied(m0, src, m', dst, n)
  {
  }

  lemma NewlyCollected(env: Env, m0: seq<int>, entries: seq<int>, start: int, pend: nat, m: seq<int>, m': seq<int>, i: int)
    requires 0 <= i < |entries| && EntriesOk(env, m0, entries) && StrictlySorted(entries) && pend < |m|
    requires m[pend] == PendingHead(env, m0, Forwarding(env, m0, entries), entries, start, i)
    requires Loc(env, m0, entries, i) + EntryWords(env, m0, entries[i]) <= |m|
    requires BlockRelocated(env, m0, Forwarding(env, m0, entries), entries[i], Loc(env, m0, entries, i), pend, m, m')
    ensures |m'| == |m| && EntryCollected(env, m0, entries, start, m', i)
    ensures m'[pend] == PendingHead(env, m0, Forwarding(env, m0, entries), entries, start, i + 1)
  {
    hide EntryOk, EntryWords, NewBlock, IsEnqueued;
    assert Forwarding(env, m0, entries)[entries[i]] == Loc(env, m0, entries, i);
  }

  lemma SameSlice(m: seq<int>, m': seq<int>, p: int, k: int, l: int, n: int, pend: int)
    requires |m'| == |m| && 0 <= p && 0 <= k && p + k <= |m| && (p + k <= l || l + n <= p) && !(p <= pend < p + k)
    requires forall a :: 0 <= a < |m| && !(l <= a < l + n) && a != pend ==> m'[a] == m[a]
    ensures m'[p..p + k] == m[p..p + k]
  {
  }

  lemma {:induction false} LocBase(env: Env, m: seq<int>, entries: seq<int>, i: int)
    requires EntriesOk(env, m, entries) && 0 <= i <= |entries|
    ensures env.base <= Loc(env, m, entries, i)
  {
    if i > 0 { LocBase(env, m, entries, i - 1); }
  }

  lemma MonitorsRelocated(env: Env, m0: seq<int>, fwd: map<int, nat>, e: int, l: int, pend: int, m: seq<int>)
    requires EntryOk(env, m0, e) && IsMonitor(e) && 0 <= l && l + EntryWords(env, m0, e) <= |m| && 0 <= pend < |m|
    requires Copied(m0, At(e), m, l, EntryWords(env, m0, e))
    ensures BlockRelocated(env, m0, fwd, e, l, pend, m, m)
  {
  }

  /** Rewrite every live object.  Monitors hold no pointers. */
  method RelocateFields(env: Env, mem: array<int>, entries: seq<int>, locs: seq<nat>, pend: nat,
                        ghost m0: seq<int>, ghost blocks: set<int>, ghost top: int, ghost live: set<int>, ghost start: int)
    requires LiveList(env, m0, blocks, top, live, entries) && EntriesOk(env, m0, entries)
    requires StrictlySorted(entries) && Table(entries, locs, Forwarding(env, m0, entries)) && |locs| == |entries|
    requires forall k :: 0 <= k < |locs| ==> locs[k] == Loc(env, m0, entries, k)
    requires Loc(env, m0, entries, |entries|) <= env.limit <= |m0| && !(env.base <= pend < env.limit) && 0 < env.base
    requires FieldsAt(env, m0, entries, start, pend, mem[..], 0)
    modifies mem
    ensures FieldsAt(env, m0, entries, start, pend, mem[..], |entries|)
    ensures forall a :: 0 <= a < mem.Length && !(env.base <= a < env.limit) && a != pend ==> mem[a] == old(mem[a])
  {
    hide LiveList, FieldsAt, EntryOk, EntryWords, BlockRelocated, Copied, Forwarding, Table, StrictlySorted;
    ghost var fwd := Forwarding(env, m0, entries);
    ghost var m := mem[..];
    for i := 0 to |entries|
      invariant FieldsAt(env, m0, entries, start, pend, mem[..], i) && |m| == mem.Length
      invariant forall a :: 0 <= a < mem.Length && !(env.base <= a < env.limit) && a != pend ==> mem[a] == m[a]
    {
      ghost var before := mem[..];
      FieldsNext(env, m0, blocks, top, live, entries, start, pend, before, i);
      if IsMonitor(entries[i]) {
        MonitorsRelocated(env, m0, fwd, entries[i], locs[i], pend, before);
      } else {
        RelocateObject(env, mem, locs[i], pend, entries, locs, fwd, m0, entries[i]);
        OutsideKept(env, m0, fwd, entries[i], locs[i], pend, before, mem[..]);
      }
      FieldsStep(env, m0, entries, start, pend, before, mem[..], i);
    }
  }

  /** What the loop needs to know about the entry it reaches. */
  lemma FieldsNext(env: Env, m0: seq<int>, blocks: set<int>, top: int, live: set<int>, entries: seq<int>, start: int, pend: nat,
                   m: seq<int>, i: int)
    requires LiveList(env, m0, blocks, top, live, entries) && EntriesOk(env, m0, entries) && 0 <= i < |entries|
    requires StrictlySorted(entries) && FieldsAt(env, m0, entries, start, pend, m, i)
    requires Loc(env, m0, entries, |entries|) <= env.limit <= |m0|
    ensures EntryOk(env, m0, entries[i]) && 2 <= EntryWords(env, m0, entries[i])
    ensures Copied(m0, At(entries[i]), m, Loc(env, m0, entries, i), EntryWords(env, m0, entries[i]))
    ensures Loc(env, m0, entries, i) + EntryWords(env, m0, entries[i]) <= env.limit <= |m| && pend < |m| == |m0|
    ensures env.base <= Loc(env, m0, entries, i)
    ensures 0 <= At(entries[i]) < |m0|
    ensures !IsMonitor(entries[i]) && !IsMarkWord(m0[At(entries[i])]) ==>
              m0[At(entries[i])] + 1 in Forwarding(env, m0, entries)
    ensures 0 < env.base ==> forall f :: f in Forwarding(env, m0, entries) ==> 0 < Forwarding(env, m0, entries)[f]
  {
    hide LiveList, Copied, EntryCollected, Forwarding, Loc, PendingHead, Words, ObjectAt;
    assert Untouched(env, m0, entries, m, i);
    WordsBound(env, m0, entries[i]);
    LocMonotone(env, m0, entries, i, |entries|);
    LocBase(env, m0, entries, i);
    if !IsMonitor(entries[i]) { MonitorForwarded(env, m0, blocks, top, live, entries, i); }
    ForwardingAboveBase(env, m0, entries);
  }

  lemma MonitorForwarded(env: Env, m0: seq<int>, blocks: set<int>, top: int, live: set<int>, entries: seq<int>, i: int)
    requires LiveList(env, m0, blocks, top, live, entries) && EntriesOk(env, m0, entries) && 0 <= i < |entries|
    requires !IsMonitor(entries[i])
    ensures entries[i] in live && 0 <= At(entries[i]) < |m0|
    ensures !IsMarkWord(m0[At(entries[i])]) ==> m0[At(entries[i])] + 1 in Forwarding(env, m0, entries)
  {
    hide WellFormed;
    LiveListBlocks(env, m0, blocks, top, live, entries);
    var e := entries[i];
    if !IsMarkWord(m0[At(e)]) {
      assert m0[At(e)] + 1 in MonitorEntries(m0, live);
      assert m0[At(e)] + 1 in Elements(entries);
    }
  }

  lemma ForwardingAboveBase(env: Env, m0: seq<int>, entries: seq<int>)
    requires EntriesOk(env, m0, entries) && StrictlySorted(entries)
    ensures forall f :: f in Forwarding(env, m0, entries) ==> env.base <= Forwarding(env, m0, entries)[f]
  {
    hide EntryOk;
    var fwd := Forwarding(env, m0, entries);
    forall f | f in fwd ensures env.base <= fwd[f] {
      var k :| 0 <= k < |entries| && entries[k] == f && fwd[f] == Loc(env, m0, entries, k);
      LocBase(env, m0, entries, k);
    }
  }

  lemma OutsideKept(env: Env, m0: seq<int>, fwd: map<int, nat>, e: int, l: int, pend: int, m: seq<int>, m': seq<int>)
    requires EntryOk(env, m0, e) && env.base <= l && l + EntryWords(env, m0, e) <= env.limit <= |m| && 0 <= pend < |m|
    requires BlockRelocated(env, m0, fwd, e, l, pend, m, m')
    ensures |m'| == |m| && forall a :: 0 <= a < |m| && !(env.base <= a < env.limit) && a != pend ==> m'[a] == m[a]
  {
  }

  // ---------- the collection ----------

  lemma TableBuilt(env: Env, m0: seq<int>, blocks: set<int>, top: int, live: set<int>, entries: seq<int>, locs: seq<nat>)
    requires LiveList(env, m0, blocks, top, live, entries) && EntriesOk(env, m0, entries)
    requires |locs| == |entries| && forall k :: 0 <= k < |locs| ==> locs[k] == Loc(env, m0, entries, k)
    ensures Table(entries, locs, Forwarding(env, m0, entries))
    ensures forall e :: e in Forwarding(env, m0, entries) ==> InHeap(env, e)
  {
    LiveListBlocks(env, m0, blocks, top, live, entries);
    forall k | 0 <= k < |entries| ensures InHeap(env, entries[k]) && 0 < entries[k] {
      BlockOk(env, m0, blocks, top, entries[k]);
    }
  }

  /** After sliding and rewriting the roots, no field has been rewritten yet. */
  lemma FieldsStart(env: Env, m0: seq<int>, entries: seq<int>, slots: seq<nat>,
                    roots: seq<nat>, pend: nat, m2: seq<int>, m: seq<int>)
    requires StrictlySorted(entries) && EntriesOk(env, m0, entries)
    requires SlotsPlaced(env, m0, slots) && roots == HeapSlots(env, m0, slots) && pend in slots
    requires Moved(env, m0, m2, entries, |entries|) && OutsideSame(env, m0, m2)
    requires Loc(env, m0, entries, |entries|) <= env.limit <= |m0|
    requires forall e :: e in Forwarding(env, m0, entries) ==> InHeap(env, e)
    requires |m| == |m2| && forall a: nat :: a < |m| ==> m[a] == ForwardTimes(Forwarding(env, m0, entries), m2[a], Times(roots, a))
    ensures pend < |m0| && !(env.base <= pend < env.limit)
    ensures FieldsAt(env, m0, entries, ForwardTimes(Forwarding(env, m0, entries), m0[pend], Times(slots, pend)), pend, m, 0)
    ensures forall a: nat :: a < |m| && !(env.base <= a < env.limit) ==>
                               m[a] == ForwardTimes(Forwarding(env, m0, entries), m0[a], Times(slots, a))
  {
    hide EntryOk, EntryWords, Forwarding, Copied, StrictlySorted, EntryCollected, HeapSlots, ForwardTimes, Times, Loc, OutsideSame, InHeap;
    var fwd := Forwarding(env, m0, entries);
    OutsideAfterRoots(env, m0, fwd, slots, roots, m2, m);
    assert SlotsPlaced(env, m2, roots) && |m2| == |m0| by { HeapSlotsAre(env, m0, slots); SameSize(env, m0, m2); }
    var i :| 0 <= i < |slots| && slots[i] == pend;
    forall k | 0 <= k < |entries| ensures Untouched(env, m0, entries, m, k) {
      StillThere(env, m0, entries, roots, m2, m, fwd, k);
    }
  }

  lemma SameSize(env: Env, m0: seq<int>, m2: seq<int>)
    requires OutsideSame(env, m0, m2)
    ensures |m2| == |m0|
  {
  }

  lemma StillThere(env: Env, m0: seq<int>, entries: seq<int>, roots: seq<nat>, m2: seq<int>, m: seq<int>, fwd: map<int, nat>, k: int)
    requires EntriesOk(env, m0, entries) && SlotsPlaced(env, m2, roots) && Moved(env, m0, m2, entries, |entries|) && 0 <= k < |entries|
    requires Loc(env, m0, entries, |entries|) <= env.limit <= |m0| == |m2|
    requires |m| == |m2| && forall a: nat :: a < |m| ==> m[a] == ForwardTimes(fwd, m2[a], Times(roots, a))
    ensures Untouched(env, m0, entries, m, k)
  {
    hide EntryOk, EntryWords, Copied, ForwardTimes, Times, Loc, SlotsPlaced;
    LocBase(env, m0, entries, k);
    LocMonotone(env, m0, entries, k, |entries|);
    RootsLeaveSlice(env, m2, m, roots, fwd, Loc(env, m0, entries, k), EntryWords(env, m0, entries[k]));
    CopiedSame(m0, At(entries[k]), m2, m, Loc(env, m0, entries, k), EntryWords(env, m0, entries[k]));
  }

  /** A value that does not point to a live entry is not changed by rewriting. */
  lemma {:induction false} NotForwarded(fwd: map<int, nat>, v: int, n: nat)
    requires v !in fwd
    ensures ForwardTimes(fwd, v, n) == v
  {
    if n > 0 { NotForwarded(fwd, v, n - 1); }
  }

  lemma OutsideAfterRoots(env: Env, m0: seq<int>, fwd: map<int, nat>, slots: seq<nat>, roots: seq<nat>, m2: seq<int>, m: seq<int>)
    requires SlotsPlaced(env, m0, slots) && OutsideSame(env, m0, m2) && roots == HeapSlots(env, m0, slots)
    requires forall e :: e in fwd ==> InHeap(env, e)
    requires |m| == |m2| && forall a: nat :: a < |m| ==> m[a] == ForwardTimes(fwd, m2[a], Times(roots, a))
    ensures forall a: nat :: a < |m| && !(env.base <= a < env.limit) ==> m[a] == ForwardTimes(fwd, m0[a], Times(slots, a))
  {
    HeapSlotsAre(env, m0, slots);
    hide HeapSlots, ForwardTimes;
    forall a: nat | a < |m| && !(env.base <= a < env.limit) ensures m[a] == ForwardTimes(fwd, m0[a], Times(slots, a)) {
      if !InHeap(env, m0[a]) {
        NotForwarded(fwd, m0[a], Times(slots, a));
        NotForwarded(fwd, m0[a], Times(roots, a));
      }
    }
  }

  lemma RootsLeaveSlice(env: Env, m2: seq<int>, m: seq<int>, roots: seq<nat>, fwd: map<int, nat>, l: int, n: int)
    requires SlotsPlaced(env, m2, roots) && env.base <= l && 0 <= n && l + n <= env.limit <= |m2|
    requires |m| == |m2| && forall a: nat :: a < |m| ==> m[a] == ForwardTimes(fwd, m2[a], Times(roots, a))
    ensures m[l..l + n] == m2[l..l + n]
  {
    forall a: nat | l <= a < l + n ensures m[a] == m2[a] {
      assert a !in roots;
      assert Times(roots, a) == 0;
    }
  }

  lemma LiveListSorted(env: Env, m0: seq<int>, blocks: set<int>, top: int, live: set<int>, objs: seq<int>, entries: seq<int>)
    requires WellFormed(env, m0, blocks, top) && Objects(blocks, live) && Listed(m0, objs, live)
    requires Permuted(objs, entries, 0, |objs|) && Sorted(entries)
    ensures LiveList(env, m0, blocks, top, live, entries)
  {
    SortedDistinct(objs, entries);
    assert Elements(entries) == Elements(objs);
  }

  /** `major_gc` in place.  `slots` are the root slots, `pend` the one that heads the pending list. */
  method MajorGc(env: Env, mem: array<int>, slots: seq<nat>, pend: nat, ghost blocks: set<int>, ghost top: int)
    returns (top': nat, ghost live: set<int>, ghost order: seq<int>)
    requires WellFormed(env, mem[..], blocks, top)
    requires SlotsPlaced(env, mem[..], slots) && RootSlotsOk(env, mem[..], blocks, slots) && pend in slots
    modifies mem
    ensures CollectedRepeated(env, old(mem[..]), blocks, top, slots, pend, live, order, mem[..], top')
    ensures top' <= top
  {
    hide WellFormed, MarkedMem, LiveList, Listed, Moved, OutsideSame, FieldsAt, Table, EntryCollected, Permuted, Sorted,
      RootSlotsOk, Reachable, Loc, Forwarding, Objects, RootsOk, EntriesOk, HeapSlots, ForwardTimes;
    ghost var m0 := mem[..];
    HeapBounds(env, m0, blocks, top);
    var roots := EnumerateRoots(env, mem, slots);
    HeapSlotsAre(env, m0, slots);
    RootTargetsAgree(env, m0, slots, roots);
    RootsOkFromSlots(env, m0, blocks, slots, roots);
    var objs;
    objs, live := MarkPhase(env, mem, roots, blocks, top);
    var ptrs := new int[|objs|](i requires 0 <= i < |objs| => objs[i]);
    assert ptrs[..] == objs;
    Quicksort(ptrs, 0, ptrs.Length);
    var entries := ptrs[..];
    assert ptrs[0..ptrs.Length] == entries;
    LiveListSorted(env, m0, blocks, top, live, objs, entries);
    var locs;
    locs, top' := SlideDown(env, mem, entries, m0, blocks, top, live);
    ghost var m2 := mem[..];
    SortedLiveList(env, m0, blocks, top, live, entries);
    TableBuilt(env, m0, blocks, top, live, entries, locs);
    ghost var fwd := Forwarding(env, m0, entries);
    RelocateRoots(env, mem, roots, entries, locs, fwd);
    FieldsStart(env, m0, entries, slots, roots, pend, m2, mem[..]);
    RelocateFields(env, mem, entries, locs, pend, m0, blocks, top, live, ForwardTimes(fwd, m0[pend], Times(slots, pend)));
    CollectedAtEnd(env, m0, blocks, top, slots, pend, live, entries, mem[..], top');
    order := entries;
  }

  lemma SortedLiveList(env: Env, m0: seq<int>, blocks: set<int>, top: int, live: set<int>, entries: seq<int>)
    requires LiveList(env, m0, blocks, top, live, entries)
    ensures StrictlySorted(entries)
  {
  }

  lemma HeapBounds(env: Env, m: seq<int>, blocks: set<int>, top: int)
    requires WellFormed(env, m, blocks, top)
    ensures 0 < env.base <= top <= env.limit <= |m|
  {
  }

  lemma CollectedAtEnd(env: Env, m0: seq<int>, blocks: set<int>, top: int, slots: seq<nat>, pend: nat,
                       live: set<int>, entries: seq<int>, m: seq<int>, top': int)
    requires LiveList(env, m0, blocks, top, live, entries) && EntriesOk(env, m0, entries)
    requires SlotsPlaced(env, m0, slots) && pend in slots && pend < |m0|
    requires forall e :: e in live <==> Reachable(env, m0, RootTargets(env, m0, slots), e)
    requires top' == Loc(env, m0, entries, |entries|)
    requires FieldsAt(env, m0, entries, ForwardTimes(Forwarding(env, m0, entries), m0[pend], Times(slots, pend)), pend, m, |entries|)
    requires forall a: nat :: a < |m| && !(env.base <= a < env.limit) && a != pend ==>
                                m[a] == ForwardTimes(Forwarding(env, m0, entries), m0[a], Times(slots, a))
    ensures CollectedRepeated(env, m0, blocks, top, slots, pend, live, entries, m, top')
  {
    hide LiveList, EntryOk, EntryWords, EntryCollected, Reachable, ForwardTimes;
  }

  // ---------- what repetition does ----------

  /** Rewriting moves pointers to objects down, or leaves them. */
  ghost predicate MovesDown(fwd: map<int, nat>) {
    forall e: int :: e in fwd && !IsMonitor(e) ==> 8 * fwd[e] <= e
  }

  lemma {:induction false} TimesDown(fwd: map<int, nat>, v: int, n: nat)
    requires MovesDown(fwd) && !IsMonitor(v)
    ensures ForwardTimes(fwd, v, n) <= v && !IsMonitor(ForwardTimes(fwd, v, n))
  {
    if n > 0 {
      TimesDown(fwd, v, n - 1);
      var u := ForwardTimes(fwd, v, n - 1);
      assert ForwardTimes(fwd, v, n) == ForwardRef(fwd, u);
      if u in fwd {
        assert ForwardRef(fwd, u) == 8 * fwd[u] <= u;
        assert (8 * fwd[u]) % 8 == 0;
      }
    }
  }

  lemma {:induction false} TimesCompose(fwd: map<int, nat>, v: int, n: nat, k: nat)
    ensures ForwardTimes(fwd, ForwardTimes(fwd, v, k), n) == ForwardTimes(fwd, v, n + k)
  {
    if n > 0 { TimesCompose(fwd, v, n - 1, k); }
  }

  lemma {:induction false} FixedTimes(fwd: map<int, nat>, v: int, n: nat)
    requires ForwardRef(fwd, v) == v
    ensures ForwardTimes(fwd, v, n) == v
  {
    if n > 0 { FixedTimes(fwd, v, n - 1); }
  }

  /** A slot that is listed more than once ends up right if and only if no other object used to live where its target has
      gone, or that one has gone to the same place. */
  lemma RepeatedRightIff(fwd: map<int, nat>, v: int, n: nat)
    requires MovesDown(fwd) && v in fwd && !IsMonitor(v) && 2 <= n
    ensures ForwardTimes(fwd, v, n) == ForwardRef(fwd, v) <==> 8 * fwd[v] !in fwd || fwd[8 * fwd[v]] == fwd[v]
  {
    var u := ForwardRef(fwd, v);
    assert ForwardTimes(fwd, v, 0) == v && ForwardTimes(fwd, v, 1) == u;
    TimesCompose(fwd, v, n - 1, 1);
    if ForwardRef(fwd, u) == u {
      FixedTimes(fwd, u, n - 1);
    } else {
      var w := ForwardRef(fwd, u);
      assert ForwardTimes(fwd, u, 0) == u && ForwardTimes(fwd, u, 1) == w;
      TimesCompose(fwd, u, n - 2, 1);
      TimesDown(fwd, u, 1);
      TimesDown(fwd, w, n - 2);
    }
  }

  /** Every collection moves objects down. */
  lemma ForwardingDown(env: Env, m0: seq<int>, blocks: set<int>, top: int, live: set<int>, entries: seq<int>)
    requires LiveList(env, m0, blocks, top, live, entries) && EntriesOk(env, m0, entries)
    ensures StrictlySorted(entries) && MovesDown(Forwarding(env, m0, entries))
  {
    hide WellFormed, LiveList, EntriesOk, EntryOk, EntryWords, StrictlySorted, Loc;
    LiveListBlocks(env, m0, blocks, top, live, entries);
    SortedLiveList(env, m0, blocks, top, live, entries);
    WellFormedList(env, m0, blocks, top, live, entries);
    var fwd := Forwarding(env, m0, entries);
    forall e | e in fwd && !IsMonitor(e) ensures 8 * fwd[e] <= e {
      var k :| 0 <= k < |entries| && entries[k] == e;
      LocBelow(env, m0, blocks, top, entries, k);
    }
  }

  lemma WellFormedList(env: Env, m0: seq<int>, blocks: set<int>, top: int, live: set<int>, entries: seq<int>)
    requires LiveList(env, m0, blocks, top, live, entries)
    ensures WellFormed(env, m0, blocks, top)
  {
  }
}
