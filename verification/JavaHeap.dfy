/** The heap as the rest of the machine uses it: allocation, monitor inflation, identity hashes, reference
    stores and collections, in any order.  Every operation keeps the invariant `Valid`, so it holds in
    every state that a run can reach. */
module JavaHeap {
  import opened Memory
  import opened Mark
  import opened PointerSort
  import opened Slide
  import opened Relocate
  import opened Collector
  import opened HeapGraph
  import opened PendingReferences
  import opened HeapUpdates
  import opened Survival

  const FREE_MONITOR := 0xFFFF_FFFF // tid -1 in the low half, hold count 0 in the high half

  /** `v` before and `w` after an operation are the same reference: the same object, with the same header
      unless that points to a monitor, or the same pointer out of the heap. */
  ghost predicate SameRef(env: Env, m: seq<int>, ids: map<int, nat>, v: int, m': seq<int>, ids': map<int, nat>, w: int) {
    if InHeap(env, v) then
      && v in ids && w in ids' && ids'[w] == ids[v] && InHeap(env, w)
      && 0 <= At(v) < |m| && 0 <= At(w) < |m'|
      && IsMarkWord(m'[At(w)]) == IsMarkWord(m[At(v)])
      && (IsMarkWord(m[At(v)]) ==> m'[At(w)] == m[At(v)])
    else w == v
  }

  /** `o` is an object of class `cd`, with `length` elements if it is an array. */
  ghost predicate IsInstance(env: Env, m: seq<int>, o: int, cd: int, length: nat) {
    && EntryOk(env, m, o) && !IsMonitor(o) && cd in env.classes
    && ClassOf(env, m, At(o)) == env.classes[cd] && Length(env, m, At(o)) == length
  }

  /** `o` is as it was allocated: with the initial mark word, and zero in every word but its class and the length of an array. */
  ghost predicate IsBlank(env: Env, m: seq<int>, o: int) {
    && EntryOk(env, m, o) && !IsMonitor(o) && 0 <= At(o) && At(o) + EntryWords(env, m, o) <= |m| && 0 < EntryWords(env, m, o)
    && m[At(o)] == 1
    && forall a :: At(o) + 2 <= a < At(o) + EntryWords(env, m, o) && (a != At(o) + 2 || ClassOf(env, m, At(o)).Ordinary?) ==> m[a] == 0
  }

  /** The header of `o` points to a monitor with thread id -1 in its lower half and hold count 0 in its upper one, which has taken
      over the mark word. */
  ghost predicate FreshMonitor(m: seq<int>, o: int, mark: int) {
    && 0 <= At(o) < |m| && m[At(o)] % 8 == 0 && 0 <= At(m[At(o)]) && At(m[At(o)]) + 1 < |m|
    && m[At(m[At(o)])] % HASH_UNIT == 0xFFFF_FFFF && m[At(m[At(o)])] / HASH_UNIT == 0 && m[At(m[At(o)]) + 1] == mark
  }

  /** Only the upper half of the mark word of `o` has changed. */
  ghost predicate HashAdded(m: seq<int>, m': seq<int>, o: int, hash: int) {
    && 0 <= At(o) < |m| && 0 <= MarkAddr(m, o) < |m|
    && m' == m[MarkAddr(m, o) := m[MarkAddr(m, o)] % HASH_UNIT + HASH_UNIT * hash]
  }

  ghost predicate RootsKept(env: Env, slots: seq<nat>, pend: nat, m: seq<int>, ids: map<int, nat>, m': seq<int>, ids': map<int, nat>) {
    |m'| == |m| && forall a :: a in slots && a != pend ==> a < |m| && SameRef(env, m, ids, m[a], m', ids', m'[a])
  }

  /** Every other root refers to the same object, whose header may have changed. */
  ghost predicate TargetsKept(env: Env, slots: seq<nat>, pend: nat, m: seq<int>, ids: map<int, nat>, m': seq<int>, ids': map<int, nat>) {
    forall a :: a in slots && a != pend ==> a < |m| && a < |m'| && SameTarget(env, ids, m[a], ids', m'[a])
  }

  lemma KeptTargets(env: Env, slots: seq<nat>, pend: nat, m: seq<int>, ids: map<int, nat>, m': seq<int>, ids': map<int, nat>)
    requires RootsKept(env, slots, pend, m, ids, m', ids')
    ensures TargetsKept(env, slots, pend, m, ids, m', ids')
  {
    hide IsMarkWord, At;
  }

  lemma TargetsStay(env: Env, slots: seq<nat>, pend: nat, m0: seq<int>, ids0: map<int, nat>, m: seq<int>, ids: map<int, nat>, m': seq<int>)
    requires TargetsKept(env, slots, pend, m0, ids0, m, ids) && |m'| == |m| && SlotsPlaced(env, m, slots)
    requires forall a :: 0 <= a < |m| && !(env.base <= a < env.limit) ==> m'[a] == m[a]
    ensures TargetsKept(env, slots, pend, m0, ids0, m', ids)
  {
    forall a | a in slots && a != pend ensures a < |m'| && m'[a] == m[a] {
      var i :| 0 <= i < |slots| && slots[i] == a;
    }
  }

  lemma RootsKeptSame(env: Env, slots: seq<nat>, pend: nat, m: seq<int>, blocks: set<int>, top: int, ids: map<int, nat>, m': seq<int>)
    requires WellFormed(env, m, blocks, top) && SlotsDistinct(env, m, slots) && RootSlotsOk(env, m, blocks, slots)
    requires forall e :: e in ids <==> e in blocks && !IsMonitor(e)
    requires SameBelow(env, m, m', top) && forall a :: a in slots && a != pend && a < |m| ==> m'[a] == m[a]
    ensures RootsKept(env, slots, pend, m, ids, m', ids)
  {
    hide WellFormed, IsMonitor;
    forall a | a in slots && a != pend ensures a < |m| && SameRef(env, m, ids, m[a], m', ids, m'[a]) {
      var i :| 0 <= i < |slots| && slots[i] == a;
      if InHeap(env, m[a]) { BlockOk(env, m, blocks, top, m[a]); }
    }
  }

  lemma RootsKeptByCollection(env: Env, m0: seq<int>, blocks: set<int>, top: int, slots: seq<nat>, pend: nat,
                              live: set<int>, entries: seq<int>, m: seq<int>, top': int, fwd: map<int, nat>,
                              ids: map<int, nat>, next: nat, hashes: map<nat, int>)
    requires Collected(env, m0, blocks, top, slots, pend, live, entries, m, top')
    requires EntriesOk(env, m0, entries) && StrictlySorted(entries) && fwd == Forwarding(env, m0, entries)
    requires HashesOk(m0, blocks, ids, next, hashes)
    ensures forall e :: e in live ==> e in fwd && e in ids
    ensures forall e, f :: e in fwd && f in fwd && e < f ==> NewEntry(fwd, e) < NewEntry(fwd, f)
    ensures RootsKept(env, slots, pend, m0, ids, m, MovedIds(fwd, live, ids))
  {
    hide Collected, WellFormed, Reachable, LiveList, EntriesOk, StrictlySorted, Forwarding, HashesOk, InHeap, IsMonitor, At,
         NewEntry, ForwardHeader,
      HeaderOk, EntryOk, IsMarkWord;
    LiveFacts(env, m0, blocks, top, slots, pend, live, entries, m, top');
    HashesMoved(env, m0, blocks, top, slots, pend, live, entries, m, top', fwd, ids, next, hashes);
    RootsForwarded(env, m0, blocks, top, slots, pend, live, entries, m, top');
    var ids' := MovedIds(fwd, live, ids);
    forall a | a in slots && a != pend ensures a < |m0| && SameRef(env, m0, ids, m0[a], m, ids', m[a]) {
      RootTargetLive(env, m0, blocks, top, slots, pend, live, entries, m, top', a);
      var v := m0[a];
      if v in fwd {
        HeapRefKept(env, m0, blocks, top, slots, pend, live, entries, m, top', fwd, ids, v);
      }
    }
  }

  lemma GraphKeptByCollection(env: Env, m0: seq<int>, blocks: set<int>, top: int, slots: seq<nat>, pend: nat,
                              live: set<int>, entries: seq<int>, m: seq<int>, top': int, fwd: map<int, nat>, ids: map<int, nat>)
    requires Collected(env, m0, blocks, top, slots, pend, live, entries, m, top')
    requires EntriesOk(env, m0, entries) && StrictlySorted(entries) && fwd == Forwarding(env, m0, entries)
    requires forall x :: x in live ==> x in fwd && x in ids
    requires forall x, y :: x in fwd && y in fwd && x < y ==> NewEntry(fwd, x) < NewEntry(fwd, y)
    ensures GraphKept(env, slots, m0, ids, m, MovedIds(fwd, live, ids))
  {
    hide LiveList, EntriesOk, StrictlySorted, Forwarding, EntryCollected, OutsideCollected, Loc, PendingHead, Reachable,
         RootTargets, Survives, NewEntry;
    forall e | Reachable(env, m0, RootTargets(env, m0, slots), e)
      ensures exists f :: Survives(env, m0, ids, e, m, MovedIds(fwd, live, ids), f) {
      SurvivesCollection(env, m0, blocks, top, slots, pend, live, entries, m, top', fwd, ids, e);
    }
  }

  /** The references of `list` are still in `list'`, in the same order and behind all others. */
  ghost predicate PendingKept(ids: map<int, nat>, list: seq<int>, ids': map<int, nat>, list': seq<int>) {
    && |list| <= |list'|
    && forall i :: 0 <= i < |list| ==> && list[i] in ids && list'[|list'| - |list| + i] in ids'
                                       && ids'[list'[|list'| - |list| + i]] == ids[list[i]]
  }

  lemma {:induction false} PendingTail(env: Env, m0: seq<int>, fwd: map<int, nat>, entries: seq<int>, list: seq<int>, k: int)
    requires 0 <= k <= |entries| && EntriesOk(env, m0, entries)
    ensures var r := PendingAt(env, m0, fwd, entries, list, k); |list| <= |r| && r[|r| - |list|..] == list
  {
    hide EntryOk, IsEnqueued;
    if k > 0 { PendingTail(env, m0, fwd, entries, list, k - 1); }
  }

  lemma PendingKeptByCollection(env: Env, m0: seq<int>, blocks: set<int>, top: int, slots: seq<nat>, pend: nat,
                                live: set<int>, entries: seq<int>, m: seq<int>, top': int, fwd: map<int, nat>,
                                ids: map<int, nat>, prior: seq<int>)
    requires Collected(env, m0, blocks, top, slots, pend, live, entries, m, top')
    requires EntriesOk(env, m0, entries) && StrictlySorted(entries) && fwd == Forwarding(env, m0, entries)
    requires pend < |m0| == |m| && Chain(env, m0, blocks, m0[pend], prior)
    requires forall x :: x in live ==> x in fwd && x in ids
    requires forall x, y :: x in fwd && y in fwd && x < y ==> NewEntry(fwd, x) < NewEntry(fwd, y)
    ensures PendingKept(ids, prior, MovedIds(fwd, live, ids), PendingAt(env, m0, fwd, entries, ForwardList(fwd, prior), |entries|))
  {
    hide Collected, Chain, EntriesOk, StrictlySorted, Forwarding, PendingAt, PendingKept, MovedIds, NewEntry, IsMonitor;
    PriorLive(env, m0, blocks, top, slots, pend, live, entries, m, top', prior);
    PendingTail(env, m0, fwd, entries, ForwardList(fwd, prior), |entries|);
    ListKept(fwd, live, ids, prior, PendingAt(env, m0, fwd, entries, ForwardList(fwd, prior), |entries|));
  }

  lemma ListKept(fwd: map<int, nat>, live: set<int>, ids: map<int, nat>, prior: seq<int>, list: seq<int>)
    requires forall x :: x in prior ==> x in live && !IsMonitor(x)
    requires |prior| <= |list| && list[|list| - |prior|..] == ForwardList(fwd, prior)
    requires forall x :: x in live ==> x in fwd && x in ids
    requires forall x, y :: x in fwd && y in fwd && x < y ==> NewEntry(fwd, x) < NewEntry(fwd, y)
    ensures PendingKept(ids, prior, MovedIds(fwd, live, ids), list)
  {
    hide MovedIds, NewEntry, IsMonitor;
    var ids', n := MovedIds(fwd, live, ids), |list| - |prior|;
    forall i | 0 <= i < |prior| ensures prior[i] in ids && list[n + i] in ids' && ids'[list[n + i]] == ids[prior[i]] {
      assert prior[i] in prior;
      assert list[n + i] == list[n..][i] == ForwardRef(fwd, prior[i]);
      MovedId(fwd, live, ids, prior[i]);
      NewEntryPlain(fwd, prior[i]);
    }
  }

  /** What a collection leaves behind, in one place. */
  lemma AfterCollection(env: Env, m0: seq<int>, blocks: set<int>, top: int, slots: seq<nat>, pend: nat,
                        live: set<int>, entries: seq<int>, m: seq<int>, top': int,
                        ids: map<int, nat>, next: nat, hashes: map<nat, int>, prior: seq<int>)
    returns (blocks': set<int>, ids': map<int, nat>, list: seq<int>)
    requires CollectedRepeated(env, m0, blocks, top, slots, pend, live, entries, m, top') && SlotsDistinct(env, m0, slots)
    requires pend < |m0| == |m| && Chain(env, m0, blocks, m0[pend], prior) && HashesOk(m0, blocks, ids, next, hashes)
    ensures WellFormed(env, m, blocks', top') && SlotsDistinct(env, m, slots) && RootSlotsOk(env, m, blocks', slots)
    ensures Chain(env, m, blocks', m[pend], list) && HashesOk(m, blocks', ids', next, hashes)
    ensures RootsKept(env, slots, pend, m0, ids, m, ids') && GraphKept(env, slots, m0, ids, m, ids')
    ensures PendingKept(ids, prior, ids', list)
  {
    hide GraphKept, WellFormed, RootSlotsOk, Chain, HashesOk, Collected, RootsKept, EntriesOk, StrictlySorted, CollectedRepeated,
         Forwarding, SlotsDistinct, PendingKept, MovedIds, PendingAt, NewEntry, NewBlocks;
    CollectedOnce(env, m0, blocks, top, slots, pend, live, entries, m, top');
    CollectionWellFormed(env, m0, blocks, top, slots, pend, live, entries, m, top');
    var fwd := Forwarding(env, m0, entries);
    PendingListKept(env, m0, blocks, top, slots, pend, live, entries, m, top', fwd, prior);
    HashesMoved(env, m0, blocks, top, slots, pend, live, entries, m, top', fwd, ids, next, hashes);
    RootsKeptByCollection(env, m0, blocks, top, slots, pend, live, entries, m, top', fwd, ids, next, hashes);
    GraphKeptByCollection(env, m0, blocks, top, slots, pend, live, entries, m, top', fwd, ids);
    PendingKeptByCollection(env, m0, blocks, top, slots, pend, live, entries, m, top', fwd, ids, prior);
    blocks', ids' := NewBlocks(fwd), MovedIds(fwd, live, ids);
    list := PendingAt(env, m0, fwd, entries, ForwardList(fwd, prior), |entries|);
  }

  lemma EmptyHeap(env: Env, m: seq<int>, slots: seq<nat>, pend: nat)
    requires 0 < env.base <= env.limit <= |m| && pend in slots && (forall a :: 0 <= a < |m| ==> m[a] == 0)
    requires SlotsDistinct(env, m, slots)
    ensures WellFormed(env, m, {}, env.base) && RootSlotsOk(env, m, {}, slots) && pend < |m| && Chain(env, m, {}, m[pend], [])
    ensures HashesOk(m, {}, map[], 0, map[])
  {
    var i :| 0 <= i < |slots| && slots[i] == pend;
  }

  lemma HeapRefKept(env: Env, m0: seq<int>, blocks: set<int>, top: int, slots: seq<nat>, pend: nat,
                    live: set<int>, entries: seq<int>, m: seq<int>, top': int, fwd: map<int, nat>, ids: map<int, nat>, v: int)
    requires Collected(env, m0, blocks, top, slots, pend, live, entries, m, top')
    requires EntriesOk(env, m0, entries) && StrictlySorted(entries) && fwd == Forwarding(env, m0, entries)
    requires forall e :: e in live ==> e in fwd && e in ids
    requires forall e, f :: e in fwd && f in fwd && e < f ==> NewEntry(fwd, e) < NewEntry(fwd, f)
    requires v in live && !IsMonitor(v) && InHeap(env, v)
    ensures SameRef(env, m0, ids, v, m, MovedIds(fwd, live, ids), ForwardRef(fwd, v))
  {
    hide Collected, WellFormed, Reachable, LiveList, EntriesOk, StrictlySorted, Forwarding, HeaderOk, EntryOk, IsMarkWord;
    LiveFacts(env, m0, blocks, top, slots, pend, live, entries, m, top');
    NewHeaderOk(env, m0, blocks, top, slots, pend, live, entries, m, top', v);
    NewEntryTag(fwd, v);
    EvenHeaders(fwd, m0[At(v)]);
    FwdBounds(env, m0, entries, v);
    CollectedTop(env, m0, blocks, top, slots, pend, live, entries, m, top');
    assert NewEntry(fwd, v) == ForwardRef(fwd, v);
    assert NewEntry(fwd, v) in MovedIds(fwd, live, ids);
  }

  class Heap {
    const env: Env
    const mem: array<int>
    const slots: seq<nat>  // root slots, outside the heap
    const pend: nat        // the root slot that heads the list of pending references
    var top: nat           // first free word of the heap

    ghost var blocks: set<int>        // every block allocated and not yet collected
    ghost var ids: map<int, nat>      // identity of every object
    ghost var nextId: nat
    ghost var hashes: map<nat, int>   // identity hash given to each identity
    ghost var pending: seq<int>       // the pending list

    ghost predicate Valid()
      reads this, mem
    {
      && WellFormed(env, mem[..], blocks, top)
      && SlotsDistinct(env, mem[..], slots) && RootSlotsOk(env, mem[..], blocks, slots)
      && pend in slots && pend < mem.Length
      && Chain(env, mem[..], blocks, mem[pend], pending)
      && HashesOk(mem[..], blocks, ids, nextId, hashes)
    }

    /** An empty heap with null root slots. */
    constructor (env: Env, size: nat, slots: seq<nat>, pend: nat)
      requires 0 < env.base <= env.limit <= size && pend in slots
      requires forall i :: 0 <= i < |slots| ==> slots[i] < size && !(env.base <= slots[i] < env.limit)
      requires forall i, j :: 0 <= i < j < |slots| ==> slots[i] != slots[j]
      ensures Valid() && fresh(mem) && this.env == env && this.slots == slots && this.pend == pend && mem.Length == size
      ensures top == env.base && blocks == {} && hashes == map[] && pending == []
    {
      this.env, this.slots, this.pend := env, slots, pend;
      mem := new int[size](_ => 0);
      top := env.base;
      blocks, ids, nextId, hashes, pending := {}, map[], 0, map[], [];
      new;
      EmptyHeap(env, mem[..], slots, pend);
    }

    /** Run the collector.  Everything reachable survives; identities, their hashes and the meaning of every root survive. */
    method Collect()
      requires Valid()
      modifies mem, `top, `blocks, `ids, `pending
      ensures Valid() && top <= old(top)
      ensures RootsKept(env, slots, pend, old(mem[..]), old(ids), mem[..], ids)
      ensures GraphKept(env, slots, old(mem[..]), old(ids), mem[..], ids) && PendingKept(old(ids), old(pending), ids, pending)
    {
      hide GraphKept, WellFormed, RootSlotsOk, Chain, HashesOk, RootsKept, CollectedRepeated, PendingKept;
      ghost var m0, top0 := mem[..], top;
      ghost var live, order;
      top, live, order := MajorGc(env, mem, slots, pend, blocks, top);
      blocks, ids, pending := AfterCollection(env, m0, blocks, top0, slots, pend, live, order, mem[..], top, ids, nextId, hashes, pending);
    }

    /** Zero the next `words` words and give them away, collecting first if they do not fit.
        Returns their start, or 0 when they do not fit even then. */
    method BumpAllocate(words: nat) returns (p: nat)
      requires Valid()
      modifies mem, `top, `blocks, `ids, `pending
      ensures Valid()
      ensures RootsKept(env, slots, pend, old(mem[..]), old(ids), mem[..], ids)
      ensures GraphKept(env, slots, old(mem[..]), old(ids), mem[..], ids) && PendingKept(old(ids), old(pending), ids, pending)
      ensures p == 0 ==> top + words > env.limit
      ensures p != 0 ==> && env.base <= p && p + words == top <= env.limit <= mem.Length
                         && WellFormed(env, mem[..], blocks, p)
                         && forall a :: p <= a < top ==> mem[a] == 0
    {
      hide WellFormed, RootSlotsOk, Chain, HashesOk, RootsKept, GraphKept, AllSurvive, PendingKept;
      RootsKeptNow();
      GraphKeptNow();
      PendingKeptNow();
      if top + words > env.limit {
        Collect();
        if top + words > env.limit {
          return 0;
        }
      }
      ghost var m := mem[..];
      HeapBounds(env, m, blocks, top);
      p := top;
      var end := top + words;
      forall a | p <= a < end {
        mem[a] := 0;
      }
      assert SameBelow(env, m, mem[..], p);
      FreeSpaceWrites(env, m, mem[..], blocks, p, p);
      FreeSpaceWrites(env, m, mem[..], blocks, p, end);
      FreeSpaceChain(env, m, mem[..], blocks, p, mem[pend], pending);
      FreeSpaceHashes(env, m, mem[..], blocks, p, ids, nextId, hashes);
      RootsUnchanged(m);
      RootsKeptThen(old(mem[..]), old(ids), m);
      IdsAreObjects();
      SurvivesWrites(env, m, mem[..], blocks, p, ids, ids);
      GraphKeptThen(env, slots, old(mem[..]), old(ids), m, ids, mem[..], ids);
      top := end;
    }

    lemma PendingKeptNow()
      requires Valid()
      ensures PendingKept(ids, pending, ids, pending)
    {
      hide WellFormed, RootSlotsOk, Chain, IsReference, Referent;
      forall x | x in pending ensures x in ids {
        ChainMember(env, mem[..], blocks, mem[pend], pending, x);
        ReferenceIsObject(env, mem[..], blocks, x);
      }
    }

    lemma GraphKeptNow()
      requires Valid()
      ensures GraphKept(env, slots, mem[..], ids, mem[..], ids)
    {
      hide WellFormed, RootSlotsOk, Chain, AllSurvive, GraphKept, HashKnown;
      SurvivesWrites(env, mem[..], mem[..], blocks, top, ids, ids);
      AllSurviveKeeps(env, mem[..], blocks, top, slots, ids, mem[..], ids);
    }

    lemma RootsKeptNow()
      requires Valid()
      ensures RootsKept(env, slots, pend, mem[..], ids, mem[..], ids)
    {
      RootsKeptSame(env, slots, pend, mem[..], blocks, top, ids, mem[..]);
    }

    /** The root slots hold what they held in `m`. */
    lemma RootsUnchanged(m: seq<int>)
      requires SlotsDistinct(env, m, slots) && RootSlotsOk(env, m, blocks, slots) && |m| == mem.Length && env.limit <= |m|
      requires forall a :: 0 <= a < |m| && !(env.base <= a < env.limit) ==> mem[a] == m[a]
      ensures SlotsDistinct(env, mem[..], slots) && RootSlotsOk(env, mem[..], blocks, slots)
    {
    }

    lemma RootsKeptThen(m0: seq<int>, ids0: map<int, nat>, m: seq<int>)
      requires RootsKept(env, slots, pend, m0, ids0, m, ids)
      requires |m| == mem.Length && SlotsDistinct(env, m, slots) && WellFormed(env, m, blocks, top) && SameBelow(env, m, mem[..], top)
      requires forall a :: 0 <= a < |m| && !(env.base <= a < env.limit) ==> mem[a] == m[a]
      requires RootSlotsOk(env, m, blocks, slots)
      ensures RootsKept(env, slots, pend, m0, ids0, mem[..], ids)
    {
      hide WellFormed, IsMonitor;
      forall a | a in slots && a != pend ensures a < |m0| && SameRef(env, m0, ids0, m0[a], mem[..], ids, mem[a]) {
        var i :| 0 <= i < |slots| && slots[i] == a;
        assert SameRef(env, m0, ids0, m0[a], m, ids, m[a]);
        if InHeap(env, m[a]) { BlockOk(env, m, blocks, top, m[a]); }
      }
    }

    /** Allocate an object of class `cd`, with `length` elements if it is an array.  Null when memory is exhausted. */
    method NewObject(cd: int, length: nat) returns (o: int)
      requires Valid() && cd in env.classes && ClassOk(env.classes[cd]) && (env.classes[cd].Ordinary? ==> length == 0)
      modifies mem, `top, `blocks, `ids, `pending, `nextId
      ensures Valid()
      ensures o == 0 ==> nextId == old(nextId) && top + Words(env.classes[cd], length) > env.limit
      ensures o != 0 ==> nextId == old(nextId) + 1 && o in ids && ids[o] == old(nextId) && IsInstance(env, mem[..], o, cd, length)
      ensures o != 0 ==> IsBlank(env, mem[..], o)
      ensures RootsKept(env, slots, pend, old(mem[..]), old(ids), mem[..], if o == 0 then ids else ids - {o})
      ensures GraphKept(env, slots, old(mem[..]), old(ids), mem[..], ids) && PendingKept(old(ids), old(pending), ids, pending)
    {
      hide WellFormed, RootSlotsOk, Chain, HashesOk, RootsKept, ClassOk, SlotsDistinct, GraphKept, AllSurvive, PendingKept, IsInstance,
           IsBlank;
      var c := env.classes[cd];
      WordsAtLeastTwo(c, length);
      var p := BumpAllocate(Words(c, length));
      if p == 0 {
        return 0;
      }
      ghost var m, m0 := mem[..], old(mem[..]);
      PendNotInHeap();
      IdsAreObjects();
      FreeAddress(env, m, blocks, p);
      mem[p] := 1;
      mem[p + 1] := cd;
      if !c.Ordinary? {
        mem[p + 2] := length;
      }
      o := 8 * p;
      assert SameBelow(env, m, mem[..], p);
      FreshObject(env, m, mem[..], blocks, p, cd, length);
      FreeSpaceChain(env, m, mem[..], blocks, p, mem[pend], pending);
      FreeSpaceHashes(env, m, mem[..], blocks, p, ids, nextId, hashes);
      RootsUnchanged(m);
      RootsAfterObject(m0, old(ids), m, o, p);
      ChainMoreBlocks(env, mem[..], blocks, blocks + {o}, mem[pend], pending);
      AddHash(env, mem[..], blocks, p, ids, nextId, hashes, o);
      RootSlotsMore(env, mem[..], blocks, slots, o);
      NotYetKnown(m, o, p);
      SurvivesWrites(env, m, mem[..], blocks, p, ids, ids[o := nextId]);
      GraphKeptThen(env, slots, m0, old(ids), m, ids, mem[..], ids[o := nextId]);
      PendingKeptMore(old(ids), old(pending), ids, pending, o, nextId);
      ids, nextId := ids[o := nextId], nextId + 1;
      blocks := blocks + {o};
    }

    lemma PendingKeptMore(ids0: map<int, nat>, list0: seq<int>, ids1: map<int, nat>, list: seq<int>, o: int, id: nat)
      requires PendingKept(ids0, list0, ids1, list) && o !in ids1
      ensures PendingKept(ids0, list0, ids1[o := id], list)
    {
      var ids2, n := ids1[o := id], |list| - |list0|;
      forall i | 0 <= i < |list0| ensures list0[i] in ids0 && list[n + i] in ids2 && ids2[list[n + i]] == ids0[list0[i]] {
        assert list0[i] in ids0;
      }
    }

    lemma NotYetKnown(m: seq<int>, o: int, p: int)
      requires WellFormed(env, m, blocks, p) && o == 8 * p && forall e :: e in ids <==> e in blocks && !IsMonitor(e)
      ensures o !in ids
    {
      hide WellFormed, IsMonitor;
      forall e | e in ids ensures e != o { BlockOk(env, m, blocks, p, e); }
    }

    lemma RootsAfterObject(m0: seq<int>, ids0: map<int, nat>, m: seq<int>, o: int, p: int)
      requires RootsKept(env, slots, pend, m0, ids0, m, ids)
      requires |m| == mem.Length && SlotsDistinct(env, m, slots) && WellFormed(env, m, blocks, p) && SameBelow(env, m, mem[..], p)
      requires forall a :: 0 <= a < |m| && !(env.base <= a < env.limit) ==> mem[a] == m[a]
      requires RootSlotsOk(env, m, blocks, slots) && o == 8 * p
      requires forall e :: e in ids <==> e in blocks && !IsMonitor(e)
      ensures RootsKept(env, slots, pend, m0, ids0, mem[..], ids[o := nextId] - {o})
    {
      hide WellFormed, IsMonitor;
      forall e | e in ids ensures e != o { BlockOk(env, m, blocks, p, e); }
      assert ids[o := nextId] - {o} == ids;
      forall a | a in slots && a != pend ensures a < |m0| && SameRef(env, m0, ids0, m0[a], mem[..], ids, mem[a]) {
        var i :| 0 <= i < |slots| && slots[i] == a;
        assert SameRef(env, m0, ids0, m0[a], m, ids, m[a]);
        if InHeap(env, m[a]) { BlockOk(env, m, blocks, p, m[a]); }
      }
    }

    /** The first phase of `monitor_acquire`: make sure that the object held by root slot `h` has a monitor.
        The allocation may collect, so the object is read from its handle again afterwards. */
    method InflateMonitor(h: nat) returns (ok: bool)
      requires Valid() && h in slots && h != pend && InHeap(env, mem[h])
      modifies mem, `top, `blocks, `ids, `pending
      ensures Valid()
      ensures mem[h] in ids && old(mem[h]) in old(ids) && ids[mem[h]] == old(ids[mem[h]])
      ensures 0 <= At(mem[h]) < mem.Length && 0 <= old(At(mem[h])) < mem.Length
      ensures ok ==> !IsMarkWord(mem[At(mem[h])])
      ensures ok && IsMarkWord(old(mem[At(mem[h])])) ==> FreshMonitor(mem[..], mem[h], old(mem[At(mem[h])]))
      ensures !IsMarkWord(old(mem[At(mem[h])])) ==> ok && mem[..] == old(mem[..])
      ensures !ok ==> top + MONITOR_WORDS > env.limit
      ensures TargetsKept(env, slots, pend, old(mem[..]), old(ids), mem[..], ids)
      ensures GraphKept(env, slots, old(mem[..]), old(ids), mem[..], ids) && PendingKept(old(ids), old(pending), ids, pending)
    {
      hide GraphKept, AllSurvive, WellFormed, RootSlotsOk, Chain, HashesOk, RootsKept, SlotsDistinct, IsMarkWord, IsMonitor, Flagged,
           PendingKept, TargetsKept;
      HandleOk(h);
      var o := mem[h];
      var fetched := mem[At(o)];
      GraphKeptNow();
      PendingKeptNow();
      RootsKeptNow();
      KeptTargets(env, slots, pend, mem[..], ids, mem[..], ids);
      if !IsMarkWord(fetched) {
        return true;
      }
      var p := BumpAllocate(MONITOR_WORDS);
      HandleKept(old(mem[..]), old(ids), h);
      KeptTargets(env, slots, pend, old(mem[..]), old(ids), mem[..], ids);
      o := mem[h];
      if p == 0 {
        return false;
      }
      ghost var m := mem[..];
      HandleOk(h);
      ok := Install(o, p, fetched);
      KeptAll(m);
      TargetsStay(env, slots, pend, old(mem[..]), old(ids), m, ids, mem[..]);
      GraphKeptThen(env, slots, old(mem[..]), old(ids), m, ids, mem[..], ids);
    }

    lemma KeptAll(m: seq<int>)
      requires SlotsDistinct(env, m, slots)
      ensures SlotsPlaced(env, m, slots)
    {
    }

    /** Fill the fresh record at `p` and swap it into the header of `o`, which still is the mark word `fetched`. */
    method Install(o: int, p: nat, fetched: int) returns (ok: bool)
      requires Valid() && o in ids && 0 <= At(o) < mem.Length && mem[At(o)] == fetched && IsMarkWord(fetched)
      requires WellFormed(env, mem[..], blocks, p) && env.base <= p && p + MONITOR_WORDS == top <= env.limit <= mem.Length
      modifies mem, `blocks
      ensures Valid() && ok && !IsMarkWord(mem[At(o)]) && AllSurvive(env, old(mem[..]), ids, mem[..], ids)
      ensures FreshMonitor(mem[..], o, fetched)
      ensures forall a :: 0 <= a < mem.Length && !(env.base <= a < env.limit) ==> mem[a] == old(mem[a])
    {
      hide AllSurvive, WellFormed, RootSlotsOk, Chain, HashesOk, SlotsDistinct, IsMarkWord, IsMonitor, Flagged;
      ghost var m := mem[..];
      IdsAreObjects();
      PendNotInHeap();
      BlockOk(env, m, blocks, p, o);
      mem[p + 1] := fetched;
      mem[p] := FREE_MONITOR;
      if mem[At(o)] == fetched { // compare and swap
        mem[At(o)] := 8 * p;
        ok := true;
      } else {
        assert false;
        ok := false;
      }
      assert Inflated(m, mem[..], p, o);
      InflationKeeps(env, m, mem[..], blocks, p, o, mem[pend], pending, ids, nextId, hashes);
      RootsUnchanged(m);
      RootSlotsMore(env, mem[..], blocks, slots, 8 * p + 1);
      NotAMark(p);
      blocks := blocks + {8 * p + 1};
    }

    lemma HandleOk(h: nat)
      requires Valid() && h in slots && InHeap(env, mem[h])
      ensures h < mem.Length && mem[h] in ids && mem[h] in blocks && !IsMonitor(mem[h]) && 0 <= At(mem[h]) < mem.Length
      ensures !(env.base <= h < env.limit) && !(env.base <= pend < env.limit) && env.base <= At(mem[h])
      ensures forall e :: e in ids <==> e in blocks && !IsMonitor(e)
    {
      hide WellFormed;
      var i :| 0 <= i < |slots| && slots[i] == h;
      var j :| 0 <= j < |slots| && slots[j] == pend;
      assert SlotOk(env, blocks, mem[..][slots[i]]);
      BlockOk(env, mem[..], blocks, top, mem[h]);
    }

    lemma HandleKept(m0: seq<int>, ids0: map<int, nat>, h: nat)
      requires RootsKept(env, slots, pend, m0, ids0, mem[..], ids) && h in slots && h != pend && h < |m0| && InHeap(env, m0[h])
      ensures h < mem.Length && SameRef(env, m0, ids0, m0[h], mem[..], ids, mem[h])
    {
      assert mem[..][h] == mem[h];
    }

    /** Draw until a number is not zero. */
    method FirstNonzero(draws: seq<nat>) returns (hash: int)
      requires 0 < |draws| && draws[|draws| - 1] != 0
      ensures hash != 0 && hash in draws
      ensures exists i :: 0 <= i < |draws| && hash == draws[i] && forall j :: 0 <= j < i ==> draws[j] == 0
    {
      var i := 0;
      hash := draws[0];
      while hash == 0
        invariant 0 <= i < |draws| && hash == draws[i] && forall j :: 0 <= j < i ==> draws[j] == 0
        decreases |draws| - i
      {
        i := i + 1;
        hash := draws[i];
      }
    }

    /** The identity hash of `o`, computed on first use.  `draws` are the numbers that the generator
        supplies, the last of which is nonzero. */
    method HashCode(o: int, draws: seq<nat>) returns (hash: int)
      requires Valid() && o in ids
      requires 0 < |draws| && draws[|draws| - 1] != 0 && forall i :: 0 <= i < |draws| ==> draws[i] < HASH_UNIT
      modifies mem, `hashes
      ensures Valid()
      ensures hash != 0 && ids[o] in hashes && hashes[ids[o]] == hash
      ensures if ids[o] in old(hashes) then hashes == old(hashes) && mem[..] == old(mem[..]) else hashes == old(hashes)[ids[o] := hash]
      ensures ids[o] !in old(hashes) ==> hash in draws && HashAdded(old(mem[..]), mem[..], o, hash)
    {
      hide WellFormed, RootSlotsOk, Chain, SlotsDistinct, IsMarkWord, IsMonitor;
      MarkAddrWhere(env, mem[..], blocks, top, o);
      assert HashKnown(mem[..], ids[o], o, nextId, hashes);
      var a := if IsMarkWord(mem[At(o)]) then At(o) else At(mem[At(o)]) + 1;
      hash := mem[a] / HASH_UNIT;
      if hash == 0 {
        hash := FirstNonzero(draws);
        ghost var m := mem[..];
        PendNotInHeap();
        HeapBounds(env, m, blocks, top);
        HashBits(m[a], hash);
        mem[a] := mem[a] % HASH_UNIT + HASH_UNIT * hash;
        assert MarkWordWritten(m, mem[..], o);
        MarkWriteWellFormed(env, m, mem[..], blocks, top, o);
        MarkWriteChain(env, m, mem[..], blocks, top, o, mem[pend], pending);
        HashWritten(env, m, mem[..], blocks, top, o, ids, nextId, hashes, hash);
        RootsUnchanged(m);
        hashes := hashes[ids[o] := hash];
      }
    }

    lemma IdsAreObjects()
      requires HashesOk(mem[..], blocks, ids, nextId, hashes)
      ensures forall e :: e in ids <==> e in blocks && !IsMonitor(e)
    {
    }

    lemma PendNotInHeap()
      requires SlotsDistinct(env, mem[..], slots) && pend in slots
      ensures !(env.base <= pend < env.limit) && pend < mem.Length
    {
      var j :| 0 <= j < |slots| && slots[j] == pend;
    }

    /** Store a reference in slot `t` of an object.  Of the two fields that the collector itself writes, in a Reference that is
        already pending, the link may not be stored and the referent may only be cleared. */
    method StoreField(o: int, t: nat, v: int)
      requires Valid() && o in ids && EntryOk(env, mem[..], o) && (t in Strong(env, mem[..], o) || Weak(env, mem[..], o, t))
      requires SlotOk(env, blocks, v) && (o in pending ==> t != DISCOVERED && (t == REFERENT ==> v == 0))
      modifies mem
      ensures Valid() && At(o) + t < mem.Length && mem[..] == old(mem[..])[At(o) + t := v]
    {
      hide WellFormed, RootSlotsOk, Chain, SlotsDistinct, SlotOk, IsMonitor;
      ghost var m := mem[..];
      BlockOk(env, m, blocks, top, o);
      SlotInBlock(env, m, o, t);
      PendNotInHeap();
      mem[At(o) + t] := v;
      assert mem[..] == m[At(o) + t := v];
      assert SlotWritten(env, m, mem[..], o, t);
      SlotWriteWellFormed(env, m, mem[..], blocks, top, o, t);
      SlotWriteChain(env, m, mem[..], blocks, top, o, t, mem[pend], pending);
      SlotWriteHashes(env, m, mem[..], blocks, top, o, t, ids, nextId, hashes);
      HeapBounds(env, m, blocks, top);
      RootsUnchanged(m);
    }

    /** Store a reference in a root slot (a local variable, static field or handle). */
    method StoreRoot(a: nat, v: int)
      requires Valid() && a in slots && a != pend && a < mem.Length && SlotOk(env, blocks, v)
      modifies mem
      ensures Valid() && mem[..] == old(mem[..])[a := v]
    {
      hide WellFormed, Chain, HashesOk, SlotOk;
      ghost var m := mem[..];
      var i :| 0 <= i < |slots| && slots[i] == a;
      HeapBounds(env, m, blocks, top);
      mem[a] := v;
      assert SameBelow(env, m, mem[..], top);
      FreeSpaceWrites(env, m, mem[..], blocks, top, top);
      FreeSpaceChain(env, m, mem[..], blocks, top, mem[pend], pending);
      FreeSpaceHashes(env, m, mem[..], blocks, top, ids, nextId, hashes);
    }

    /** Take the whole pending list, leaving it empty. */
    method TakePending() returns (head: int)
      requires Valid()
      modifies mem, `pending
      ensures Valid() && pending == [] && mem[pend] == 0
      ensures Chain(env, mem[..], blocks, head, old(pending))
    {
      hide WellFormed, HashesOk;
      ghost var m := mem[..];
      head := mem[pend];
      PendNotInHeap();
      HeapBounds(env, m, blocks, top);
      mem[pend] := 0;
      assert SameBelow(env, m, mem[..], top);
      FreeSpaceWrites(env, m, mem[..], blocks, top, top);
      FreeSpaceChain(env, m, mem[..], blocks, top, head, pending);
      FreeSpaceHashes(env, m, mem[..], blocks, top, ids, nextId, hashes);
      pending := [];
    }
  }

  // ---------- the lemmas behind single operations ----------

  lemma WordsAtLeastTwo(c: Class, length: nat)
    requires ClassOk(c)
    ensures 2 <= Words(c, length) && (!c.Ordinary? ==> 4 <= Words(c, length))
  {
  }

  lemma FreeAddress(env: Env, m: seq<int>, blocks: set<int>, p: int)
    requires WellFormed(env, m, blocks, p)
    ensures 8 * p !in blocks
  {
    if 8 * p in blocks { BlockOk(env, m, blocks, p, 8 * p); }
  }

  lemma NotAMark(p: int)
    ensures !IsMarkWord(8 * p)
  {
  }

  lemma HashBits(w: int, hash: int)
    requires w / HASH_UNIT == 0 && 0 <= hash
    ensures (w % HASH_UNIT + HASH_UNIT * hash) % 4 == w % 4
    ensures (w % HASH_UNIT + HASH_UNIT * hash) / HASH_UNIT == hash
  {
  }

  /** A zeroed block with a clear mark word and a class is a new object. */
  lemma FreshObject(env: Env, m: seq<int>, m': seq<int>, blocks: set<int>, p: int, cd: int, length: nat)
    requires WellFormed(env, m, blocks, p) && |m'| == |m| && SameBelow(env, m, m', p)
    requires cd in env.classes && ClassOk(env.classes[cd]) && (env.classes[cd].Ordinary? ==> length == 0)
    requires p + Words(env.classes[cd], length) <= env.limit <= |m| && p + 1 < |m'|
    requires m'[p] == 1 && m'[p + 1] == cd && (!env.classes[cd].Ordinary? ==> p + 2 < |m'| && m'[p + 2] == length)
    requires forall a :: p + 2 <= a < p + Words(env.classes[cd], length) && (env.classes[cd].Ordinary? || a != p + 2) ==> m'[a] == 0
    ensures WellFormed(env, m', blocks + {8 * p}, p + Words(env.classes[cd], length))
    ensures IsInstance(env, m', 8 * p, cd, length) && IsBlank(env, m', 8 * p)
  {
    hide WellFormed, StrongSlots;
    var e, c := 8 * p, env.classes[cd];
    HeapBounds(env, m, blocks, p);
    FreeSpaceWrites(env, m, m', blocks, p, p);
    WordsAtLeastTwo(c, length);
    assert At(e) == p && !IsMonitor(e);
    assert EntryOk(env, m', e) && EntryWords(env, m', e) == Words(c, length);
    forall t | t in Strong(env, m', e) || Weak(env, m', e, t)
      ensures 0 <= t < Words(c, length) && At(e) + t < |m'| && m'[At(e) + t] == 0
    {
      FreshSlot(env, m', e, t);
    }
    AddObject(env, m', blocks, p, Words(c, length));
  }

  lemma FreshSlot(env: Env, m: seq<int>, e: int, t: int)
    requires EntryOk(env, m, e) && !IsMonitor(e) && (t in Strong(env, m, e) || Weak(env, m, e, t))
    ensures 2 <= t < EntryWords(env, m, e)
    ensures !ClassOf(env, m, At(e)).Ordinary? ==> 4 <= t
  {
    StrongSlotFacts(ClassOf(env, m, At(e)), Length(env, m, At(e)));
  }

  lemma {:induction false} ChainMoreBlocks(env: Env, m: seq<int>, blocks: set<int>, blocks': set<int>, head: int, list: seq<int>)
    requires Chain(env, m, blocks, head, list) && blocks <= blocks'
    ensures Chain(env, m, blocks', head, list)
    decreases |list|
  {
    hide EntryOk;
    if list != [] { ChainMoreBlocks(env, m, blocks, blocks', Discovered(env, m, blocks, head), list[1..]); }
  }

  lemma RootSlotsMore(env: Env, m: seq<int>, blocks: set<int>, slots: seq<nat>, e: int)
    requires SlotsDistinct(env, m, slots) && RootSlotsOk(env, m, blocks, slots)
    ensures RootSlotsOk(env, m, blocks + {e}, slots)
  {
  }

  lemma AddHash(env: Env, m: seq<int>, blocks: set<int>, p: int, ids: map<int, nat>, next: nat, hashes: map<nat, int>, o: int)
    requires HashesOk(m, blocks, ids, next, hashes) && o !in blocks && !IsMonitor(o)
    requires 0 <= At(o) < |m| && m[At(o)] == 1
    ensures HashesOk(m, blocks + {o}, ids[o := next], next + 1, hashes)
  {
    var ids' := ids[o := next];
    assert MarkAddr(m, o) == At(o) && HashOf(m, o) == 0;
    assert forall e :: e in ids ==> ids'[e] == ids[e];
  }

  lemma {:induction false} InflateChain(env: Env, m: seq<int>, m': seq<int>, blocks: set<int>, p: int, o: int, head: int, list: seq<int>)
    requires WellFormed(env, m, blocks, p) && p + MONITOR_WORDS <= env.limit
    requires o in blocks && !IsMonitor(o) && 0 <= At(o) < |m| && Inflated(m, m', p, o) && Chain(env, m, blocks, head, list)
    ensures Chain(env, m', blocks, head, list)
    decreases |list|
  {
    hide WellFormed, EntryOk, EntryWords, Strong, Inflated;
    if list != [] {
      InflateShape(env, m, m', blocks, p, o, head);
      ReferenceSlots(env, m, blocks, head);
      InflateSlot(env, m, m', blocks, p, o, head, REFERENT);
      InflateSlot(env, m, m', blocks, p, o, head, DISCOVERED);
      InflateChain(env, m, m', blocks, p, o, Discovered(env, m, blocks, head), list[1..]);
    }
  }

  /** Inflation keeps everything that `Valid` says about the heap, and every object. */
  lemma InflationKeeps(env: Env, m: seq<int>, m': seq<int>, blocks: set<int>, p: int, o: int, head: int, list: seq<int>,
                       ids: map<int, nat>, next: nat, hashes: map<nat, int>)
    requires WellFormed(env, m, blocks, p) && p + MONITOR_WORDS <= env.limit
    requires o in blocks && !IsMonitor(o) && 0 <= At(o) < |m| && IsMarkWord(m[At(o)]) && Inflated(m, m', p, o)
    requires Chain(env, m, blocks, head, list) && HashesOk(m, blocks, ids, next, hashes)
    ensures WellFormed(env, m', blocks + {8 * p + 1}, p + MONITOR_WORDS) && Chain(env, m', blocks + {8 * p + 1}, head, list)
    ensures HashesOk(m', blocks + {8 * p + 1}, ids, next, hashes) && AllSurvive(env, m, ids, m', ids)
  {
    assert forall e :: e in ids <==> e in blocks && !IsMonitor(e);
    hide WellFormed, Chain, HashesOk, AllSurvive, Inflated, IsMonitor, IsMarkWord, At;
    AddMonitor(env, m, m', blocks, p, o);
    InflateChain(env, m, m', blocks, p, o, head, list);
    ChainMoreBlocks(env, m', blocks, blocks + {8 * p + 1}, head, list);
    InflateHashes(env, m, m', blocks, p, o, ids, next, hashes);
    SurvivesInflation(env, m, m', blocks, p, o, ids);
  }

  /** Inflation copies the mark word, so it keeps every hash. */
  lemma InflateHashes(env: Env, m: seq<int>, m': seq<int>, blocks: set<int>, p: int, o: int,
                      ids: map<int, nat>, next: nat, hashes: map<nat, int>)
    requires WellFormed(env, m, blocks, p) && p + MONITOR_WORDS <= env.limit
    requires o in blocks && !IsMonitor(o) && 0 <= At(o) < |m| && IsMarkWord(m[At(o)]) && Inflated(m, m', p, o)
    requires HashesOk(m, blocks, ids, next, hashes)
    ensures HashesOk(m', blocks + {8 * p + 1}, ids, next, hashes)
  {
    hide WellFormed, IsMonitor, HeaderOk, EntryOk;
    AddMonitor(env, m, m', blocks, p, o);
    MonitorTag(p);
    forall e | e in ids ensures HashKnown(m', ids[e], e, next, hashes) {
      if e != o {
        InflateShape(env, m, m', blocks, p, o, e);
        InflateHeader(env, m, m', blocks, p, o, e);
        MarkAddrWhere(env, m, blocks, p, e);
        if MarkAddr(m, e) == At(o) {
          MarkAddrInjective(env, m, blocks, p, e, o);
        }
      }
    }
  }

  lemma HashWritten(env: Env, m: seq<int>, m': seq<int>, blocks: set<int>, top: int, o: int,
                    ids: map<int, nat>, next: nat, hashes: map<nat, int>, hash: int)
    requires WellFormed(env, m, blocks, top) && o in ids && MarkWordWritten(m, m', o)
    requires HashesOk(m, blocks, ids, next, hashes) && ids[o] !in hashes && hash != 0
    requires m'[MarkAddr(m, o)] / HASH_UNIT == hash
    ensures HashesOk(m', blocks, ids, next, hashes[ids[o] := hash])
  {
    hide WellFormed, IsMonitor, HeaderOk, EntryOk, MarkWordWritten, IsMarkWord;
    SameLength(m, m', o);
    forall e | e in ids ensures HashKnown(m', ids[e], e, next, hashes[ids[o] := hash]) {
      MarkWriteShape(env, m, m', blocks, top, o, e);
      MarkWriteHeader(env, m, m', blocks, top, o, e);
      MarkAddrWhere(env, m, blocks, top, e);
    }
  }
}
