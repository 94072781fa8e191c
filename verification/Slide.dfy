/** The slide: move every live block down, in address order, onto the end of the previous one. */
module Slide {
  import opened Memory
  import opened Mark
  import opened PointerSort

  ghost predicate EntriesOk(env: Env, m: seq<int>, entries: seq<int>) {
    forall k :: 0 <= k < |entries| ==> EntryOk(env, m, entries[k])
  }

  /** The sorted list of live entries that the mark phase leaves behind. */
  ghost predicate LiveList(env: Env, m0: seq<int>, blocks: set<int>, top: int, live: set<int>, entries: seq<int>) {
    && WellFormed(env, m0, blocks, top) && Objects(blocks, live)
    && (forall e :: e in live ==> 0 <= At(e) < |m0|)
    && StrictlySorted(entries) && Elements(entries) == WithMonitors(m0, live)
  }

  /** Where entry `i` goes: above all the live blocks below it, with no gaps. */
  function Loc(env: Env, m: seq<int>, entries: seq<int>, i: int): nat
    requires 0 <= i <= |entries| && EntriesOk(env, m, entries)
  {
    if i == 0 then env.base else Loc(env, m, entries, i - 1) + EntryWords(env, m, entries[i - 1])
  }

  lemma LiveListBlocks(env: Env, m0: seq<int>, blocks: set<int>, top: int, live: set<int>, entries: seq<int>)
    requires LiveList(env, m0, blocks, top, live, entries)
    ensures EntriesOk(env, m0, entries)
    ensures forall k :: 0 <= k < |entries| ==> entries[k] in blocks
    ensures forall k :: 0 <= k < |entries| && !IsMonitor(entries[k]) ==> entries[k] in live
  {
    forall k | 0 <= k < |entries|
      ensures EntryOk(env, m0, entries[k]) && entries[k] in blocks && (!IsMonitor(entries[k]) ==> entries[k] in live)
    {
      assert entries[k] in Elements(entries);
      if entries[k] !in live {
        var e :| e in live && !IsMarkWord(m0[At(e)]) && entries[k] == m0[At(e)] + 1;
        assert HeaderOk(env, m0, blocks, e);
      }
    }
  }

  /** The write pointer never passes the next live block. */
  lemma {:induction false} LocBelow(env: Env, m0: seq<int>, blocks: set<int>, top: int, entries: seq<int>, i: int)
    requires WellFormed(env, m0, blocks, top) && EntriesOk(env, m0, entries) && StrictlySorted(entries)
    requires forall k :: 0 <= k < |entries| ==> entries[k] in blocks
    requires 0 <= i <= |entries|
    ensures env.base <= Loc(env, m0, entries, i) <= top
    ensures i < |entries| ==> Loc(env, m0, entries, i) <= At(entries[i])
    ensures i < |entries| ==> At(entries[i]) + EntryWords(env, m0, entries[i]) <= top
  {
    hide WellFormed, EntryOk, EntryWords, At, IsMonitor, StrictlySorted, Loc;
    BaseBelowTop(env, m0, blocks, top);
    LocStep(env, m0, entries, i);
    if i < |entries| { BlockOk(env, m0, blocks, top, entries[i]); }
    if i > 0 {
      LocBelow(env, m0, blocks, top, entries, i - 1);
      if i < |entries| { NextBlockAbove(env, m0, blocks, top, entries, i); }
    }
  }

  lemma BaseBelowTop(env: Env, m: seq<int>, blocks: set<int>, top: int)
    requires WellFormed(env, m, blocks, top)
    ensures env.base <= top
  {
  }

  lemma LocStep(env: Env, m: seq<int>, entries: seq<int>, i: int)
    requires EntriesOk(env, m, entries) && 0 <= i <= |entries|
    ensures i == 0 ==> Loc(env, m, entries, i) == env.base
    ensures i > 0 ==> Loc(env, m, entries, i) == Loc(env, m, entries, i - 1) + EntryWords(env, m, entries[i - 1])
  {
  }

  lemma NextBlockAbove(env: Env, m0: seq<int>, blocks: set<int>, top: int, entries: seq<int>, i: int)
    requires WellFormed(env, m0, blocks, top) && EntriesOk(env, m0, entries) && StrictlySorted(entries)
    requires (forall k :: 0 <= k < |entries| ==> entries[k] in blocks) && 0 < i < |entries|
    ensures At(entries[i - 1]) + EntryWords(env, m0, entries[i - 1]) <= At(entries[i])
  {
    hide EntryOk, EntryWords;
  }

  lemma {:induction false} LocMonotone(env: Env, m: seq<int>, entries: seq<int>, i: int, j: int)
    requires EntriesOk(env, m, entries) && 0 <= i < j <= |entries|
    ensures Loc(env, m, entries, i) + EntryWords(env, m, entries[i]) <= Loc(env, m, entries, j)
  {
    if i + 1 < j { LocMonotone(env, m, entries, i, j - 1); }
  }

  // ---------- one block ----------

  /** The `n` words at `dst` of `m` are those at `src` of `m0`. */
  ghost predicate Copied(m0: seq<int>, src: int, m: seq<int>, dst: int, n: int) {
    0 <= n && 0 <= src && src + n <= |m0| && 0 <= dst && dst + n <= |m| && m[dst..dst + n] == m0[src..src + n]
  }

  lemma CopiedAt(m0: seq<int>, src: int, m: seq<int>, dst: int, n: int, t: int)
    requires Copied(m0, src, m, dst, n) && 0 <= t < n
    ensures m[dst + t] == m0[src + t]
  {
    assert m[dst..dst + n][t] == m0[src..src + n][t];
  }

  lemma CopiedKept(m0: seq<int>, src: int, m: seq<int>, m': seq<int>, dst: int, n: int, wp: int)
    requires Copied(m0, src, m, dst, n) && dst + n <= wp <= |m| == |m'| && m'[..wp] == m[..wp]
    ensures Copied(m0, src, m', dst, n)
  {
    assert m'[dst..dst + n] == m'[..wp][dst..dst + n] == m[..wp][dst..dst + n] == m[dst..dst + n];
  }

  ghost predicate AllAbove(e: int, s: set<int>) {
    forall f :: f in s ==> e < f
  }

  /** From word `lo` on, memory is the original one with exactly the flags of `flagged` set. */
  ghost predicate UnmovedFrom(env: Env, m0: seq<int>, m: seq<int>, lo: int, flagged: set<int>) {
    && |m| == |m0| && 0 <= lo
    && (forall e :: e in flagged ==> 0 <= At(e) < |m0|)
    && forall a :: lo <= a < |m| ==> m[a] == if a in Marks(m0, flagged) then m0[a] + 2 else m0[a]
  }

  /** Outside mark words the block still reads as in the original memory. */
  lemma UnmovedReads(env: Env, m0: seq<int>, m: seq<int>, blocks: set<int>, top: int, flagged: set<int>, e: int, t: int)
    requires WellFormed(env, m0, blocks, top) && Objects(blocks, flagged) && e in blocks
    requires UnmovedFrom(env, m0, m, At(e), flagged)
    requires EntryOk(env, m0, e) && 0 <= t < EntryWords(env, m0, e)
    requires (!IsMonitor(e) && t > 0) || AllAbove(e, flagged)
    ensures 0 <= At(e) && At(e) + t < |m| && m[At(e) + t] == m0[At(e) + t]
  {
    hide WellFormed;
    BlockOk(env, m0, blocks, top, e);
    if At(e) + t in Marks(m0, flagged) {
      var f :| f in flagged && MarkAddr(m0, f) == At(e) + t;
      MarkInBlock(env, m0, blocks, top, f, e);
      MonitorAbove(env, m0, blocks, top, f);
    }
  }

  lemma MonitorAbove(env: Env, m: seq<int>, blocks: set<int>, top: int, e: int)
    requires WellFormed(env, m, blocks, top) && e in blocks && !IsMonitor(e)
    ensures 0 <= At(e) < |m|
    ensures !IsMarkWord(m[At(e)]) ==> e < m[At(e)] && m[At(e)] + 1 in blocks && IsMonitor(m[At(e)] + 1)
  {
    BlockOk(env, m, blocks, top, e);
    assert HeaderOk(env, m, blocks, e);
  }

  lemma UnmovedShape(env: Env, m0: seq<int>, m: seq<int>, blocks: set<int>, top: int, flagged: set<int>, e: int)
    requires WellFormed(env, m0, blocks, top) && Objects(blocks, flagged) && e in blocks
    requires UnmovedFrom(env, m0, m, At(e), flagged)
    ensures EntryOk(env, m0, e) && EntryOk(env, m, e) && EntryWords(env, m, e) == EntryWords(env, m0, e)
  {
    hide WellFormed;
    BlockOk(env, m0, blocks, top, e);
    if !IsMonitor(e) {
      UnmovedReads(env, m0, m, blocks, top, flagged, e, 1);
      if !ClassOf(env, m0, At(e)).Ordinary? {
        UnmovedReads(env, m0, m, blocks, top, flagged, e, 2);
      }
    }
  }

  /** Clearing a flag finds the mark word where it was, because the monitor lies above its object. */
  lemma ClearUnmoved(env: Env, m0: seq<int>, m: seq<int>, blocks: set<int>, top: int, flagged: set<int>, e: int)
    requires WellFormed(env, m0, blocks, top) && Objects(blocks, flagged) && e in blocks && !IsMonitor(e) && e !in flagged
    requires UnmovedFrom(env, m0, m, At(e), flagged + {e})
    ensures 0 <= At(e) < |m| && MarkAddr(m, e) == MarkAddr(m0, e) && At(e) <= MarkAddr(m, e) < env.limit <= |m|
    ensures UnmovedFrom(env, m0, m[MarkAddr(m, e) := ClearFlag(m[MarkAddr(m, e)])], At(e), flagged)
  {
    hide WellFormed;
    BlockOk(env, m0, blocks, top, e);
    MarkAddrWhere(env, m0, blocks, top, e);
    var a := MarkAddr(m0, e);
    MarksOnlyOwn(env, m0, blocks, top, flagged + {e}, e, At(e));
    MarksOnlyOwn(env, m0, blocks, top, flagged + {e}, e, a);
    MarksOnlyOwn(env, m0, blocks, top, flagged, e, a);
    FlagToggles(m0[a]);
    assert Marks(m0, flagged + {e}) == Marks(m0, flagged) + {a};
  }

  /** Clear the flag of an object; afterwards only `flagged` objects still have theirs set. */
  method ClearReachable(env: Env, mem: array<int>, e: int,
                        ghost m0: seq<int>, ghost blocks: set<int>, ghost top: int, ghost flagged: set<int>)
    requires WellFormed(env, m0, blocks, top) && Objects(blocks, flagged) && e in blocks && !IsMonitor(e) && e !in flagged
    requires UnmovedFrom(env, m0, mem[..], At(e), flagged + {e})
    modifies mem
    ensures UnmovedFrom(env, m0, mem[..], At(e), flagged)
    ensures forall a :: 0 <= a < At(e) || top <= a < mem.Length ==> mem[a] == old(mem[a])
  {
    hide WellFormed, UnmovedFrom, Objects, ClearFlag, IsMonitor;
    ghost var before := mem[..];
    ClearUnmoved(env, m0, before, blocks, top, flagged, e);
    MarkAddrWhere(env, m0, blocks, top, e);
    var a := if IsMarkWord(mem[At(e)]) then At(e) else At(mem[At(e)]) + 1;
    mem[a] := ClearFlag(mem[a]);
    assert mem[..] == before[a := ClearFlag(before[a])];
  }

  /** Clear the flag of an object and move the block to `wp`. */
  method MoveBlock(env: Env, mem: array<int>, e: int, wp: nat,
                   ghost m0: seq<int>, ghost blocks: set<int>, ghost top: int, ghost flagged: set<int>)
    returns (size: nat)
    requires WellFormed(env, m0, blocks, top) && Objects(blocks, flagged) && e in blocks
    requires AllAbove(e, flagged)
    requires UnmovedFrom(env, m0, mem[..], At(e), if IsMonitor(e) then flagged else flagged + {e})
    requires env.base <= wp <= At(e)
    modifies mem
    ensures EntryOk(env, m0, e) && size == EntryWords(env, m0, e)
    ensures At(e) + size <= top <= env.limit <= mem.Length
    ensures Copied(m0, At(e), mem[..], wp, size)
    ensures forall a :: 0 <= a < wp || top <= a < mem.Length ==> mem[a] == old(mem[a])
    ensures UnmovedFrom(env, m0, mem[..], At(e) + size, flagged)
  {
    hide WellFormed, UnmovedFrom, EntryOk, EntryWords, IsMonitor;
    BlockOk(env, m0, blocks, top, e);
    UnmovedShape(env, m0, mem[..], blocks, top, if IsMonitor(e) then flagged else flagged + {e}, e);
    size := EntryWords(env, mem[..], e);
    if !IsMonitor(e) {
      ClearReachable(env, mem, e, m0, blocks, top, flagged);
    }
    ghost var cleared := mem[..];
    MoveReads(env, m0, cleared, blocks, top, flagged, e);
    MemMove(mem, wp, At(e), size);
    UnmovedAfterMove(env, m0, cleared, mem[..], At(e), At(e) + size, flagged);
  }

  /** memmove: source and destination may overlap. */
  method MemMove(mem: array<int>, dst: nat, src: nat, n: nat)
    requires dst <= src && src + n <= mem.Length
    modifies mem
    ensures Copied(old(mem[..]), src, mem[..], dst, n)
    ensures forall a :: 0 <= a < dst || dst + n <= a < mem.Length ==> mem[a] == old(mem[a])
  {
    forall t | 0 <= t < n {
      mem[dst + t] := mem[src + t];
    }
    assert mem[..][dst..dst + n] == old(mem[..])[src..src + n];
  }

  lemma MoveReads(env: Env, m0: seq<int>, m: seq<int>, blocks: set<int>, top: int, flagged: set<int>, e: int)
    requires WellFormed(env, m0, blocks, top) && Objects(blocks, flagged) && e in blocks
    requires UnmovedFrom(env, m0, m, At(e), flagged) && AllAbove(e, flagged)
    ensures EntryOk(env, m0, e) && 0 <= At(e) && At(e) + EntryWords(env, m0, e) <= |m| == |m0|
    ensures m[At(e)..At(e) + EntryWords(env, m0, e)] == m0[At(e)..At(e) + EntryWords(env, m0, e)]
  {
    hide WellFormed;
    BlockOk(env, m0, blocks, top, e);
    var o, n := At(e), EntryWords(env, m0, e);
    var now, was := m[o..o + n], m0[o..o + n];
    forall t | 0 <= t < n ensures now[t] == was[t] {
      UnmovedReads(env, m0, m, blocks, top, flagged, e, t);
    }
    assert now == was;
  }

  lemma UnmovedAfterMove(env: Env, m0: seq<int>, m: seq<int>, m': seq<int>, lo: int, lo': int, flagged: set<int>)
    requires UnmovedFrom(env, m0, m, lo, flagged) && lo <= lo' && |m'| == |m|
    requires forall a :: lo' <= a < |m| ==> m'[a] == m[a]
    ensures UnmovedFrom(env, m0, m', lo', flagged)
  {
  }

  // ---------- all blocks ----------

  /** The live objects from position `i` of the sorted list on. */
  ghost function ObjectsFrom(entries: seq<int>, i: int): set<int>
    requires 0 <= i <= |entries|
  {
    set k | i <= k < |entries| && !IsMonitor(entries[k]) :: entries[k]
  }

  lemma ObjectsFromStep(entries: seq<int>, i: int)
    requires 0 <= i < |entries| && StrictlySorted(entries)
    ensures ObjectsFrom(entries, i) ==
            if IsMonitor(entries[i]) then ObjectsFrom(entries, i + 1) else ObjectsFrom(entries, i + 1) + {entries[i]}
    ensures AllAbove(entries[i], ObjectsFrom(entries, i + 1))
  {
  }

  lemma ObjectsFromStart(env: Env, m0: seq<int>, blocks: set<int>, top: int, live: set<int>, entries: seq<int>)
    requires LiveList(env, m0, blocks, top, live, entries)
    ensures ObjectsFrom(entries, 0) == live
  {
    LiveListBlocks(env, m0, blocks, top, live, entries);
    forall e | e in live ensures e in ObjectsFrom(entries, 0) {
      assert e in Elements(entries);
      var k :| 0 <= k < |entries| && entries[k] == e;
    }
  }

  /** Blocks `0..i` are in place, with their original contents. */
  ghost predicate Moved(env: Env, m0: seq<int>, m: seq<int>, entries: seq<int>, i: int)
    requires 0 <= i <= |entries| && EntriesOk(env, m0, entries)
  {
    && |m| == |m0|
    && forall k :: 0 <= k < i ==> Copied(m0, At(entries[k]), m, Loc(env, m0, entries, k), EntryWords(env, m0, entries[k]))
  }

  ghost predicate OutsideSame(env: Env, m0: seq<int>, m: seq<int>) {
    |m| == |m0| && forall a :: 0 <= a < |m| && !(env.base <= a < env.limit) ==> m[a] == m0[a]
  }

  lemma MovedStep(env: Env, m0: seq<int>, m: seq<int>, m': seq<int>, entries: seq<int>, i: int)
    requires 0 <= i < |entries| && EntriesOk(env, m0, entries) && Moved(env, m0, m, entries, i) && |m'| == |m|
    requires Loc(env, m0, entries, i) <= |m| && m'[..Loc(env, m0, entries, i)] == m[..Loc(env, m0, entries, i)]
    requires Copied(m0, At(entries[i]), m', Loc(env, m0, entries, i), EntryWords(env, m0, entries[i]))
    ensures Moved(env, m0, m', entries, i + 1)
  {
    hide Copied, EntryOk, EntryWords;
    var wp := Loc(env, m0, entries, i);
    forall k | 0 <= k < i
      ensures Copied(m0, At(entries[k]), m', Loc(env, m0, entries, k), EntryWords(env, m0, entries[k]))
    {
      LocMonotone(env, m0, entries, k, i);
      CopiedKept(m0, At(entries[k]), m, m', Loc(env, m0, entries, k), EntryWords(env, m0, entries[k]), wp);
    }
  }

  /** The slide.  Afterwards every live block lies at `Loc` with the contents it had before marking. */
  method SlideDown(env: Env, mem: array<int>, entries: seq<int>,
                   ghost m0: seq<int>, ghost blocks: set<int>, ghost top: int, ghost live: set<int>)
    returns (locs: seq<nat>, wp: nat)
    requires MarkState(env, m0, mem[..], blocks, top, live) && LiveList(env, m0, blocks, top, live, entries)
    modifies mem
    ensures EntriesOk(env, m0, entries)
    ensures |locs| == |entries| && forall i :: 0 <= i < |locs| ==> locs[i] == Loc(env, m0, entries, i)
    ensures wp == Loc(env, m0, entries, |entries|) <= top
    ensures Moved(env, m0, mem[..], entries, |entries|)
    ensures OutsideSame(env, m0, mem[..])
  {
    hide WellFormed, Moved, Copied, UnmovedFrom, MarkedMem, LiveList, StrictlySorted, OutsideSame, EntryOk, EntryWords,
      Objects, ObjectsFrom, AllAbove, IsMonitor, At, Loc;
    LiveListBlocks(env, m0, blocks, top, live, entries);
    SlideStart(env, m0, mem[..], blocks, top, live, entries);
    wp, locs := env.base, [];
    for i := 0 to |entries|
      invariant wp == Loc(env, m0, entries, i)
      invariant |locs| == i && forall k :: 0 <= k < i ==> locs[k] == Loc(env, m0, entries, k)
      invariant Moved(env, m0, mem[..], entries, i) && OutsideSame(env, m0, mem[..])
      invariant i < |entries| ==> UnmovedFrom(env, m0, mem[..], At(entries[i]), ObjectsFrom(entries, i))
    {
      ghost var before := mem[..];
      SlideBounds(env, m0, blocks, top, live, entries, i);
      var size := MoveBlock(env, mem, entries[i], wp, m0, blocks, top, ObjectsFrom(entries, i + 1));
      SlideStep(env, m0, before, mem[..], top, entries, i, size);
      locs := locs + [wp];
      wp := wp + size;
    }
    SlideEnd(env, m0, blocks, top, live, entries);
  }

  lemma SlideStart(env: Env, m0: seq<int>, m: seq<int>, blocks: set<int>, top: int, live: set<int>, entries: seq<int>)
    requires MarkState(env, m0, m, blocks, top, live) && LiveList(env, m0, blocks, top, live, entries)
    ensures EntriesOk(env, m0, entries)
    ensures Loc(env, m0, entries, 0) == env.base && Moved(env, m0, m, entries, 0) && OutsideSame(env, m0, m)
    ensures 0 < |entries| ==> UnmovedFrom(env, m0, m, At(entries[0]), ObjectsFrom(entries, 0))
  {
    LiveListBlocks(env, m0, blocks, top, live, entries);
    ObjectsFromStart(env, m0, blocks, top, live, entries);
    forall a | 0 <= a < |m| && !(env.base <= a < env.limit) ensures m[a] == m0[a] {
      OutsideUnmarked(env, m0, m, blocks, top, live, a);
    }
    if 0 < |entries| { BlockOk(env, m0, blocks, top, entries[0]); }
  }

  /** One block has moved; those before it have not changed, and those behind it are still to be moved. */
  lemma SlideStep(env: Env, m0: seq<int>, before: seq<int>, m: seq<int>, top: int, entries: seq<int>, i: int, size: int)
    requires EntriesOk(env, m0, entries) && 0 <= i < |entries| && |m| == |before| && 0 <= top <= env.limit
    requires Moved(env, m0, before, entries, i) && OutsideSame(env, m0, before)
    requires env.base <= Loc(env, m0, entries, i) <= |m| && size == EntryWords(env, m0, entries[i])
    requires Copied(m0, At(entries[i]), m, Loc(env, m0, entries, i), size)
    requires forall a :: 0 <= a < Loc(env, m0, entries, i) || top <= a < |m| ==> m[a] == before[a]
    requires UnmovedFrom(env, m0, m, At(entries[i]) + size, ObjectsFrom(entries, i + 1))
    requires i + 1 < |entries| ==> At(entries[i]) + size <= At(entries[i + 1])
    ensures Moved(env, m0, m, entries, i + 1) && OutsideSame(env, m0, m)
    ensures i + 1 < |entries| ==> UnmovedFrom(env, m0, m, At(entries[i + 1]), ObjectsFrom(entries, i + 1))
  {
    hide Moved, Copied, UnmovedFrom, OutsideSame, EntryOk, EntryWords, ObjectsFrom, At, Loc;
    assert m[..Loc(env, m0, entries, i)] == before[..Loc(env, m0, entries, i)];
    MovedStep(env, m0, before, m, entries, i);
    OutsideStep(env, m0, before, m, top);
    if i + 1 < |entries| {
      UnmovedRaise(env, m0, m, At(entries[i]) + size, At(entries[i + 1]), ObjectsFrom(entries, i + 1));
    }
  }

  lemma SlideBounds(env: Env, m0: seq<int>, blocks: set<int>, top: int, live: set<int>, entries: seq<int>, i: int)
    requires LiveList(env, m0, blocks, top, live, entries) && EntriesOk(env, m0, entries) && 0 <= i < |entries|
    requires forall k :: 0 <= k < |entries| ==> entries[k] in blocks
    ensures env.base <= Loc(env, m0, entries, i) <= At(entries[i])
    ensures Loc(env, m0, entries, i + 1) == Loc(env, m0, entries, i) + EntryWords(env, m0, entries[i]) <= top <= env.limit <= |m0|
    ensures 0 <= At(entries[i])
    ensures WellFormed(env, m0, blocks, top) && Objects(blocks, ObjectsFrom(entries, i + 1))
    ensures AllAbove(entries[i], ObjectsFrom(entries, i + 1))
    ensures ObjectsFrom(entries, i) ==
            if IsMonitor(entries[i]) then ObjectsFrom(entries, i + 1) else ObjectsFrom(entries, i + 1) + {entries[i]}
    ensures i + 1 < |entries| ==> At(entries[i]) + EntryWords(env, m0, entries[i]) <= At(entries[i + 1])
  {
    LocBelow(env, m0, blocks, top, entries, i);
    LocBelow(env, m0, blocks, top, entries, i + 1);
    ObjectsFromStep(entries, i);
  }

  lemma SlideEnd(env: Env, m0: seq<int>, blocks: set<int>, top: int, live: set<int>, entries: seq<int>)
    requires LiveList(env, m0, blocks, top, live, entries)
    ensures EntriesOk(env, m0, entries) && Loc(env, m0, entries, |entries|) <= top
  {
    LiveListBlocks(env, m0, blocks, top, live, entries);
    LocBelow(env, m0, blocks, top, entries, |entries|);
  }

  lemma UnmovedRaise(env: Env, m0: seq<int>, m: seq<int>, lo: int, lo': int, flagged: set<int>)
    requires UnmovedFrom(env, m0, m, lo, flagged) && lo <= lo'
    ensures UnmovedFrom(env, m0, m, lo', flagged)
  {
  }

  lemma OutsideStep(env: Env, m0: seq<int>, m: seq<int>, m': seq<int>, top: int)
    requires OutsideSame(env, m0, m) && |m'| == |m| && 0 <= top <= env.limit
    requires forall a :: (0 <= a < env.base || top <= a < |m|) && a < |m| ==> m'[a] == m[a]
    ensures OutsideSame(env, m0, m')
  {
  }
}
