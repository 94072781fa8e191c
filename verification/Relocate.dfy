/** Relocation: rewrite every pointer in the roots and in the moved blocks to the new address of its target. */
module Relocate {
  import opened Memory
  import opened Mark
  import opened PointerSort
  import opened Slide

  // ---------- what a collected block must look like ----------

  function ForwardRef(fwd: map<int, nat>, v: int): int {
    if v in fwd then 8 * fwd[v] else v
  }

  function ForwardWeak(fwd: map<int, nat>, v: int): int {
    if v in fwd then 8 * fwd[v] else 0
  }

  function ForwardHeader(fwd: map<int, nat>, h: int): int {
    if IsMarkWord(h) || h + 1 !in fwd then h else 8 * fwd[h + 1]
  }

  /** The collector clears this Reference and pushes it on the pending list. */
  predicate Enqueued(c: Class, b: seq<int>, fwd: map<int, nat>) {
    && c.Ordinary? && c.isReference && DISCOVERED < |b|
    && b[REFERENT] != 0 && b[REFERENT] !in fwd && b[DISCOVERED] == 0
  }

  /** Word `t` of a collected object whose words were `b`; `head` is the head of the pending list when
      the collector reaches the object. */
  ghost function NewWord(c: Class, length: nat, b: seq<int>, fwd: map<int, nat>, head: int, t: int): int
    requires ClassOk(c) && 0 <= t < |b|
  {
    if t == 0 then ForwardHeader(fwd, b[0])
    else if IsWeakSlot(c, t) then ForwardWeak(fwd, b[t])
    else if t == DISCOVERED && Enqueued(c, b, fwd) then head
    else if t in StrongSlots(c, length) then ForwardRef(fwd, b[t])
    else b[t]
  }

  ghost function NewObject(c: Class, length: nat, b: seq<int>, fwd: map<int, nat>, head: int): seq<int>
    requires ClassOk(c)
  {
    seq(|b|, t requires 0 <= t < |b| => NewWord(c, length, b, fwd, head, t))
  }

  ghost function BlockOf(env: Env, m: seq<int>, e: int): seq<int>
    requires EntryOk(env, m, e)
  {
    WordsBound(env, m, e);
    m[At(e)..At(e) + EntryWords(env, m, e)]
  }

  ghost predicate IsEnqueued(env: Env, m0: seq<int>, fwd: map<int, nat>, e: int)
    requires EntryOk(env, m0, e)
  {
    !IsMonitor(e) && Enqueued(ClassOf(env, m0, At(e)), BlockOf(env, m0, e), fwd)
  }

  ghost function NewBlock(env: Env, m0: seq<int>, fwd: map<int, nat>, e: int, head: int): seq<int>
    requires EntryOk(env, m0, e)
  {
    if IsMonitor(e) then BlockOf(env, m0, e)
    else NewObject(ClassOf(env, m0, At(e)), Length(env, m0, At(e)), BlockOf(env, m0, e), fwd, head)
  }

  /** Head of the pending list when the collector reaches entry `i`; it starts out as `start`. */
  ghost function PendingHead(env: Env, m0: seq<int>, fwd: map<int, nat>, entries: seq<int>, start: int, i: int): int
    requires 0 <= i <= |entries| && EntriesOk(env, m0, entries)
  {
    if i == 0 then start
    else if IsEnqueued(env, m0, fwd, entries[i - 1]) && entries[i - 1] in fwd then 8 * fwd[entries[i - 1]]
    else PendingHead(env, m0, fwd, entries, start, i - 1)
  }

  // ---------- the forwarding table ----------

  /** `entries` and `locs` are the two parallel vectors that represent the forwarding map `fwd`. */
  ghost predicate Table(entries: seq<int>, locs: seq<nat>, fwd: map<int, nat>) {
    && StrictlySorted(entries) && |locs| == |entries| && 0 !in entries
    && (forall e :: e in fwd <==> e in entries)
    && forall k :: 0 <= k < |entries| ==> entries[k] in fwd && fwd[entries[k]] == locs[k]
  }

  /** `relocate_object`: rewrite the pointer in word `a`; says whether the target is null or live. */
  method RelocateSlot(mem: array<int>, a: nat, entries: seq<int>, locs: seq<nat>, ghost fwd: map<int, nat>)
    returns (found: bool)
    requires a < mem.Length && Table(entries, locs, fwd)
    modifies mem
    ensures mem[..] == old(mem[..])[a := ForwardRef(fwd, old(mem[a]))]
    ensures found <==> old(mem[a]) == 0 || old(mem[a]) in fwd
  {
    if mem[a] == 0 {
      assert 0 !in fwd;
      return true;
    }
    var i := BinarySearch(mem[a], entries);
    if i != -1 {
      mem[a] := 8 * locs[i];
      return true;
    }
    return false;
  }

  // ---------- one block ----------

  /** Splice `b` into `m` at `l`. */
  ghost function Splice(m: seq<int>, l: int, b: seq<int>): seq<int>
    requires 0 <= l && l + |b| <= |m|
  {
    m[..l] + b + m[l + |b|..]
  }

  lemma SpliceUpdate(m: seq<int>, l: int, b: seq<int>, t: int, v: int)
    requires 0 <= l && l + |b| <= |m| && 0 <= t < |b|
    ensures Splice(m, l, b)[l + t] == b[t]
    ensures Splice(m, l, b)[l + t := v] == Splice(m, l, b[t := v])
  {
  }

  lemma SpliceSelf(m: seq<int>, l: int, n: int)
    requires 0 <= l && 0 <= n && l + n <= |m|
    ensures Splice(m, l, m[l..l + n]) == m
  {
  }

  lemma SpliceReads(m: seq<int>, l: int, b: seq<int>)
    requires 0 <= l && l + |b| <= |m|
    ensures |Splice(m, l, b)| == |m| && Splice(m, l, b)[l..l + |b|] == b
    ensures forall a :: 0 <= a < |m| && !(l <= a < l + |b|) ==> Splice(m, l, b)[a] == m[a]
  {
  }

  /** Slots `0..i` of the block are forwarded, the rest is still `b1`. */
  ghost predicate SlotsForwarded(b0: seq<int>, b1: seq<int>, slots: seq<nat>, i: int, fwd: map<int, nat>, b: seq<int>)
    requires 0 <= i <= |slots|
  {
    && |b| == |b1| == |b0|
    && forall t :: 0 <= t < |b| ==> b[t] == if t in slots[..i] then ForwardRef(fwd, b0[t]) else b1[t]
  }

  lemma SlotForwarded(b0: seq<int>, b1: seq<int>, slots: seq<nat>, i: int, fwd: map<int, nat>, b: seq<int>)
    requires 0 <= i < |slots| && SlotsForwarded(b0, b1, slots, i, fwd, b)
    requires (forall j, k :: 0 <= j < k < |slots| ==> slots[j] != slots[k]) && slots[i] < |b|
    requires b1[slots[i]] == b0[slots[i]]
    ensures b[slots[i]] == b0[slots[i]]
    ensures SlotsForwarded(b0, b1, slots, i + 1, fwd, b[slots[i] := ForwardRef(fwd, b[slots[i]])])
  {
    assert slots[i] !in slots[..i];
    assert slots[..i + 1] == slots[..i] + [slots[i]];
  }

  /** Rewrite all the strong slots of a block. */
  method RelocateSlots(mem: array<int>, l: nat, slots: seq<nat>, entries: seq<int>, locs: seq<nat>,
                       ghost fwd: map<int, nat>, ghost m: seq<int>, ghost b0: seq<int>, ghost b1: seq<int>)
    returns (ghost b: seq<int>)
    requires Table(entries, locs, fwd) && |m| == mem.Length && l + |b0| <= mem.Length && |b1| == |b0|
    requires mem[..] == Splice(m, l, b1)
    requires forall j, k :: 0 <= j < k < |slots| ==> slots[j] != slots[k]
    requires forall j :: 0 <= j < |slots| ==> slots[j] < |b0| && b1[slots[j]] == b0[slots[j]]
    modifies mem
    ensures SlotsForwarded(b0, b1, slots, |slots|, fwd, b) && mem[..] == Splice(m, l, b)
  {
    hide Splice, Table, SlotsForwarded;
    b := b1;
    NoSlotsForwarded(b0, b1, slots, fwd);
    for i := 0 to |slots|
      invariant SlotsForwarded(b0, b1, slots, i, fwd, b) && |b| == |b0| && mem[..] == Splice(m, l, b)
    {
      SlotForwarded(b0, b1, slots, i, fwd, b);
      SpliceUpdate(m, l, b, slots[i], ForwardRef(fwd, b[slots[i]]));
      assert mem[l + slots[i]] == mem[..][l + slots[i]];
      var _ := RelocateSlot(mem, l + slots[i], entries, locs, fwd);
      b := b[slots[i] := ForwardRef(fwd, b[slots[i]])];
    }
  }

  lemma NoSlotsForwarded(b0: seq<int>, b1: seq<int>, slots: seq<nat>, fwd: map<int, nat>)
    requires |b1| == |b0|
    ensures SlotsForwarded(b0, b1, slots, 0, fwd, b1)
  {
  }

  /** Rewrite the referent of a Reference; a Reference whose referent died is cleared and pushed on the
      pending list unless its `discovered` link is in use. */
  method RelocateReferent(mem: array<int>, l: nat, pend: nat, entries: seq<int>, locs: seq<nat>, ghost fwd: map<int, nat>)
    requires Table(entries, locs, fwd) && l + DISCOVERED < mem.Length && pend < mem.Length
    requires !(l <= pend <= l + DISCOVERED)
    modifies mem
    ensures var dead := old(mem[l + REFERENT]) != 0 && old(mem[l + REFERENT]) !in fwd;
            var push := dead && old(mem[l + DISCOVERED]) == 0;
            && mem[l + REFERENT] == ForwardWeak(fwd, old(mem[l + REFERENT]))
            && mem[l + DISCOVERED] == (if push then old(mem[pend]) else old(mem[l + DISCOVERED]))
            && mem[pend] == if push then 8 * l else old(mem[pend])
    ensures forall a :: 0 <= a < mem.Length && a != l + REFERENT && a != l + DISCOVERED && a != pend ==> mem[a] == old(mem[a])
  {
    ghost var before := mem[..];
    assert 0 !in fwd;
    var found := RelocateSlot(mem, l + REFERENT, entries, locs, fwd);
    assert mem[..][l + REFERENT] == ForwardRef(fwd, before[l + REFERENT]);
    assert forall a :: 0 <= a < mem.Length && a != l + REFERENT ==> mem[..][a] == before[a];
    assert mem[l + DISCOVERED] == before[l + DISCOVERED] && mem[pend] == before[pend];
    if !found {
      mem[l + REFERENT] := 0;
      if mem[l + DISCOVERED] == 0 {
        mem[l + DISCOVERED] := mem[pend];
        mem[pend] := 8 * l;
      }
    }
  }

  /** What rewriting one block leaves: its new words at `l`, and the pending list extended by it. */
  ghost predicate BlockRelocated(env: Env, m0: seq<int>, fwd: map<int, nat>, e: int, l: int, pend: int, m: seq<int>, m': seq<int>)
    requires EntryOk(env, m0, e) && 0 <= l && l + EntryWords(env, m0, e) <= |m| && 0 <= pend < |m|
  {
    && |m'| == |m|
    && m'[l..l + EntryWords(env, m0, e)] == NewBlock(env, m0, fwd, e, m[pend])
    && m'[pend] == (if IsEnqueued(env, m0, fwd, e) then 8 * l else m[pend])
    && forall a :: 0 <= a < |m| && !(l <= a < l + EntryWords(env, m0, e)) && a != pend ==> m'[a] == m[a]
  }

  lemma NewObjectPlain(c: Class, length: nat, b0: seq<int>, b: seq<int>, fwd: map<int, nat>, head: int)
    requires ClassOk(c) && |b0| == Words(c, length) && !(c.Ordinary? && c.isReference) && 0 < |b0|
    requires SlotsForwarded(b0, b0[0 := ForwardHeader(fwd, b0[0])], StrongSlots(c, length), |StrongSlots(c, length)|, fwd, b)
    ensures b == NewObject(c, length, b0, fwd, head)
  {
    StrongSlotFacts(c, length);
    var slots := StrongSlots(c, length);
    assert slots[..|slots|] == slots;
    forall t | 0 <= t < |b0| ensures b[t] == NewWord(c, length, b0, fwd, head, t) {
      assert 0 !in slots;
    }
  }

  lemma NewObjectReference(c: Class, length: nat, b0: seq<int>, b: seq<int>, fwd: map<int, nat>, head: int, b': seq<int>)
    requires ClassOk(c) && |b0| == Words(c, length) == |b'| && c.Ordinary? && c.isReference && 0 < |b0|
    requires 0 !in fwd && forall e :: e in fwd ==> 0 < fwd[e]
    requires SlotsForwarded(b0, b0[0 := ForwardHeader(fwd, b0[0])], StrongSlots(c, length), |StrongSlots(c, length)|, fwd, b)
    requires DISCOVERED < |b0| && b[REFERENT] == b0[REFERENT]
    requires b'[REFERENT] == ForwardWeak(fwd, b[REFERENT])
    requires b'[DISCOVERED] == if b[REFERENT] != 0 && b[REFERENT] !in fwd && b[DISCOVERED] == 0 then head else b[DISCOVERED]
    requires forall t :: 0 <= t < |b| && t != REFERENT && t != DISCOVERED ==> b'[t] == b[t]
    ensures b' == NewObject(c, length, b0, fwd, head)
    ensures Enqueued(c, b0, fwd) <==> b[REFERENT] != 0 && b[REFERENT] !in fwd && b[DISCOVERED] == 0
  {
    StrongSlotFacts(c, length);
    var slots := StrongSlots(c, length);
    assert slots[..|slots|] == slots;
    assert 0 !in slots && REFERENT !in slots && DISCOVERED in slots;
    assert b[DISCOVERED] == ForwardRef(fwd, b0[DISCOVERED]);
    forall t | 0 <= t < |b0| ensures b'[t] == NewWord(c, length, b0, fwd, head, t) {
    }
  }

  lemma ReferentUntouched(c: Class, length: nat, b0: seq<int>, b: seq<int>, fwd: map<int, nat>)
    requires ClassOk(c) && |b0| == Words(c, length) && c.Ordinary? && c.isReference && 0 < |b0|
    requires SlotsForwarded(b0, b0[0 := ForwardHeader(fwd, b0[0])], StrongSlots(c, length), |StrongSlots(c, length)|, fwd, b)
    ensures DISCOVERED < |b0| && b[REFERENT] == b0[REFERENT]
  {
    StrongSlotFacts(c, length);
    var slots := StrongSlots(c, length);
    assert slots[..|slots|] == slots;
    assert REFERENT !in slots;
  }

  /** Rewrite the monitor pointer of a header, if there is one. */
  method RelocateHeader(mem: array<int>, l: nat, entries: seq<int>, locs: seq<nat>, ghost fwd: map<int, nat>)
    requires l < mem.Length && Table(entries, locs, fwd)
    requires !IsMarkWord(mem[l]) ==> mem[l] + 1 in fwd
    modifies mem
    ensures mem[..] == old(mem[..])[l := ForwardHeader(fwd, old(mem[l]))]
  {
    if !IsMarkWord(mem[l]) {
      var i := BinarySearch(mem[l] + 1, entries);
      mem[l] := 8 * locs[i];
    }
  }

  /** Rewrite the header and the strong slots of one object. */
  method RelocateStrong(env: Env, mem: array<int>, l: nat, entries: seq<int>, locs: seq<nat>,
                        ghost fwd: map<int, nat>, ghost m0: seq<int>, ghost e: int)
    returns (ghost b: seq<int>)
    requires EntryOk(env, m0, e) && !IsMonitor(e) && 2 <= EntryWords(env, m0, e)
    requires Copied(m0, At(e), mem[..], l, EntryWords(env, m0, e)) && l + EntryWords(env, m0, e) <= env.limit
    requires Table(entries, locs, fwd)
    requires !IsMarkWord(m0[At(e)]) ==> m0[At(e)] + 1 in fwd
    modifies mem
    ensures |b| == EntryWords(env, m0, e) && l + |b| <= mem.Length && mem[..] == Splice(old(mem[..]), l, b)
    ensures var b0 := BlockOf(env, m0, e);
            var slots := Strong(env, m0, e);
            |b0| == |b| && SlotsForwarded(b0, b0[0 := ForwardHeader(fwd, b0[0])], slots, |slots|, fwd, b)
  {
    hide Table, SlotsForwarded, Words, ClassOk, Splice, StrongSlots, ForwardHeader;
    ghost var m := mem[..];
    ghost var n := EntryWords(env, m0, e);
    ghost var b0 := BlockOf(env, m0, e);
    assert m[l..l + n] == b0;
    CopiedShape(env, m0, e, m, l);
    SpliceSelf(m, l, n);
    SpliceUpdate(m, l, b0, 0, ForwardHeader(fwd, b0[0]));
    var c := ClassOf(env, mem[..], l);
    var length := Length(env, mem[..], l);
    StrongSlotFacts(c, length);
    var slots := StrongSlots(c, length);
    RelocateHeader(mem, l, entries, locs, fwd);
    ghost var b1 := b0[0 := ForwardHeader(fwd, b0[0])];
    b := RelocateSlots(mem, l, slots, entries, locs, fwd, m, b0, b1);
    ForwardedLength(b0, b1, slots, fwd, b);
  }

  /** Rewrite one object: header, strong slots, and referent. */
  method RelocateObject(env: Env, mem: array<int>, l: nat, pend: nat, entries: seq<int>, locs: seq<nat>,
                        ghost fwd: map<int, nat>, ghost m0: seq<int>, ghost e: int)
    requires EntryOk(env, m0, e) && !IsMonitor(e) && 2 <= EntryWords(env, m0, e)
    requires Copied(m0, At(e), mem[..], l, EntryWords(env, m0, e)) && l + EntryWords(env, m0, e) <= env.limit
    requires env.base <= l && pend < mem.Length && !(env.base <= pend < env.limit)
    requires Table(entries, locs, fwd) && forall f :: f in fwd ==> 0 < fwd[f]
    requires !IsMarkWord(m0[At(e)]) ==> m0[At(e)] + 1 in fwd
    modifies mem
    ensures BlockRelocated(env, m0, fwd, e, l, pend, old(mem[..]), mem[..])
  {
    hide Table, SlotsForwarded, NewObject, Words, Splice, Copied;
    ghost var m := mem[..];
    ghost var b0 := BlockOf(env, m0, e);
    CopiedShape(env, m0, e, m, l);
    var c := ClassOf(env, mem[..], l);
    ghost var length := Length(env, m0, At(e));
    ghost var b := RelocateStrong(env, mem, l, entries, locs, fwd, m0, e);
    SpliceReads(m, l, b);
    if c.Ordinary? && c.isReference {
      ghost var mid := mem[..];
      ReferentUntouched(c, length, b0, b, fwd);
      SpliceUpdate(m, l, b, REFERENT, 0);
      SpliceUpdate(m, l, b, DISCOVERED, 0);
      ZeroNotForwarded(entries, locs, fwd);
      RelocateReferent(mem, l, pend, entries, locs, fwd);
      ReferenceRelocated(c, length, b0, b, fwd, m[pend], l, m, mid, mem[..]);
    } else {
      NewObjectPlain(c, length, b0, b, fwd, m[pend]);
    }
  }

  lemma ForwardedLength(b0: seq<int>, b1: seq<int>, slots: seq<nat>, fwd: map<int, nat>, b: seq<int>)
    requires SlotsForwarded(b0, b1, slots, |slots|, fwd, b)
    ensures |b| == |b0|
  {
  }

  lemma ZeroNotForwarded(entries: seq<int>, locs: seq<nat>, fwd: map<int, nat>)
    requires Table(entries, locs, fwd)
    ensures 0 !in fwd
  {
  }

  lemma ReferenceRelocated(c: Class, length: nat, b0: seq<int>, b: seq<int>, fwd: map<int, nat>, head: int,
                           l: int, m: seq<int>, mid: seq<int>, m': seq<int>)
    requires ClassOk(c) && |b0| == Words(c, length) == |b| && c.Ordinary? && c.isReference && 0 < |b0|
    requires 0 !in fwd && forall e :: e in fwd ==> 0 < fwd[e]
    requires SlotsForwarded(b0, b0[0 := ForwardHeader(fwd, b0[0])], StrongSlots(c, length), |StrongSlots(c, length)|, fwd, b)
    requires 0 <= l && l + |b| <= |m| == |m'| && mid == Splice(m, l, b)
    requires DISCOVERED < |b0| && b[REFERENT] == b0[REFERENT]
    requires m'[l + REFERENT] == ForwardWeak(fwd, b[REFERENT])
    requires m'[l + DISCOVERED] == if b[REFERENT] != 0 && b[REFERENT] !in fwd && b[DISCOVERED] == 0 then head else b[DISCOVERED]
    requires forall a :: l <= a < l + |b| && a != l + REFERENT && a != l + DISCOVERED ==> m'[a] == mid[a]
    ensures m'[l..l + |b|] == NewObject(c, length, b0, fwd, head)
    ensures Enqueued(c, b0, fwd) <==> b[REFERENT] != 0 && b[REFERENT] !in fwd && b[DISCOVERED] == 0
  {
    hide SlotsForwarded, NewObject;
    var b' := m'[l..l + |b|];
    forall t | 0 <= t < |b| && t != REFERENT && t != DISCOVERED ensures b'[t] == b[t] {
      assert m'[l + t] == mid[l + t];
    }
    NewObjectReference(c, length, b0, b, fwd, head, b');
  }

  /** A moved block still has the class and length it had. */
  lemma CopiedShape(env: Env, m0: seq<int>, e: int, m: seq<int>, l: int)
    requires EntryOk(env, m0, e) && !IsMonitor(e) && 2 <= EntryWords(env, m0, e)
    requires Copied(m0, At(e), m, l, EntryWords(env, m0, e)) && l + EntryWords(env, m0, e) <= env.limit
    ensures 0 <= At(e) && l + 1 < |m| && m[l] == m0[At(e)] && m[l + 1] == m0[At(e) + 1] && m[l + 1] in env.classes
    ensures ClassOf(env, m, l) == ClassOf(env, m0, At(e)) && ClassOk(ClassOf(env, m0, At(e)))
    ensures Length(env, m, l) == Length(env, m0, At(e))
    ensures EntryWords(env, m0, e) == Words(ClassOf(env, m0, At(e)), Length(env, m0, At(e)))
  {
    var n := EntryWords(env, m0, e);
    CopiedAt(m0, At(e), m, l, n, 0);
    CopiedAt(m0, At(e), m, l, n, 1);
    if !ClassOf(env, m0, At(e)).Ordinary? {
      CopiedAt(m0, At(e), m, l, n, 2);
    }
  }
}
