/** The word-addressed memory that the collector works on, and what it means for a heap to be well formed.

    Memory is a sequence of eight-byte words; word `k` has byte address `8 * k`, so an aligned
    pointer to it is the number `8 * k`.  The heap occupies the words from `base` up to `limit`;
    root slots are words outside that range.

    An object starts with its header word and its class descriptor.  An odd header is a mark word
    (flags in the low half, identity hash in the high half); an even one points to a monitor record
    of two words, the second of which then holds the mark word.

    The collector names a live block by an *entry*: the address of an object, or the address of a
    monitor with the lowest bit set.
 */
module Memory {

  datatype Class =
    | Ordinary(instanceBytes: nat, refs: seq<nat>, isReference: bool)
    | ReferenceArray
    | PrimitiveArray(elementBytes: nat)

  /** Heap bounds in words, and the class descriptors, which live outside the heap. */
  datatype Env = Env(base: nat, limit: nat, classes: map<int, Class>)

  const ARRAY_DATA := 4  // array elements start 32 bytes into the array
  const REFERENT := 2    // java.lang.ref.Reference.referent
  const DISCOVERED := 5  // java.lang.ref.Reference.discovered
  const MONITOR_WORDS := 2

  predicate InHeap(env: Env, p: int) {
    8 * env.base <= p < 8 * env.limit
  }

  // ---------- mark words ----------

  /** Bit 0, IS_MARK_WORD, is set. */
  predicate IsMarkWord(w: int) { w % 4 == 1 || w % 4 == 3 }

  /** Bit 1, IS_REACHABLE, is set. */
  predicate Flagged(w: int) { w % 4 == 2 || w % 4 == 3 }

  function SetFlag(w: int): int { if Flagged(w) then w else w + 2 }

  function ClearFlag(w: int): int { if Flagged(w) then w - 2 else w }

  // ---------- entries ----------

  /** The tag of a monitor: an aligned address with the lowest bit set. */
  predicate IsMonitor(e: int) { e % 8 == 1 }

  function At(e: int): int { e / 8 }

  /** Field-list facts that class linking establishes (see module FieldLayout). */
  ghost predicate ClassOk(c: Class) {
    match c
    case Ordinary(bytes, refs, isReference) =>
      && 16 <= bytes
      && (forall i :: 0 <= i < |refs| ==> 2 <= refs[i] && 8 * refs[i] + 8 <= bytes)
      && (forall i, j :: 0 <= i < j < |refs| ==> refs[i] != refs[j])
      && (isReference ==> 0 < |refs| && refs[0] == REFERENT && DISCOVERED in refs)
    case ReferenceArray => true
    case PrimitiveArray(n) => true
  }

  /** Size of an instance in words; the collector aligns every size up to eight bytes. */
  function Words(c: Class, length: nat): nat {
    match c
    case Ordinary(bytes, _, _) => (bytes + 7) / 8
    case ReferenceArray => ARRAY_DATA + length
    case PrimitiveArray(n) => (8 * ARRAY_DATA + length * n + 7) / 8
  }

  /** Offsets of the slots that keep their target alive, in the order the collector visits them.
      The first reference of a java.lang.ref.Reference, its referent, is skipped. */
  function StrongSlots(c: Class, length: nat): seq<nat>
    requires c.Ordinary? && c.isReference ==> 0 < |c.refs|
  {
    match c
    case Ordinary(_, refs, isReference) => if isReference then refs[1..] else refs
    case ReferenceArray => seq(length, i requires 0 <= i => ARRAY_DATA + i)
    case PrimitiveArray(_) => []
  }

  ghost predicate IsWeakSlot(c: Class, t: int) {
    c.Ordinary? && c.isReference && t == REFERENT
  }

  lemma StrongSlotFacts(c: Class, length: nat)
    requires ClassOk(c)
    ensures forall i :: 0 <= i < |StrongSlots(c, length)| ==> 2 <= StrongSlots(c, length)[i] < Words(c, length)
    ensures forall i, j :: 0 <= i < j < |StrongSlots(c, length)| ==>
                             StrongSlots(c, length)[i] != StrongSlots(c, length)[j]
    ensures forall i :: 0 <= i < |StrongSlots(c, length)| ==> !IsWeakSlot(c, StrongSlots(c, length)[i])
    ensures c.Ordinary? && c.isReference ==> DISCOVERED in StrongSlots(c, length) && REFERENT < Words(c, length)
  {
  }

  /** Word `o` is the start of an object that fits in the heap. */
  ghost predicate ObjectAt(env: Env, m: seq<int>, o: int) {
    && env.base <= o && o + 1 < env.limit <= |m|
    && m[o + 1] in env.classes
    && ClassOk(env.classes[m[o + 1]])
    && (!env.classes[m[o + 1]].Ordinary? ==> o + 2 < env.limit && 0 <= m[o + 2])
    && o + Words(env.classes[m[o + 1]], Length(env, m, o)) <= env.limit
  }

  function ClassOf(env: Env, m: seq<int>, o: int): Class
    requires 0 <= o && o + 1 < |m| && m[o + 1] in env.classes
  {
    env.classes[m[o + 1]]
  }

  function Length(env: Env, m: seq<int>, o: int): nat
    requires 0 <= o && o + 1 < |m| && m[o + 1] in env.classes
  {
    if ClassOf(env, m, o).Ordinary? || o + 2 >= |m| || m[o + 2] < 0 then 0 else m[o + 2]
  }

  ghost predicate EntryOk(env: Env, m: seq<int>, e: int) {
    if IsMonitor(e) then
      env.base <= At(e) && At(e) + MONITOR_WORDS <= env.limit <= |m|
    else
      e % 8 == 0 && ObjectAt(env, m, At(e))
  }

  function EntryWords(env: Env, m: seq<int>, e: int): nat
    requires EntryOk(env, m, e)
  {
    if IsMonitor(e) then MONITOR_WORDS else Words(ClassOf(env, m, At(e)), Length(env, m, At(e)))
  }

  function Strong(env: Env, m: seq<int>, e: int): seq<nat>
    requires EntryOk(env, m, e) && !IsMonitor(e)
  {
    StrongSlots(ClassOf(env, m, At(e)), Length(env, m, At(e)))
  }

  ghost predicate Weak(env: Env, m: seq<int>, e: int, t: int)
    requires EntryOk(env, m, e) && !IsMonitor(e)
  {
    IsWeakSlot(ClassOf(env, m, At(e)), t)
  }

  /** A slot of an object holds null, a pointer out of the heap, or a pointer to an object of `blocks`. */
  ghost predicate SlotOk(env: Env, blocks: set<int>, v: int) {
    InHeap(env, v) ==> v in blocks && !IsMonitor(v)
  }

  // ---------- well-formed heaps ----------

  /** The blocks fit below `top` and do not overlap. */
  ghost predicate Placed(env: Env, m: seq<int>, blocks: set<int>, top: int) {
    && 0 < env.base <= top <= env.limit <= |m|
    && (forall e :: e in blocks ==> EntryOk(env, m, e) && At(e) + EntryWords(env, m, e) <= top)
    && (forall e, f :: e in blocks && f in blocks && e < f ==> At(e) + EntryWords(env, m, e) <= At(f))
  }

  /** A header is a clear mark word, or points to a monitor of `blocks` *above* the object.  The mark
      word that a monitor holds is clear. */
  ghost predicate HeaderOk(env: Env, m: seq<int>, blocks: set<int>, e: int)
    requires EntryOk(env, m, e)
  {
    if IsMonitor(e) then
      IsMarkWord(m[At(e) + 1]) && !Flagged(m[At(e) + 1])
    else if IsMarkWord(m[At(e)]) then
      !Flagged(m[At(e)])
    else
      m[At(e)] + 1 in blocks && IsMonitor(m[At(e)] + 1) && e < m[At(e)]
  }

  ghost predicate SharesMonitor(env: Env, m: seq<int>, e: int, f: int)
    requires EntryOk(env, m, e) && EntryOk(env, m, f)
  {
    !IsMonitor(e) && !IsMonitor(f) && !IsMarkWord(m[At(e)]) && m[At(e)] == m[At(f)]
  }

  ghost predicate HeadersOk(env: Env, m: seq<int>, blocks: set<int>)
    requires forall e :: e in blocks ==> EntryOk(env, m, e)
  {
    && (forall e :: e in blocks ==> HeaderOk(env, m, blocks, e))
    && (forall e, f :: e in blocks && f in blocks && SharesMonitor(env, m, e, f) ==> e == f)
  }

  /** No dangling pointers, strong or weak. */
  ghost predicate SlotsOk(env: Env, m: seq<int>, blocks: set<int>)
    requires forall e :: e in blocks ==> EntryOk(env, m, e)
  {
    forall e, t :: e in blocks && !IsMonitor(e) && 0 <= t < EntryWords(env, m, e) &&
                   (t in Strong(env, m, e) || Weak(env, m, e, t)) ==>
                     SlotOk(env, blocks, m[At(e) + t])
  }

  ghost predicate WellFormed(env: Env, m: seq<int>, blocks: set<int>, top: int) {
    Placed(env, m, blocks, top) && HeadersOk(env, m, blocks) && SlotsOk(env, m, blocks)
  }

  // ---------- reachability ----------

  /** `y` is held by a strong slot of `x`. */
  ghost predicate Edge(env: Env, m: seq<int>, x: int, y: int) {
    && EntryOk(env, m, x) && !IsMonitor(x) && InHeap(env, y)
    && exists i :: 0 <= i < |Strong(env, m, x)| && At(x) + Strong(env, m, x)[i] < |m| && m[At(x) + Strong(env, m, x)[i]] == y
  }

  /** `p` is a path of strong edges that starts at one of the root targets. */
  ghost predicate IsPath(env: Env, m: seq<int>, targets: set<int>, p: seq<int>) {
    && 0 < |p| && p[0] in targets
    && forall i :: 0 <= i < |p| - 1 ==> Edge(env, m, p[i], p[i + 1])
  }

  ghost predicate Reachable(env: Env, m: seq<int>, targets: set<int>, y: int) {
    exists p :: IsPath(env, m, targets, p) && p[|p| - 1] == y
  }

  lemma ReachableStep(env: Env, m: seq<int>, targets: set<int>, x: int, y: int)
    requires Reachable(env, m, targets, x) && Edge(env, m, x, y)
    ensures Reachable(env, m, targets, y)
  {
    var p :| IsPath(env, m, targets, p) && p[|p| - 1] == x;
    var q := p + [y];
    assert forall i :: 0 <= i < |q| - 1 ==> Edge(env, m, q[i], q[i + 1]);
    assert IsPath(env, m, targets, q) && q[|q| - 1] == y;
  }

  lemma ReachableRoot(env: Env, m: seq<int>, targets: set<int>, x: int)
    requires x in targets
    ensures Reachable(env, m, targets, x)
  {
    assert IsPath(env, m, targets, [x]) && [x][|[x]| - 1] == x;
  }

  /** A set that holds the root targets and is closed under strong edges holds every reachable object. */
  lemma {:induction false} ClosedHoldsPath(env: Env, m: seq<int>, targets: set<int>, s: set<int>, p: seq<int>)
    requires IsPath(env, m, targets, p) && targets <= s
    requires forall x, y :: x in s && Edge(env, m, x, y) ==> y in s
    ensures p[|p| - 1] in s
    decreases |p|
  {
    if |p| > 1 {
      var q := p[..|p| - 1];
      assert IsPath(env, m, targets, q);
      ClosedHoldsPath(env, m, targets, s, q);
      assert Edge(env, m, p[|p| - 2], p[|p| - 1]);
    }
  }

  // ---------- live entries ----------

  /** The monitor entry of an object whose header is expanded. */
  ghost function MonitorEntries(m: seq<int>, objects: set<int>): (r: set<int>)
    requires forall e :: e in objects ==> 0 <= At(e) < |m|
  {
    set e | e in objects && !IsMarkWord(m[At(e)]) :: m[At(e)] + 1
  }

  /** The objects and one tagged entry for each of their monitors. */
  ghost function WithMonitors(m: seq<int>, objects: set<int>): (r: set<int>)
    requires forall e :: e in objects ==> 0 <= At(e) < |m|
  {
    objects + MonitorEntries(m, objects)
  }
}
