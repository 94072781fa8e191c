/** Reentrant monitors.  The code between two yields is one atomic step. */
module Monitors {

  const NOT_HELD := -1
  const U32: int := 0x1_0000_0000

  /** An object's header word: a mark word, or a pointer to a record that holds the mark word, the owner's
      thread id and an unsigned 32-bit hold count. */
  datatype Header = Plain(mark: int) | Inflated(mark: int, tid: int, hold: int)

  /** A call finishes with a result, or yields and is retried later. */
  datatype Outcome = Done(result: int) | Yield

  // ---------- one monitor ----------

  function Inflate(hd: Header): Header {
    if hd.Plain? then Inflated(hd.mark, NOT_HELD, 0) else hd
  }

  /** One attempt of `monitor_acquire`; `memory` says whether a record could be allocated. */
  function TryAcquire(hd: Header, t: nat, memory: bool): (Header, Outcome) {
    if hd.Plain? && !memory then (hd, Done(-1))
    else
      var lock := Inflate(hd);
      if lock.tid == NOT_HELD then (lock.(tid := t, hold := 1), Done(0))
      else if lock.tid == t then (lock.(hold := (lock.hold + 1) % U32), Done(0))
      else (lock, Yield)
  }

  /** One attempt of `monitor_reacquire_hold_count`. */
  function TryReacquire(hd: Header, t: nat, count: int): (Header, Outcome)
    requires hd.Inflated?
  {
    if hd.tid == NOT_HELD then (hd.(tid := t, hold := count % U32), Done(0))
    else if hd.tid == t then (hd, Done(-1))
    else (hd, Yield)
  }

  /** `current_thread_hold_count`. */
  function HoldCount(hd: Header, t: nat): int {
    if hd.Inflated? && hd.tid == t then hd.hold else 0
  }

  /** `monitor_release_all_hold_count`: the released count, zero on failure. */
  function ReleaseAll(hd: Header, t: nat): (Header, int) {
    if HoldCount(hd, t) == 0 then (hd, 0) else (hd.(tid := NOT_HELD, hold := 0), hd.hold)
  }

  /** `monitor_release`. */
  function Release(hd: Header, t: nat): (Header, int) {
    if HoldCount(hd, t) == 0 then (hd, -1)
    else if hd.hold == 1 then (hd.(tid := NOT_HELD, hold := 0), 0)
    else (hd.(hold := hd.hold - 1), 0)
  }

  /** Object `o` alone has changed, and it has kept its mark word. */
  ghost predicate OnlyChanged(hs: seq<Header>, hs': seq<Header>, o: nat) {
    |hs'| == |hs| && o < |hs| && hs'[o].mark == hs[o].mark && forall p :: 0 <= p < |hs| && p != o ==> hs'[p] == hs[p]
  }

  /** The monitor of `hd` is held by thread `t`, `count` times. */
  ghost predicate HeldBy(hd: Header, t: nat, count: int) {
    hd.Inflated? && hd.tid == t && hd.hold == count
  }

  ghost predicate Free(hd: Header) {
    hd.Plain? || hd.tid == NOT_HELD
  }

  /** The code itself: header words and monitor records updated in place.  Each contract first says what happens to owner and
      count, and then that this is the attempt that the transition system below is made of. */
  class MonitorTable {
    var headers: seq<Header>

    /** Enter: wait for another owner, else hold the monitor once more. */
    method Acquire(t: nat, o: nat, memory: bool) returns (outcome: Outcome)
      requires o < |headers|
      modifies this
      ensures OnlyChanged(old(headers), headers, o)
      ensures outcome == Done(-1) <==> old(headers[o]).Plain? && !memory
      ensures outcome == Yield <==> !Free(old(headers[o])) && old(headers[o]).tid != t
      ensures outcome != Done(0) ==> headers == old(headers)
      ensures outcome == Done(0) ==> HeldBy(headers[o], t, if Free(old(headers[o])) then 1 else (HoldCount(old(headers[o]), t) + 1) % U32)
      ensures headers[o] == TryAcquire(old(headers[o]), t, memory).0 && outcome == TryAcquire(old(headers[o]), t, memory).1
    {
      while headers[o].Plain?
        invariant headers == old(headers) || (memory && headers == old(headers)[o := Inflate(old(headers[o]))])
        decreases headers[o].Plain?
      {
        if !memory {
          return Done(-1);
        }
        headers := headers[o := Inflated(headers[o].mark, NOT_HELD, 0)];
      }
      var lock := headers[o];
      if lock.tid == NOT_HELD {
        headers := headers[o := lock.(tid := t, hold := 1)];
        return Done(0);
      }
      if lock.tid == t {
        headers := headers[o := lock.(hold := (lock.hold + 1) % U32)];
        return Done(0);
      }
      outcome := Yield;
    }

    /** Reenter after a wait: wait for another owner, fail for the own one, else hold the monitor `count` times. */
    method Reacquire(t: nat, o: nat, count: int) returns (outcome: Outcome)
      requires o < |headers| && headers[o].Inflated?
      modifies this
      ensures OnlyChanged(old(headers), headers, o)
      ensures outcome == Done(0) <==> Free(old(headers[o]))
      ensures outcome == Yield <==> !Free(old(headers[o])) && old(headers[o]).tid != t
      ensures outcome != Done(0) ==> headers == old(headers)
      ensures outcome == Done(0) ==> HeldBy(headers[o], t, count % U32)
      ensures headers[o] == TryReacquire(old(headers[o]), t, count).0 && outcome == TryReacquire(old(headers[o]), t, count).1
    {
      var lock := headers[o];
      if lock.tid == NOT_HELD {
        headers := headers[o := lock.(tid := t, hold := count % U32)];
        return Done(0);
      }
      if lock.tid == t {
        return Done(-1);
      }
      outcome := Yield;
    }

    /** Give up all holds: the count that a thread sees is what it gets back, and nobody holds the monitor afterwards. */
    method MonitorReleaseAll(t: nat, o: nat) returns (count: int)
      requires o < |headers|
      modifies this
      ensures OnlyChanged(old(headers), headers, o) && count == HoldCount(old(headers[o]), t)
      ensures if count == 0 then headers == old(headers) else Free(headers[o]) && headers[o].Inflated? && headers[o].hold == 0
      ensures headers[o] == ReleaseAll(old(headers[o]), t).0 && count == ReleaseAll(old(headers[o]), t).1
    {
      var lock := headers[o];
      if lock.Plain? || lock.tid != t || lock.hold == 0 {
        return 0;
      }
      count := lock.hold;
      headers := headers[o := lock.(hold := 0)];
      headers := headers[o := headers[o].(tid := NOT_HELD)];
    }

    /** Give up one hold: only for a thread that sees one, and with the last one the monitor becomes free. */
    method MonitorRelease(t: nat, o: nat) returns (result: int)
      requires o < |headers|
      modifies this
      ensures OnlyChanged(old(headers), headers, o)
      ensures result == if HoldCount(old(headers[o]), t) == 0 then -1 else 0
      ensures result == -1 ==> headers == old(headers)
      ensures result == 0 ==> old(headers[o]).Inflated? && HoldCount(headers[o], t) == HoldCount(old(headers[o]), t) - 1
      ensures result == 0 ==> if old(headers[o]).hold == 1 then headers[o].Inflated? && Free(headers[o]) && headers[o].hold == 0
                              else HeldBy(headers[o], t, old(headers[o]).hold - 1)
      ensures headers[o] == Release(old(headers[o]), t).0 && result == Release(old(headers[o]), t).1
    {
      var lock := headers[o];
      if lock.Plain? || lock.tid != t || lock.hold == 0 {
        return -1;
      }
      var count := lock.hold - 1;
      headers := headers[o := lock.(hold := count)];
      if count == 0 {
        headers := headers[o := headers[o].(tid := NOT_HELD)];
      }
      result := 0;
    }
  }

  // ---------- threads ----------

  /** Entering and Reentering threads have yielded in a retry loop; a Waiting thread is in `Object.wait`. */
  datatype Pc = Running | Entering(o: nat) | Waiting(o: nat, count: int) | Reentering(o: nat, count: int)

  /** History: completed operations on monitors. */
  datatype Event =
    | Acquired(t: nat, o: nat)
    | Released(t: nat, o: nat)
    | ReleasedAll(t: nat, o: nat)
    | Reacquired(t: nat, o: nat, count: int)

  datatype World = World(headers: seq<Header>, pcs: seq<Pc>, log: seq<Event>)

  datatype Action =
    | Enter(t: nat, o: nat, memory: bool)
    | Retry(t: nat)
    | Exit(t: nat, o: nat)
    | Wait(t: nat, o: nat)
    | Notified(t: nat)

  predicate Enabled(w: World, a: Action) {
    && a.t < |w.pcs|
    && match a
       case Enter(t, o, _) => w.pcs[t] == Running && o < |w.headers|
       case Retry(t) => (w.pcs[t].Entering? || w.pcs[t].Reentering?) && w.pcs[t].o < |w.headers| && w.headers[w.pcs[t].o].Inflated?
       case Exit(t, o) => w.pcs[t] == Running && o < |w.headers|
       case Wait(t, o) => w.pcs[t] == Running && o < |w.headers|
       case Notified(t) => w.pcs[t].Waiting? && w.pcs[t].o < |w.headers| && w.headers[w.pcs[t].o].Inflated?
  }

  /** The state after an attempt of thread `t` on object `o`. */
  function After(w: World, t: nat, o: nat, hd: Header, pc: Pc, events: seq<Event>): World
    requires t < |w.pcs| && o < |w.headers|
  {
    World(w.headers[o := hd], w.pcs[t := pc], w.log + events)
  }

  function AcquireStep(w: World, t: nat, o: nat, memory: bool): World
    requires t < |w.pcs| && o < |w.headers|
  {
    var (hd, outcome) := TryAcquire(w.headers[o], t, memory);
    match outcome
    case Yield => After(w, t, o, hd, Entering(o), [])
    case Done(r) => After(w, t, o, hd, Running, if r == 0 then [Acquired(t, o)] else [])
  }

  function ReacquireStep(w: World, t: nat, o: nat, count: int): World
    requires t < |w.pcs| && o < |w.headers| && w.headers[o].Inflated?
  {
    var (hd, outcome) := TryReacquire(w.headers[o], t, count);
    match outcome
    case Yield => After(w, t, o, hd, Reentering(o, count), [])
    case Done(r) => After(w, t, o, hd, Running, if r == 0 then [Reacquired(t, o, count)] else [])
  }

  function Apply(w: World, a: Action): World
    requires Enabled(w, a)
  {
    match a
    case Enter(t, o, memory) => AcquireStep(w, t, o, memory)
    case Retry(t) => if w.pcs[t].Entering? then AcquireStep(w, t, w.pcs[t].o, true) else ReacquireStep(w, t, w.pcs[t].o, w.pcs[t].count)
    case Exit(t, o) =>
      var (hd, r) := Release(w.headers[o], t);
      After(w, t, o, hd, Running, if r == 0 then [Released(t, o)] else [])
    case Wait(t, o) =>
      var (hd, count) := ReleaseAll(w.headers[o], t);
      if count == 0 then After(w, t, o, hd, Running, []) else After(w, t, o, hd, Waiting(o, count), [ReleasedAll(t, o)])
    case Notified(t) => ReacquireStep(w, t, w.pcs[t].o, w.pcs[t].count)
  }

  // ---------- unmatched acquires ----------

  /** How many acquires of `o` by `t` in the log are unmatched.  A wait takes them all away, and gives back
      those that it took. */
  function Unmatched(log: seq<Event>, t: nat, o: nat): int {
    if log == [] then 0
    else
      var rest, e := Unmatched(log[..|log| - 1], t, o), log[|log| - 1];
      if e.t != t || e.o != o then rest
      else
        match e
        case Acquired(_, _) => rest + 1
        case Released(_, _) => rest - 1
        case ReleasedAll(_, _) => 0
        case Reacquired(_, _, count) => count
  }

  lemma UnmatchedSnoc(log: seq<Event>, e: Event, t: nat, o: nat)
    ensures Unmatched(log + [e], t, o) == if e.t != t || e.o != o then Unmatched(log, t, o)
                                          else match e
                                               case Acquired(_, _) => Unmatched(log, t, o) + 1
                                               case Released(_, _) => Unmatched(log, t, o) - 1
                                               case ReleasedAll(_, _) => 0
                                               case Reacquired(_, _, count) => count
  {
    assert (log + [e])[..|log + [e]| - 1] == log;
  }

  // ---------- the invariant ----------

  /** Thread ids are valid and counts are 32-bit; nobody holds a monitor with a free owner field. */
  ghost predicate HeaderOk(w: World, o: int)
    requires 0 <= o < |w.headers|
  {
    var hd := w.headers[o];
    hd.Inflated? ==> (hd.tid == NOT_HELD || 0 <= hd.tid < |w.pcs|) && 0 <= hd.hold < U32 && (hd.tid == NOT_HELD ==> hd.hold == 0)
  }

  /** The count that a thread sees is the number of its unmatched acquires, modulo 2^32. */
  ghost predicate CountOk(w: World, t: nat, o: nat)
    requires o < |w.headers|
  {
    Unmatched(w.log, t, o) % U32 == HoldCount(w.headers[o], t) % U32
  }

  /** A suspended thread waits for an existing monitor record that it does not own; one in `wait` has a count to restore. */
  ghost predicate PcOk(w: World, t: int)
    requires 0 <= t < |w.pcs|
  {
    var pc := w.pcs[t];
    && (pc != Running ==> pc.o < |w.headers| && w.headers[pc.o].Inflated? && w.headers[pc.o].tid != t)
    && (pc.Waiting? || pc.Reentering? ==> 0 < pc.count < U32)
  }

  ghost predicate Inv(w: World) {
    && (forall o :: 0 <= o < |w.headers| ==> HeaderOk(w, o))
    && (forall t, o :: 0 <= t < |w.pcs| && 0 <= o < |w.headers| ==> CountOk(w, t, o))
    && (forall t :: 0 <= t < |w.pcs| ==> PcOk(w, t))
  }

  // ---------- every step keeps the invariant ----------

  /** `t` may inflate a header, take a free monitor, and change or free its own. */
  ghost predicate HeaderStep(hd: Header, hd': Header, t: nat) {
    && hd'.mark == hd.mark && (hd.Inflated? ==> hd'.Inflated?)
    && (hd'.Inflated? ==> 0 <= hd'.hold < U32 && (hd'.tid == NOT_HELD ==> hd'.hold == 0))
    && (hd'.Inflated? ==> hd' == Inflate(hd) || (Inflate(hd).tid in {NOT_HELD, t} && hd'.tid in {NOT_HELD, t}))
  }

  lemma AfterKeeps(w: World, t: nat, o: nat, hd: Header, pc: Pc, events: seq<Event>)
    requires Inv(w) && t < |w.pcs| && o < |w.headers| && HeaderStep(w.headers[o], hd, t)
    requires events == [] || (|events| == 1 && events[0].t == t && events[0].o == o)
    requires Unmatched(w.log + events, t, o) % U32 == HoldCount(hd, t) % U32
    requires pc == Running || (pc.o == o && hd.Inflated? && hd.tid != t && (pc.Entering? || 0 < pc.count < U32))
    ensures Inv(After(w, t, o, hd, pc, events))
  {
    hide Unmatched;
    var w' := After(w, t, o, hd, pc, events);
    assert HeaderOk(w, o);
    forall u, p | 0 <= u < |w'.pcs| && 0 <= p < |w'.headers| ensures CountOk(w', u, p) {
      assert CountOk(w, u, p);
      if events != [] {
        UnmatchedSnoc(w.log, events[0], u, p);
        assert w.log + events == w.log + [events[0]];
      } else {
        assert w.log + events == w.log;
      }
    }
    forall u | 0 <= u < |w'.pcs| ensures PcOk(w', u) { assert PcOk(w, u); }
    forall p | 0 <= p < |w'.headers| ensures HeaderOk(w', p) { assert HeaderOk(w, p); }
  }

  lemma ModUnique(x: int, q: int, r: int)
    requires x == U32 * q + r && 0 <= r < U32
    ensures x % U32 == r
  {
  }

  lemma ModShift(a: int, b: int, d: int)
    requires a % U32 == b % U32
    ensures (a + d) % U32 == (b + d) % U32
  {
    ModUnique(a + d, (b + d) / U32 + a / U32 - b / U32, (b + d) % U32);
  }

  lemma AcquireKeeps(w: World, t: nat, o: nat, memory: bool)
    requires Inv(w) && t < |w.pcs| && o < |w.headers|
    ensures Inv(AcquireStep(w, t, o, memory))
  {
    hide Unmatched, Inv;
    HeaderFacts(w, t, o);
    var (hd, outcome) := TryAcquire(w.headers[o], t, memory);
    var events := if outcome == Done(0) then [Acquired(t, o)] else [];
    if outcome == Done(0) {
      UnmatchedSnoc(w.log, Acquired(t, o), t, o);
      ModShift(Unmatched(w.log, t, o), HoldCount(w.headers[o], t), 1);
    } else {
      assert w.log + events == w.log;
    }
    AfterKeeps(w, t, o, hd, if outcome.Yield? then Entering(o) else Running, events);
  }

  lemma HeaderFacts(w: World, t: nat, o: nat)
    requires Inv(w) && t < |w.pcs| && o < |w.headers|
    ensures HeaderOk(w, o) && CountOk(w, t, o) && PcOk(w, t)
  {
  }

  lemma ReacquireKeeps(w: World, t: nat, o: nat, count: int)
    requires Inv(w) && t < |w.pcs| && o < |w.headers| && w.headers[o].Inflated? && w.headers[o].tid != t && 0 < count < U32
    ensures Inv(ReacquireStep(w, t, o, count))
    ensures ReacquireStep(w, t, o, count).pcs[t] in {Running, Reentering(o, count)}
    ensures ReacquireStep(w, t, o, count).pcs[t] == Running ==> HoldCount(ReacquireStep(w, t, o, count).headers[o], t) == count
  {
    hide Unmatched, Inv;
    HeaderFacts(w, t, o);
    var (hd, outcome) := TryReacquire(w.headers[o], t, count);
    var events := if outcome == Done(0) then [Reacquired(t, o, count)] else [];
    if outcome == Done(0) { UnmatchedSnoc(w.log, Reacquired(t, o, count), t, o); } else { assert w.log + events == w.log; }
    AfterKeeps(w, t, o, hd, if outcome.Yield? then Reentering(o, count) else Running, events);
  }

  lemma ExitKeeps(w: World, t: nat, o: nat)
    requires Inv(w) && Enabled(w, Exit(t, o))
    ensures Inv(Apply(w, Exit(t, o)))
  {
    hide Unmatched, Inv;
    HeaderFacts(w, t, o);
    var (hd, r) := Release(w.headers[o], t);
    var events := if r == 0 then [Released(t, o)] else [];
    if r == 0 {
      UnmatchedSnoc(w.log, Released(t, o), t, o);
      ModShift(Unmatched(w.log, t, o), HoldCount(w.headers[o], t), -1);
    } else {
      assert w.log + events == w.log;
    }
    AfterKeeps(w, t, o, hd, Running, events);
  }

  lemma WaitKeeps(w: World, t: nat, o: nat)
    requires Inv(w) && Enabled(w, Wait(t, o))
    ensures Inv(Apply(w, Wait(t, o)))
  {
    hide Unmatched, Inv;
    HeaderFacts(w, t, o);
    var (hd, count) := ReleaseAll(w.headers[o], t);
    var events := if count == 0 then [] else [ReleasedAll(t, o)];
    if count != 0 { UnmatchedSnoc(w.log, ReleasedAll(t, o), t, o); } else { assert w.log + events == w.log; }
    AfterKeeps(w, t, o, hd, if count == 0 then Running else Waiting(o, count), events);
  }

  lemma StepKeeps(w: World, a: Action)
    requires Inv(w) && Enabled(w, a)
    ensures Inv(Apply(w, a))
  {
    hide Inv, Unmatched;
    if a.t < |w.pcs| && w.pcs[a.t] != Running { assert PcOk(w, a.t) by { PcFacts(w, a.t); } }
    match a
    case Enter(t, o, memory) => AcquireKeeps(w, t, o, memory);
    case Retry(t) => if w.pcs[t].Entering? { AcquireKeeps(w, t, w.pcs[t].o, true); } else
        { ReacquireKeeps(w, t, w.pcs[t].o, w.pcs[t].count); }
    case Exit(t, o) => ExitKeeps(w, t, o);
    case Wait(t, o) => WaitKeeps(w, t, o);
    case Notified(t) => ReacquireKeeps(w, t, w.pcs[t].o, w.pcs[t].count);
  }

  lemma PcFacts(w: World, t: nat)
    requires Inv(w) && t < |w.pcs|
    ensures PcOk(w, t)
  {
  }

  // ---------- runs ----------

  /** Any threads take any enabled steps, in any order, starting with no monitor inflated. */
  ghost predicate IsRun(ws: seq<World>, acts: seq<Action>) {
    && |ws| == |acts| + 1 && ws[0].log == [] && (forall o :: 0 <= o < |ws[0].headers| ==> ws[0].headers[o].Plain?)
    && (forall t :: 0 <= t < |ws[0].pcs| ==> ws[0].pcs[t] == Running)
    && forall i :: 0 <= i < |acts| ==> Enabled(ws[i], acts[i]) && ws[i + 1] == Apply(ws[i], acts[i])
  }

  lemma {:induction false} RunInv(ws: seq<World>, acts: seq<Action>, i: nat)
    requires IsRun(ws, acts) && i < |ws|
    ensures Inv(ws[i]) && |ws[i].headers| == |ws[0].headers| && |ws[i].pcs| == |ws[0].pcs|
  {
    if i > 0 {
      RunInv(ws, acts, i - 1);
      assert ws[i - 1 + 1] == Apply(ws[i - 1], acts[i - 1]);
      StepKeeps(ws[i - 1], acts[i - 1]);
    }
  }

  /** Step `a` would be the owner's 2^32-th unmatched acquire. */
  predicate Overflows(w: World, a: Action) {
    a.Enter? && a.o < |w.headers| && HoldCount(w.headers[a.o], a.t) == U32 - 1
  }

  /** Counts are exact, and a monitor has an owner exactly when its count is positive. */
  ghost predicate Exact(w: World) {
    && (forall t, o :: 0 <= t < |w.pcs| && 0 <= o < |w.headers| ==> Unmatched(w.log, t, o) == HoldCount(w.headers[o], t))
    && (forall o :: 0 <= o < |w.headers| && w.headers[o].Inflated? ==> (w.headers[o].tid == NOT_HELD <==> w.headers[o].hold == 0))
  }

  lemma ExactAfter(w: World, t: nat, o: nat, hd: Header, pc: Pc, events: seq<Event>)
    requires Inv(w) && Exact(w) && t < |w.pcs| && o < |w.headers| && HeaderStep(w.headers[o], hd, t)
    requires events == [] || (|events| == 1 && events[0].t == t && events[0].o == o)
    requires Unmatched(w.log + events, t, o) == HoldCount(hd, t)
    requires hd.Inflated? ==> (hd.tid == NOT_HELD <==> hd.hold == 0)
    ensures Exact(After(w, t, o, hd, pc, events))
  {
    hide Unmatched;
    var w' := After(w, t, o, hd, pc, events);
    assert HeaderOk(w, o);
    forall u, p | 0 <= u < |w'.pcs| && 0 <= p < |w'.headers| ensures Unmatched(w'.log, u, p) == HoldCount(w'.headers[p], u) {
      if events != [] {
        UnmatchedSnoc(w.log, events[0], u, p);
        assert w.log + events == w.log + [events[0]];
      } else {
        assert w.log + events == w.log;
      }
    }
  }

  lemma ExactAcquire(w: World, t: nat, o: nat, memory: bool)
    requires Inv(w) && Exact(w) && t < |w.pcs| && o < |w.headers| && HoldCount(w.headers[o], t) != U32 - 1
    ensures Exact(AcquireStep(w, t, o, memory))
  {
    hide Unmatched, Inv;
    HeaderFacts(w, t, o);
    var (hd, outcome) := TryAcquire(w.headers[o], t, memory);
    var events := if outcome == Done(0) then [Acquired(t, o)] else [];
    UnmatchedSnoc(w.log, Acquired(t, o), t, o);
    assert w.log + [] == w.log;
    ExactAfter(w, t, o, hd, if outcome.Yield? then Entering(o) else Running, events);
  }

  lemma ExactReacquire(w: World, t: nat, o: nat, count: int)
    requires Inv(w) && Exact(w) && t < |w.pcs| && o < |w.headers| && w.headers[o].Inflated? && w.headers[o].tid != t && 0 < count < U32
    ensures Exact(ReacquireStep(w, t, o, count))
  {
    hide Unmatched, Inv;
    HeaderFacts(w, t, o);
    var (hd, outcome) := TryReacquire(w.headers[o], t, count);
    var events := if outcome == Done(0) then [Reacquired(t, o, count)] else [];
    UnmatchedSnoc(w.log, Reacquired(t, o, count), t, o);
    assert w.log + [] == w.log;
    ExactAfter(w, t, o, hd, if outcome.Yield? then Reentering(o, count) else Running, events);
  }

  lemma ExactRelease(w: World, a: Action)
    requires Inv(w) && Exact(w) && Enabled(w, a) && (a.Exit? || a.Wait?)
    ensures Exact(Apply(w, a))
  {
    hide Unmatched, Inv;
    var t, o := a.t, a.o;
    HeaderFacts(w, t, o);
    UnmatchedSnoc(w.log, Released(t, o), t, o);
    UnmatchedSnoc(w.log, ReleasedAll(t, o), t, o);
    assert w.log + [] == w.log;
    if a.Exit? {
      var (hd, r) := Release(w.headers[o], t);
      ExactAfter(w, t, o, hd, Running, if r == 0 then [Released(t, o)] else []);
    } else {
      var (hd, count) := ReleaseAll(w.headers[o], t);
      ExactAfter(w, t, o, hd, if count == 0 then Running else Waiting(o, count), if count == 0 then [] else [ReleasedAll(t, o)]);
    }
  }

  /** A step keeps the counts exact if and only if it is not the 2^32-th nested acquire: then the 32-bit
      count wraps to zero while the monitor is still owned. */
  lemma ExactUnlessOverflow(w: World, a: Action)
    requires Inv(w) && Exact(w) && Enabled(w, a)
    ensures Exact(Apply(w, a)) <==> !Overflows(w, a)
  {
    hide Inv, Unmatched, Exact;
    PcFacts(w, a.t);
    if Overflows(w, a) {
      WrapsToZero(w, a);
    } else {
      match a
      case Enter(t, o, memory) => ExactAcquire(w, t, o, memory);
      case Retry(t) => if w.pcs[t].Entering? { ExactAcquire(w, t, w.pcs[t].o, true); } else
          { ExactReacquire(w, t, w.pcs[t].o, w.pcs[t].count); }
      case Exit(t, o) => ExactRelease(w, a);
      case Wait(t, o) => ExactRelease(w, a);
      case Notified(t) => ExactReacquire(w, t, w.pcs[t].o, w.pcs[t].count);
    }
  }

  lemma WrapsToZero(w: World, a: Action)
    requires Inv(w) && Enabled(w, a) && Overflows(w, a)
    ensures !Exact(Apply(w, a))
    ensures var hd := Apply(w, a).headers[a.o]; hd.Inflated? && hd.tid == a.t && hd.hold == 0
  {
    hide Unmatched, Inv;
    var hd := Apply(w, a).headers[a.o];
    assert hd.tid == a.t && hd.hold == 0;
  }

  /** One thread enters one monitor `n` times. */
  lemma {:induction false} NestedEnters(n: nat) returns (ws: seq<World>, acts: seq<Action>)
    requires n < U32
    ensures IsRun(ws, acts) && |acts| == n && forall k :: 0 <= k < n ==> acts[k] == Enter(0, 0, true) && !Overflows(ws[k], acts[k])
    ensures |ws[n].headers| == 1 && |ws[n].pcs| == 1 && ws[n].pcs[0] == Running && HoldCount(ws[n].headers[0], 0) == n
    ensures ws[n].headers[0].Inflated? ==> ws[n].headers[0].tid == 0
  {
    if n == 0 {
      ws, acts := [World([Plain(0)], [Running], [])], [];
    } else {
      ws, acts := NestedEnters(n - 1);
      hide IsRun, Overflows;
      NotYetOverflowing(ws[n - 1], n - 1);
      ws, acts := OneMoreEnter(ws, acts);
    }
  }

  lemma NotYetOverflowing(w: World, n: nat)
    requires |w.headers| == 1 && |w.pcs| == 1 && n + 1 < U32 && HoldCount(w.headers[0], 0) == n
    ensures !Overflows(w, Enter(0, 0, true))
  {
  }

  lemma OneMoreEnter(ws: seq<World>, acts: seq<Action>) returns (ws': seq<World>, acts': seq<Action>)
    requires IsRun(ws, acts)
    requires var w := ws[|acts|];
             |w.headers| == 1 && |w.pcs| == 1 && w.pcs[0] == Running && (w.headers[0].Inflated? ==> w.headers[0].tid == 0)
    ensures acts' == acts + [Enter(0, 0, true)] && IsRun(ws', acts') && ws'[..|acts| + 1] == ws
    ensures var (w, w') := (ws[|acts|], ws'[|acts| + 1]);
            && Enabled(w, Enter(0, 0, true)) && w' == Apply(w, Enter(0, 0, true)) && |w'.headers| == 1 && |w'.pcs| == 1
            && w'.pcs[0] == Running && w'.headers[0].Inflated? && w'.headers[0].tid == 0
            && w'.headers[0].hold == (HoldCount(w.headers[0], 0) + 1) % U32
  {
    var w, a := ws[|acts|], Enter(0, 0, true);
    ws', acts' := ws + [Apply(w, a)], acts + [a];
    forall i | 0 <= i < |acts'| ensures Enabled(ws'[i], acts'[i]) && ws'[i + 1] == Apply(ws'[i], acts'[i]) {
      if i < |acts| { assert Enabled(ws[i], acts[i]) && ws[i + 1] == Apply(ws[i], acts[i]); }
    }
  }

  /** Such a run goes on to the overflow: after 2^32 acquires the owner sees no hold. */
  lemma OverflowReached() returns (ws: seq<World>, acts: seq<Action>)
    ensures IsRun(ws, acts) && |acts| == U32 && (forall k :: 0 <= k < U32 ==> acts[k] == Enter(0, 0, true))
    ensures Overflows(ws[U32 - 1], acts[U32 - 1]) && !Exact(ws[U32])
    ensures |ws[U32].headers| == 1 && ws[U32].headers[0].Inflated? && ws[U32].headers[0].tid == 0 && ws[U32].headers[0].hold == 0
  {
    hide IsRun, Exact;
    ws, acts := NestedEnters(U32 - 1);
    var before := ws;
    ws, acts := OneMoreEnter(ws, acts);
    assert ws[U32 - 1] == before[U32 - 1];
    RunInv(ws, acts, U32 - 1);
    WrapsToZero(ws[U32 - 1], Enter(0, 0, true));
  }

  lemma {:induction false} RunExact(ws: seq<World>, acts: seq<Action>, i: nat)
    requires IsRun(ws, acts) && i < |ws| && forall k :: 0 <= k < i ==> !Overflows(ws[k], acts[k])
    ensures Exact(ws[i])
  {
    hide Inv;
    if i > 0 {
      RunExact(ws, acts, i - 1);
      RunInv(ws, acts, i - 1);
      ExactUnlessOverflow(ws[i - 1], acts[i - 1]);
      assert ws[i - 1 + 1] == Apply(ws[i - 1], acts[i - 1]);
    } else {
      assert ws[0].log == [];
    }
  }

  /** In every run without an overflow, the owner field names the only thread with unmatched acquires, the
      count is the number of those, and the owner field is free exactly when the count is zero. */
  lemma OwnerCounts(ws: seq<World>, acts: seq<Action>, i: nat, o: nat, t: nat)
    requires IsRun(ws, acts) && i < |ws| && (forall k :: 0 <= k < i ==> !Overflows(ws[k], acts[k]))
    requires o < |ws[i].headers| && t < |ws[i].pcs|
    ensures Unmatched(ws[i].log, t, o) > 0 <==> ws[i].headers[o].Inflated? && ws[i].headers[o].tid == t
    ensures Unmatched(ws[i].log, t, o) == HoldCount(ws[i].headers[o], t)
    ensures ws[i].headers[o].Inflated? ==> (ws[i].headers[o].tid == NOT_HELD <==> ws[i].headers[o].hold == 0)
  {
    RunExact(ws, acts, i);
    RunInv(ws, acts, i);
    assert HeaderOk(ws[i], o);
  }

  /** Mutual exclusion. */
  lemma OneOwner(ws: seq<World>, acts: seq<Action>, i: nat, o: nat, t: nat, u: nat)
    requires IsRun(ws, acts) && i < |ws| && (forall k :: 0 <= k < i ==> !Overflows(ws[k], acts[k]))
    requires o < |ws[i].headers| && t < |ws[i].pcs| && u < |ws[i].pcs| && Unmatched(ws[i].log, t, o) > 0 && Unmatched(ws[i].log, u, o) > 0
    ensures t == u
  {
    hide IsRun;
    OwnerCounts(ws, acts, i, o, t);
    OwnerCounts(ws, acts, i, o, u);
  }

  /** Even with overflows, a count that a thread sees is its unmatched acquires modulo 2^32. */
  lemma CountModulo(ws: seq<World>, acts: seq<Action>, i: nat, o: nat, t: nat)
    requires IsRun(ws, acts) && i < |ws| && o < |ws[i].headers| && t < |ws[i].pcs|
    ensures Unmatched(ws[i].log, t, o) % U32 == HoldCount(ws[i].headers[o], t)
  {
    hide IsRun;
    RunInv(ws, acts, i);
    assert CountOk(ws[i], t, o) && HeaderOk(ws[i], o);
  }

  /** In every run, leaving or waiting on a monitor changes something exactly when the thread has unmatched acquires,
      modulo 2^32; for any other thread it changes nothing at all. */
  lemma ReleaseNeedsHold(ws: seq<World>, acts: seq<Action>, i: nat)
    requires IsRun(ws, acts) && i < |acts| && (acts[i].Exit? || acts[i].Wait?)
    ensures ws[i + 1] == ws[i] <==> Unmatched(ws[i].log, acts[i].t, acts[i].o) % U32 == 0
  {
    var w, a := ws[i], acts[i];
    assert ws[i + 1] == Apply(w, a);
    CountModulo(ws, acts, i, a.o, a.t);
    hide IsRun, Unmatched;
    if HoldCount(w.headers[a.o], a.t) == 0 {
      assert w.headers[a.o := w.headers[a.o]] == w.headers && w.pcs[a.t := Running] == w.pcs && w.log + [] == w.log;
    } else {
      assert |ws[i + 1].log| == |w.log| + 1;
    }
  }

  // ---------- what each step leaves behind ----------

  /** `t` owns the monitor of `hd`. */
  ghost predicate Owns(hd: Header, t: nat) {
    hd.Inflated? && hd.tid == t
  }

  /** Another thread than `t` owns the monitor of `hd`. */
  ghost predicate Taken(hd: Header, t: nat) {
    hd.Inflated? && hd.tid != NOT_HELD && hd.tid != t
  }

  /** A step by `t` on `o` changes no other thread and no other object. */
  ghost predicate OnlyThread(w: World, w': World, t: nat, o: nat) {
    && |w'.pcs| == |w.pcs| && |w'.headers| == |w.headers|
    && (forall u :: 0 <= u < |w.pcs| && u != t ==> w'.pcs[u] == w.pcs[u])
    && (forall p :: 0 <= p < |w.headers| && p != o ==> w'.headers[p] == w.headers[p])
  }

  /** Step `a` is an attempt of thread `t` to enter `o`. */
  ghost predicate TriesToEnter(w: World, a: Action, t: nat, o: nat) {
    Enabled(w, a) && a.t == t && ((a.Enter? && a.o == o) || (a.Retry? && w.pcs[t] == Entering(o)))
  }

  /** In every run, an attempt to enter leaves the thread waiting exactly if another thread owns the monitor.  Otherwise it goes on,
      and then it owns the monitor, with one more acquire, unless the object had no monitor and there was no memory for one. */
  lemma EnteredOwns(ws: seq<World>, acts: seq<Action>, i: nat, t: nat, o: nat)
    requires IsRun(ws, acts) && i < |acts| && TriesToEnter(ws[i], acts[i], t, o)
    ensures o < |ws[i].headers| && OnlyThread(ws[i], ws[i + 1], t, o) && t < |ws[i].pcs|
    ensures ws[i + 1].pcs[t] == if Taken(ws[i].headers[o], t) then Entering(o) else Running
    ensures if ws[i + 1].pcs[t] == Running && !(ws[i].headers[o].Plain? && acts[i].Enter? && !acts[i].memory)
            then Owns(ws[i + 1].headers[o], t) && Unmatched(ws[i + 1].log, t, o) == Unmatched(ws[i].log, t, o) + 1
            else ws[i + 1].log == ws[i].log && ws[i + 1].headers == ws[i].headers
  {
    var w, a := ws[i], acts[i];
    RunInv(ws, acts, i);
    PcFacts(w, t);
    HeaderFacts(w, t, o);
    hide Inv, Unmatched;
    assert ws[i + 1] == Apply(w, a);
    UnmatchedSnoc(w.log, Acquired(t, o), t, o);
    assert w.log + [] == w.log && w.headers[o := w.headers[o]] == w.headers;
  }

  /** In every run, `wait` leaves the thread waiting, with nothing held and its count remembered, exactly if it saw a hold; otherwise it
      changes nothing. */
  lemma WaitGivesUp(ws: seq<World>, acts: seq<Action>, i: nat, t: nat, o: nat)
    requires IsRun(ws, acts) && i < |acts| && acts[i] == Wait(t, o) && Enabled(ws[i], acts[i])
    ensures OnlyThread(ws[i], ws[i + 1], t, o) && t < |ws[i].pcs| && o < |ws[i].headers|
    ensures if HoldCount(ws[i].headers[o], t) == 0 then ws[i + 1] == ws[i]
            else ws[i + 1].pcs[t] == Waiting(o, HoldCount(ws[i].headers[o], t)) && ws[i + 1].headers[o].Inflated?
                 && ws[i + 1].headers[o].tid == NOT_HELD && Unmatched(ws[i + 1].log, t, o) == 0
  {
    var w := ws[i];
    hide Unmatched;
    assert ws[i + 1] == Apply(w, acts[i]);
    UnmatchedSnoc(w.log, ReleasedAll(t, o), t, o);
    assert w.log + [] == w.log && w.headers[o := w.headers[o]] == w.headers && w.pcs[t := Running] == w.pcs;
  }

  /** In every run, a notified thread goes on exactly if nobody owns the monitor, and then owns it with the count that it gave up. */
  lemma ReenteredOwns(ws: seq<World>, acts: seq<Action>, i: nat, t: nat, o: nat, count: int)
    requires IsRun(ws, acts) && i < |acts| && Enabled(ws[i], acts[i]) && acts[i].t == t
    requires (acts[i].Notified? && ws[i].pcs[t] == Waiting(o, count)) || (acts[i].Retry? && ws[i].pcs[t] == Reentering(o, count))
    ensures o < |ws[i].headers| && OnlyThread(ws[i], ws[i + 1], t, o) && t < |ws[i].pcs|
    ensures if Taken(ws[i].headers[o], t)
            then ws[i + 1].pcs[t] == Reentering(o, count) && ws[i + 1].headers == ws[i].headers && ws[i + 1].log == ws[i].log
            else ws[i + 1].pcs[t] == Running && HeldBy(ws[i + 1].headers[o], t, count) && Unmatched(ws[i + 1].log, t, o) == count
  {
    var w := ws[i];
    RunInv(ws, acts, i);
    PcFacts(w, t);
    hide Inv, Unmatched;
    assert ws[i + 1] == Apply(w, acts[i]);
    UnmatchedSnoc(w.log, Reacquired(t, o, count), t, o);
    assert w.log + [] == w.log && w.headers[o := w.headers[o]] == w.headers;
  }

  /** In every run, leaving gives up one hold, if the thread saw any, and never makes it wait. */
  lemma ExitGivesUpOne(ws: seq<World>, acts: seq<Action>, i: nat, t: nat, o: nat)
    requires IsRun(ws, acts) && i < |acts| && acts[i] == Exit(t, o) && Enabled(ws[i], acts[i])
    ensures OnlyThread(ws[i], ws[i + 1], t, o) && t < |ws[i].pcs| && o < |ws[i].headers| && ws[i + 1].pcs[t] == Running
    ensures GaveUpOne(ws[i], ws[i + 1], t, o)
  {
    assert ws[i + 1] == Apply(ws[i], acts[i]);
    hide IsRun, Apply, GaveUpOne;
    ExitStep(ws[i], t, o);
  }

  ghost predicate GaveUpOne(w: World, w': World, t: nat, o: nat)
    requires o < |w.headers| == |w'.headers|
  {
    var n := HoldCount(w.headers[o], t);
    if n == 0 then w' == w
    else
      && HoldCount(w'.headers[o], t) == n - 1 && Unmatched(w'.log, t, o) == Unmatched(w.log, t, o) - 1
      && (n == 1 ==> Free(w'.headers[o])) && (n > 1 ==> Owns(w'.headers[o], t))
  }

  lemma ExitStep(w: World, t: nat, o: nat)
    requires Enabled(w, Exit(t, o))
    ensures var w' := Apply(w, Exit(t, o));
            OnlyThread(w, w', t, o) && t < |w.pcs| && o < |w.headers| && w'.pcs[t] == Running && GaveUpOne(w, w', t, o)
  {
    hide Unmatched;
    UnmatchedSnoc(w.log, Released(t, o), t, o);
    assert w.log + [] == w.log && w.headers[o := w.headers[o]] == w.headers && w.pcs[t := Running] == w.pcs;
  }

  /** Thread `t` waits on `o` at step `i` and is running again for the first time after step `j`. */
  ghost predicate Waits(ws: seq<World>, acts: seq<Action>, i: nat, j: nat, t: nat, o: nat) {
    && IsRun(ws, acts) && i < j < |acts| && acts[i] == Wait(t, o) && Enabled(ws[i], acts[i]) && HoldCount(ws[i].headers[o], t) != 0
    && (forall k :: 0 <= k < |ws| ==> t < |ws[k].pcs| && o < |ws[k].headers|)
    && (forall k :: i < k <= j ==> ws[k].pcs[t] != Running) && ws[j + 1].pcs[t] == Running
  }

  lemma WaitBegins(w: World, t: nat, o: nat)
    requires Enabled(w, Wait(t, o)) && HoldCount(w.headers[o], t) != 0
    ensures Apply(w, Wait(t, o)).pcs[t] == Waiting(o, w.headers[o].hold)
  {
  }

  /** A thread that waits, and still does not run after a step, waits for the same object and count. */
  lemma WaitGoesOn(w: World, a: Action, t: nat, o: nat, count: int)
    requires Inv(w) && Enabled(w, a) && t < |w.pcs| && o < |w.headers|
    requires w.pcs[t] in {Waiting(o, count), Reentering(o, count)} && Apply(w, a).pcs[t] != Running
    ensures Apply(w, a).pcs[t] in {Waiting(o, count), Reentering(o, count)}
  {
    hide Inv, Unmatched, TryAcquire, Release;
    if a.t == t {
      PcFacts(w, t);
      ReacquireKeeps(w, t, o, count);
    }
  }

  lemma {:induction false} StillWaiting(ws: seq<World>, acts: seq<Action>, i: nat, j: nat, k: nat, t: nat, o: nat)
    requires Waits(ws, acts, i, j, t, o) && i < k <= j
    ensures ws[k].pcs[t] in {Waiting(o, ws[i].headers[o].hold), Reentering(o, ws[i].headers[o].hold)}
    decreases k
  {
    hide Inv, Unmatched, Apply, Enabled;
    RunInv(ws, acts, k - 1);
    assert ws[k - 1 + 1] == Apply(ws[k - 1], acts[k - 1]);
    if k > i + 1 {
      StillWaiting(ws, acts, i, j, k - 1, t, o);
      WaitGoesOn(ws[k - 1], acts[k - 1], t, o, ws[i].headers[o].hold);
    } else {
      WaitBegins(ws[i], t, o);
    }
  }

  /** `Object.wait` gives the monitor up and comes back with the same hold count. */
  lemma WaitRestores(ws: seq<World>, acts: seq<Action>, i: nat, j: nat, t: nat, o: nat)
    requires Waits(ws, acts, i, j, t, o)
    ensures HoldCount(ws[j + 1].headers[o], t) == HoldCount(ws[i].headers[o], t)
    ensures forall k :: i < k <= j ==> HoldCount(ws[k].headers[o], t) == 0
  {
    hide Inv, Unmatched;
    StillWaiting(ws, acts, i, j, j, t, o);
    RunInv(ws, acts, j);
    PcFacts(ws[j], t);
    assert ws[j + 1] == Apply(ws[j], acts[j]);
    assert acts[j].t == t;
    ReacquireKeeps(ws[j], t, o, ws[i].headers[o].hold);
    forall k | i < k <= j ensures HoldCount(ws[k].headers[o], t) == 0 {
      StillWaiting(ws, acts, i, j, k, t, o);
      RunInv(ws, acts, k);
      PcFacts(ws[k], t);
    }
  }

  /** Inflation moves the mark word into the record and is never undone. */
  lemma {:induction false} MarkWordKept(ws: seq<World>, acts: seq<Action>, i: nat, o: nat)
    requires IsRun(ws, acts) && i < |ws| && o < |ws[0].headers|
    ensures |ws[i].headers| == |ws[0].headers| && ws[i].headers[o].mark == ws[0].headers[o].mark
  {
    RunInv(ws, acts, i);
    hide Inv;
    if i > 0 {
      MarkWordKept(ws, acts, i - 1, o);
      assert ws[i - 1 + 1] == Apply(ws[i - 1], acts[i - 1]);
    }
  }
}
