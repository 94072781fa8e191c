/** Class initialization as a transition system.  Each thread runs a stack of activations of
    `initialize_class`; a step is a piece of code between two points where another thread may run.  Steps are
    at least as fine as the switches of the source, so every interleaving of the source is a run here. */
module ClassInit {
  import opened Wrappers

  /** `supers[c]` is the superclass of `c`, if any, followed by its direct superinterfaces. */
  datatype Hierarchy = Hierarchy(supers: seq<seq<nat>>, rank: seq<nat>, isArray: seq<bool>, hasClinit: seq<bool>)

  ghost predicate IsHierarchy(h: Hierarchy) {
    && |h.supers| == |h.rank| == |h.isArray| == |h.hasClinit|
    && forall c, j :: 0 <= c < |h.supers| && 0 <= j < |h.supers[c]| ==>
                        h.supers[c][j] < |h.supers| && h.rank[h.supers[c][j]] < h.rank[c]
  }

  datatype ClassState = LinkageError | Loaded | Linked | Initializing | Initialized

  /** `owner` is the initializing thread.  The last three are history: the activation that entered
      Initializing, how often `<clinit>` was started, and whether that activation gave up for lack of memory. */
  datatype Class = Class(state: ClassState, owner: int, enteredBy: int, starts: nat, lost: bool)

  /** Spin: waiting for another thread.  Supers(i): initializing the i-th super.  Clinit: running `<clinit>`, which began
      when the thread had yielded `since` times. */
  datatype Pc = Spin | Supers(i: nat) | Clinit(since: nat)

  /** How `<clinit>` ended: normally, with an Error, or with another exception. */
  datatype Outcome = Returned | ThrewError | ThrewOther

  datatype Frame = Frame(id: nat, cls: nat, pc: Pc)

  /** `results[t]` is the result of an activation that has returned to one waiting on top of `stacks[t]`; `switches[t]`
      is how often the thread has given up control. */
  datatype World = World(classes: seq<Class>, stacks: seq<seq<Frame>>, results: seq<Option<int>>, switches: seq<nat>, nextId: nat)

  /** `memory` and `constants` say whether allocation and constant fields succeed, `verify` which classes
      pass method analysis, `leftover` what an uninitialized variable holds; the environment decides. */
  datatype Action =
    | Request(t: nat, c: nat, verify: seq<bool>, memory: bool) // Java code asks for class `c`
    | NextSuper(t: nat, verify: seq<bool>, memory: bool)
    | SuperDone(t: nat)
    | Wake(t: nat)
    | Begin(t: nat, constants: bool)
    | Suspend(t: nat)                                          // Java code switches
    | End(t: nat, outcome: Outcome, leftover: bool)
    | Link(c: nat, verify: seq<bool>)                          // linking for any other reason

  // ---------- linking ----------

  /** `link_class`: supers first; a class that is not merely loaded is left alone. */
  function LinkClass(h: Hierarchy, classes: seq<Class>, c: nat, verify: seq<bool>): (r: (seq<Class>, bool))
    requires IsHierarchy(h) && |classes| == |verify| == |h.supers| && c < |classes|
    ensures LinkChange(classes, r.0) && r.0[c].state != Loaded
    ensures r.1 ==> r.0[c].state == LinkageError
    ensures !r.1 && classes[c].state == Loaded ==> r.0[c].state == Linked && forall k :: 0 <= k < |h.supers[c]| ==>
            r.0[h.supers[c][k]].state != Loaded
    decreases h.rank[c], |h.supers[c]| + 1
  {
    if classes[c].state != Loaded then (classes, false)
    else
      var (after, failed) := LinkSupers(h, classes, c, 0, verify);
      var ok := !failed && verify[c];
      (after[c := after[c].(state := if ok then Linked else LinkageError)], !ok)
  }

  /** Link the supers of `c` from the j-th, stopping at the first failure. */
  function LinkSupers(h: Hierarchy, classes: seq<Class>, c: nat, j: nat, verify: seq<bool>): (r: (seq<Class>, bool))
    requires IsHierarchy(h) && |classes| == |verify| == |h.supers| && c < |classes| && j <= |h.supers[c]|
    ensures LinkChange(classes, r.0)
    ensures !r.1 ==> forall k :: j <= k < |h.supers[c]| ==> r.0[h.supers[c][k]].state != Loaded
    decreases h.rank[c], |h.supers[c]| - j
  {
    if j == |h.supers[c]| then (classes, false)
    else
      var (after, failed) := LinkClass(h, classes, h.supers[c][j], verify);
      if failed then (after, true) else LinkSupers(h, after, c, j + 1, verify)
  }

  ghost predicate OnlyLinked(a: Class, b: Class) {
    b == a || (a.state == Loaded && (b == a.(state := Linked) || b == a.(state := LinkageError)))
  }

  /** Linking takes some loaded classes to linked or erroneous, and does nothing else. */
  ghost predicate LinkChange(a: seq<Class>, b: seq<Class>) {
    && |b| == |a|
    && forall x :: 0 <= x < |a| ==> OnlyLinked(a[x], b[x])
  }

  /** `c` is not linked yet, and it or a super that is not linked either, with only such classes in between, fails verification. */
  ghost predicate CannotLink(h: Hierarchy, classes: seq<Class>, c: nat, verify: seq<bool>)
    requires IsHierarchy(h) && |classes| == |verify| == |h.supers| && c < |classes|
    decreases h.rank[c]
  {
    classes[c].state == Loaded &&
    (!verify[c] || exists j :: 0 <= j < |h.supers[c]| && CannotLink(h, classes, h.supers[c][j], verify))
  }

  /** Only classes that can be linked have changed. */
  ghost predicate OnlyLinkable(h: Hierarchy, a: seq<Class>, b: seq<Class>, verify: seq<bool>)
    requires IsHierarchy(h) && |a| == |b| == |verify| == |h.supers|
  {
    forall x :: 0 <= x < |a| && b[x] != a[x] ==> b[x].state == Linked && !CannotLink(h, a, x, verify)
  }

  lemma {:induction false} LinkableStays(h: Hierarchy, a: seq<Class>, b: seq<Class>, verify: seq<bool>, x: nat)
    requires IsHierarchy(h) && |a| == |b| == |verify| == |h.supers| && OnlyLinkable(h, a, b, verify) && x < |a|
    ensures CannotLink(h, a, x, verify) <==> CannotLink(h, b, x, verify)
    decreases h.rank[x]
  {
    if b[x] == a[x] {
      forall j | 0 <= j < |h.supers[x]|
        ensures CannotLink(h, a, h.supers[x][j], verify) <==> CannotLink(h, b, h.supers[x][j], verify)
      {
        LinkableStays(h, a, b, verify, h.supers[x][j]);
      }
    }
  }

  lemma OnlyLinkableTrans(h: Hierarchy, a: seq<Class>, b: seq<Class>, c: seq<Class>, verify: seq<bool>)
    requires IsHierarchy(h) && |a| == |b| == |c| == |verify| == |h.supers|
    requires OnlyLinkable(h, a, b, verify) && OnlyLinkable(h, b, c, verify) && LinkChange(b, c)
    ensures OnlyLinkable(h, a, c, verify)
  {
    hide CannotLink;
    forall x | 0 <= x < |a| && c[x] != a[x] ensures c[x].state == Linked && !CannotLink(h, a, x, verify) {
      LinkableStays(h, a, b, verify, x);
    }
  }

  /** Linking a class fails exactly if it or a super that it makes link fails verification. */
  lemma {:induction false} LinkFailsIff(h: Hierarchy, classes: seq<Class>, c: nat, verify: seq<bool>)
    requires IsHierarchy(h) && |classes| == |verify| == |h.supers| && c < |classes|
    ensures LinkClass(h, classes, c, verify).1 <==> CannotLink(h, classes, c, verify)
    ensures !LinkClass(h, classes, c, verify).1 ==> OnlyLinkable(h, classes, LinkClass(h, classes, c, verify).0, verify)
    decreases h.rank[c], |h.supers[c]| + 1
  {
    if classes[c].state == Loaded {
      LinkSupersFailsIff(h, classes, c, 0, verify);
    }
  }

  lemma {:induction false} LinkSupersFailsIff(h: Hierarchy, classes: seq<Class>, c: nat, j: nat, verify: seq<bool>)
    requires IsHierarchy(h) && |classes| == |verify| == |h.supers| && c < |classes| && j <= |h.supers[c]|
    ensures LinkSupers(h, classes, c, j, verify).1 <==>
            exists k :: j <= k < |h.supers[c]| && CannotLink(h, classes, h.supers[c][k], verify)
    ensures !LinkSupers(h, classes, c, j, verify).1 ==> OnlyLinkable(h, classes, LinkSupers(h, classes, c, j, verify).0, verify)
    decreases h.rank[c], |h.supers[c]| - j
  {
    hide LinkClass, CannotLink;
    if j < |h.supers[c]| {
      LinkFailsIff(h, classes, h.supers[c][j], verify);
      var (after, failed) := LinkClass(h, classes, h.supers[c][j], verify);
      if !failed {
        LinkSupersFailsIff(h, after, c, j + 1, verify);
        forall k | j + 1 <= k < |h.supers[c]|
          ensures CannotLink(h, classes, h.supers[c][k], verify) <==> CannotLink(h, after, h.supers[c][k], verify)
        {
          LinkableStays(h, classes, after, verify, h.supers[c][k]);
        }
        if !LinkSupers(h, after, c, j + 1, verify).1 {
          OnlyLinkableTrans(h, classes, after, LinkSupers(h, after, c, j + 1, verify).0, verify);
        }
      }
    }
  }

  // ---------- steps ----------

  predicate Sized(h: Hierarchy, w: World) {
    && |w.classes| == |h.supers| && |w.stacks| == |w.results| == |w.switches|
    && forall t, k :: 0 <= t < |w.stacks| && 0 <= k < |w.stacks[t]| ==> w.stacks[t][k].cls < |w.classes|
  }

  /** The running activation of thread `t`. */
  function Top(w: World, t: nat): Frame
    requires t < |w.stacks| && w.stacks[t] != []
  {
    w.stacks[t][|w.stacks[t]| - 1]
  }

  predicate InSupers(w: World, t: nat) {
    t < |w.stacks| && w.stacks[t] != [] && Top(w, t).pc.Supers?
  }

  /** Thread `t` executes Java code: of a static initializer, or outside any initialization. */
  predicate InJava(w: World, t: nat) {
    t < |w.stacks| && (w.stacks[t] == [] || Top(w, t).pc.Clinit?)
  }

  /** An activation on `t` returns `r`; only a waiting activation looks at it. */
  function Deliver(w: World, t: nat, r: int): World
    requires t < |w.stacks| == |w.results|
  {
    w.(results := w.results[t := if InSupers(w, t) then Some(r) else None])
  }

  function Pop(w: World, t: nat, r: int): World
    requires t < |w.stacks| == |w.results| && w.stacks[t] != []
  {
    Deliver(w.(stacks := w.stacks[t := w.stacks[t][..|w.stacks[t]| - 1]]), t, r)
  }

  function Push(w: World, t: nat, f: Frame): World
    requires t < |w.stacks| == |w.results|
  {
    w.(stacks := w.stacks[t := w.stacks[t] + [f]], results := w.results[t := None], nextId := w.nextId + 1)
  }

  function SetTop(w: World, t: nat, pc: Pc): World
    requires t < |w.stacks| == |w.results| && w.stacks[t] != []
  {
    w.(stacks := w.stacks[t := w.stacks[t][|w.stacks[t]| - 1 := Top(w, t).(pc := pc)]], results := w.results[t := None])
  }

  /** Thread `t` gives up control; stack variables of its activations are lost. */
  function Yielded(w: World, t: nat): World
    requires t < |w.switches|
  {
    w.(switches := w.switches[t := w.switches[t] + 1])
  }

  /** The running `<clinit>` of thread `t` has given up control since it began. */
  predicate Suspended(w: World, t: nat) {
    t < |w.stacks| == |w.switches| && w.stacks[t] != [] && Top(w, t).pc.Clinit? && Top(w, t).pc.since < w.switches[t]
  }

  /** The value of `error` at the `done` label after `<clinit>`.  It is set to zero before the call, and after it unless an
      exception other than an Error was thrown; but it is a stack variable, so a suspension destroys it. */
  function ErrorAtDone(w: World, t: nat, outcome: Outcome, leftover: bool): bool {
    outcome == ThrewOther && Suspended(w, t) && leftover
  }

  /** `initialize_class` for `c` on thread `t`, up to its first wait. */
  function Enter(h: Hierarchy, w: World, t: nat, c: nat, verify: seq<bool>, memory: bool): World
    requires IsHierarchy(h) && Sized(h, w) && |verify| == |w.classes| && t < |w.stacks| && c < |w.classes|
  {
    var cd := w.classes[c];
    if h.isArray[c] || cd.state == Initialized || cd.state == LinkageError then Deliver(w, t, 0)
    else
      var (linked, failed) := LinkClass(h, w.classes, c, verify);
      var w1 := w.(classes := linked);
      if failed then Deliver(w1, t, 0)
      else if cd.state == Initializing then
        if cd.owner == t then Deliver(w1, t, 0) else Push(Yielded(w1, t), t, Frame(w.nextId, c, Spin))
      else
        var w2 := w1.(classes := linked[c := linked[c].(state := Initializing, owner := t, enteredBy := w.nextId, lost := !memory)]);
        if memory then Push(w2, t, Frame(w.nextId, c, Supers(0)))
        else Deliver(w2.(nextId := w.nextId + 1), t, -1)
  }

  /** The `done` label: the activation on top of `t` leaves Initializing and returns. */
  function Leave(w: World, t: nat, error: bool): World
    requires t < |w.stacks| == |w.results| && w.stacks[t] != [] && Top(w, t).cls < |w.classes|
  {
    var c := Top(w, t).cls;
    Pop(w.(classes := w.classes[c := w.classes[c].(state := if error then LinkageError else Initialized)]), t, if error then 1 else 0)
  }

  predicate Enabled(h: Hierarchy, w: World, a: Action) {
    && Sized(h, w)
    && match a
       case Request(t, c, verify, _) => InJava(w, t) && c < |w.classes| && |verify| == |w.classes|
       case NextSuper(t, verify, _) => InSupers(w, t) && w.results[t] == None && Top(w, t).pc.i < |h.supers[Top(w, t).cls]|
           && |verify| == |w.classes|
       case SuperDone(t) => InSupers(w, t) && w.results[t].Some?
       case Wake(t) => t < |w.stacks| && w.stacks[t] != [] && Top(w, t).pc == Spin
       case Begin(t, _) => InSupers(w, t) && w.results[t] == None && Top(w, t).pc.i >= |h.supers[Top(w, t).cls]|
           && |h.hasClinit| == |w.classes|
       case Suspend(t) => InJava(w, t)
       case End(t, _, _) => t < |w.stacks| && w.stacks[t] != [] && Top(w, t).pc.Clinit?
       case Link(c, verify) => c < |w.classes| && |verify| == |w.classes|
  }

  function Apply(h: Hierarchy, w: World, a: Action): World
    requires IsHierarchy(h) && Enabled(h, w, a)
  {
    match a
    case Request(t, c, verify, memory) => Enter(h, w, t, c, verify, memory)
    case NextSuper(t, verify, memory) => Enter(h, w, t, h.supers[Top(w, t).cls][Top(w, t).pc.i], verify, memory)
    case SuperDone(t) =>
      if w.results[t].value != 0 then Leave(w, t, true) else SetTop(w, t, Supers(Top(w, t).pc.i + 1))
    case Wake(t) =>
      if w.classes[Top(w, t).cls].state == Initializing then w else Pop(w, t, 0)
    case Begin(t, constants) =>
      if !constants then Leave(w, t, true)
      else if !h.hasClinit[Top(w, t).cls] then Leave(w, t, false)
      else
        var c := Top(w, t).cls;
        SetTop(w.(classes := w.classes[c := w.classes[c].(starts := w.classes[c].starts + 1)]), t, Clinit(w.switches[t]))
    case Suspend(t) => Yielded(w, t)
    case End(t, outcome, leftover) => Leave(w, t, ErrorAtDone(w, t, outcome, leftover))
    case Link(c, verify) => w.(classes := LinkClass(h, w.classes, c, verify).0)
  }

  // ---------- the invariant ----------

  /** `d` will not be initialized by another thread while `t` runs on: it is done, or `t` itself is at it. */
  ghost predicate Settled(w: World, t: int, d: int) {
    && 0 <= d < |w.classes|
    && (w.classes[d].state == Initialized || w.classes[d].state == LinkageError
        || (w.classes[d].state == Initializing && w.classes[d].owner == t))
  }

  /** All direct supers of `c` are settled with respect to thread `t`. */
  ghost predicate SupersSettled(h: Hierarchy, w: World, c: int, t: int)
    requires 0 <= c < |h.supers|
  {
    forall j :: 0 <= j < |h.supers[c]| ==> Settled(w, t, h.supers[c][j])
  }

  ghost predicate AtFrame(w: World, t: int, k: int) {
    0 <= t < |w.stacks| && 0 <= k < |w.stacks[t]|
  }

  /** What holds of an activation that has entered Initializing. */
  ghost predicate OwnerOk(h: Hierarchy, w: World, t: int, f: Frame) {
    && f.cls < |w.classes| == |h.supers| && f.id < w.nextId
    && w.classes[f.cls].state == Initializing && w.classes[f.cls].owner == t && w.classes[f.cls].enteredBy == f.id && !w.classes[f.cls].lost
    && match f.pc
       case Spin => false
       case Supers(i) => w.classes[f.cls].starts == 0 && i <= |h.supers[f.cls]| && forall j :: 0 <= j < i ==>
           Settled(w, t, h.supers[f.cls][j])
       case Clinit(_) => w.classes[f.cls].starts == 1 && SupersSettled(h, w, f.cls, t)
  }

  ghost predicate SpinOk(w: World, t: int, f: Frame) {
    && f.cls < |w.classes| && f.id < w.nextId
    && w.classes[f.cls].state in {Initializing, Initialized, LinkageError}
    && (w.classes[f.cls].state == Initializing ==> w.classes[f.cls].owner != t)
  }

  /** Only the activation on top may spin; one waiting for a super has that super's activation above it. */
  ghost predicate FrameOk(h: Hierarchy, w: World, t: int, k: int)
    requires AtFrame(w, t, k) && |w.results| == |w.stacks|
  {
    var f, top := w.stacks[t][k], k == |w.stacks[t]| - 1;
    && (if f.pc == Spin then top && SpinOk(w, t, f) else OwnerOk(h, w, t, f))
    && (f.pc.Supers? && !top ==> f.cls < |h.supers| && f.pc.i < |h.supers[f.cls]| && w.stacks[t][k + 1].cls == h.supers[f.cls][f.pc.i])
    && (f.pc.Supers? && top && w.results[t].Some? ==>
         f.cls < |h.supers| && f.pc.i < |h.supers[f.cls]| && (w.results[t].value == 0 ==> Settled(w, t, h.supers[f.cls][f.pc.i])))
  }

  /** What holds of a class: an unlost class that is being initialized has its activation on the owner's stack. */
  ghost predicate ClassOk(h: Hierarchy, w: World, c: int)
    requires 0 <= c < |w.classes|
  {
    var cd := w.classes[c];
    && cd.starts <= 1
    && (cd.state == Loaded || cd.state == Linked || cd.lost ==> cd.starts == 0)
    && (cd.lost ==> cd.state == Initializing)
    && (cd.state == Initialized && c < |h.supers| == |h.isArray| && !h.isArray[c] ==> SupersSettled(h, w, c, cd.owner))
    && (cd.state == Initializing && !cd.lost ==> exists k ::
         AtFrame(w, cd.owner, k) && w.stacks[cd.owner][k].id == cd.enteredBy && w.stacks[cd.owner][k].cls == c)
  }

  ghost predicate Inv(h: Hierarchy, w: World) {
    && IsHierarchy(h) && Sized(h, w)
    && (forall t, k :: AtFrame(w, t, k) ==> FrameOk(h, w, t, k))
    && (forall t, k, u, l :: AtFrame(w, t, k) && AtFrame(w, u, l) && w.stacks[t][k].id == w.stacks[u][l].id ==> t == u && k == l)
    && (forall c :: 0 <= c < |w.classes| ==> ClassOk(h, w, c))
  }

  // ---------- every step keeps the invariant ----------

  /** How a step of thread `t` may change one class. */
  ghost predicate ChangedBy(a: Class, b: Class, t: int) {
    || OnlyLinked(a, b)
    || ((a.state == Loaded || a.state == Linked) && b.state == Initializing && b.owner == t && b.starts == a.starts)
    || (a.state == Initializing && a.owner == t && b.owner == t && b.enteredBy == a.enteredBy && b.lost == a.lost
        && a.starts <= b.starts && b.state in {Initializing, Initialized, LinkageError})
  }

  ghost predicate StepBy(h: Hierarchy, w: World, w': World, t: int) {
    && Sized(h, w) && Sized(h, w') && |w'.stacks| == |w.stacks| && w.nextId <= w'.nextId
    && (forall x :: 0 <= x < |w.classes| ==> ChangedBy(w.classes[x], w'.classes[x], t))
    && (forall u :: 0 <= u < |w.stacks| && u != t ==> w'.stacks[u] == w.stacks[u] && w'.results[u] == w.results[u])
  }

  lemma SettledKept(h: Hierarchy, w: World, w': World, t: int, u: int, d: int)
    requires StepBy(h, w, w', t) && Settled(w, u, d)
    ensures Settled(w', u, d)
  {
  }

  /** Activations of other threads are not affected. */
  lemma OtherKept(h: Hierarchy, w: World, w': World, t: int, u: int, k: int)
    requires IsHierarchy(h) && StepBy(h, w, w', t) && u != t && AtFrame(w, u, k) && FrameOk(h, w, u, k)
    ensures FrameOk(h, w', u, k)
  {
    var f := w.stacks[u][k];
    hide Settled;
    forall d | Settled(w, u, d) ensures Settled(w', u, d) { SettledKept(h, w, w', t, u, d); }
  }

  /** Nor are activations of the same thread whose class is left alone. */
  lemma OwnKept(h: Hierarchy, w: World, w': World, t: int, f: Frame)
    requires IsHierarchy(h) && StepBy(h, w, w', t) && OwnerOk(h, w, t, f) && w'.classes[f.cls] == w.classes[f.cls]
    ensures OwnerOk(h, w', t, f)
  {
    hide Settled;
    forall d | Settled(w, t, d) ensures Settled(w', t, d) { SettledKept(h, w, w', t, t, d); }
  }

  /** Two owning activations of one class are the same activation. */
  lemma OneOwner(h: Hierarchy, w: World, t: int, k: int, u: int, l: int)
    requires Inv(h, w) && AtFrame(w, t, k) && AtFrame(w, u, l) && w.stacks[t][k].cls == w.stacks[u][l].cls
    requires w.stacks[t][k].pc != Spin && w.stacks[u][l].pc != Spin
    ensures t == u && k == l
  {
    assert FrameOk(h, w, t, k) && FrameOk(h, w, u, l);
  }

  lemma OthersAllKept(h: Hierarchy, w: World, w': World, t: int)
    requires Inv(h, w) && StepBy(h, w, w', t)
    ensures forall u, k :: AtFrame(w', u, k) && u != t ==> FrameOk(h, w', u, k)
  {
    hide FrameOk;
    forall u, k | AtFrame(w', u, k) && u != t ensures FrameOk(h, w', u, k) { OtherKept(h, w, w', t, u, k); }
  }

  lemma LinkKeeps(h: Hierarchy, w: World, c: nat, verify: seq<bool>)
    requires Inv(h, w) && Enabled(h, w, Link(c, verify))
    ensures Inv(h, Apply(h, w, Link(c, verify))) && StepBy(h, w, Apply(h, w, Link(c, verify)), -1)
  {
    var w' := Apply(h, w, Link(c, verify));
    assert StepBy(h, w, w', -1);
    OthersAllKept(h, w, w', -1);
    hide FrameOk;
    forall x | 0 <= x < |w'.classes| ensures ClassOk(h, w', x) {
      assert StillThere(w, w', -1, x);
      ClassKept(h, w, w', -1, x);
    }
  }

  /** The owning activations of `t`, except perhaps the top one, are still in place. */
  ghost predicate StillThere(w: World, w': World, t: int, x: int) {
    forall k :: AtFrame(w, t, k) && w.stacks[t][k].cls == x && w.stacks[t][k].pc != Spin ==>
                  AtFrame(w', t, k) && w'.stacks[t][k].id == w.stacks[t][k].id && w'.stacks[t][k].cls == x
  }

  /** A class that is not touched, or that is not being initialized by an activation, stays in order. */
  lemma ClassKept(h: Hierarchy, w: World, w': World, t: int, x: int)
    requires Inv(h, w) && StepBy(h, w, w', t) && 0 <= x < |w.classes| && StillThere(w, w', t, x)
    requires OnlyLinked(w.classes[x], w'.classes[x]) || (w'.classes[x].lost && w'.classes[x].state == Initializing
                                                         && w'.classes[x].starts == 0)
    ensures ClassOk(h, w', x)
  {
    var cd := w.classes[x];
    assert ClassOk(h, w, x);
    if cd.state == Initializing && !cd.lost {
      var k :| AtFrame(w, cd.owner, k) && w.stacks[cd.owner][k].id == cd.enteredBy && w.stacks[cd.owner][k].cls == x;
      assert FrameOk(h, w, cd.owner, k);
      assert AtFrame(w', cd.owner, k);
    }
    if cd.state == Initialized && !h.isArray[x] {
      forall j | 0 <= j < |h.supers[x]| ensures Settled(w', cd.owner, h.supers[x][j])
        { SettledKept(h, w, w', t, cd.owner, h.supers[x][j]); }
    }
  }

  /** No class of an activation on the stack of `t` is changed. */
  ghost predicate FramesUntouched(w: World, w': World, t: int) {
    |w'.classes| == |w.classes| &&
    forall k :: AtFrame(w, t, k) && w.stacks[t][k].cls < |w.classes| && w.stacks[t][k].pc != Spin ==>
        w'.classes[w.stacks[t][k].cls] == w.classes[w.stacks[t][k].cls]
  }

  /** The activation on top of `t` does not spin, and if it waits for a super then for `c`, which is settled unless `r` is an error. */
  ghost predicate AnswerOk(h: Hierarchy, w: World, t: nat, c: int, r: int) {
    && t < |w.stacks|
    && (w.stacks[t] != [] ==> Top(w, t).pc != Spin)
    && (InSupers(w, t) ==>
         Top(w, t).cls < |h.supers| && Top(w, t).pc.i < |h.supers[Top(w, t).cls]| && h.supers[Top(w, t).cls][Top(w, t).pc.i] == c)
    && (InSupers(w, t) && r == 0 ==> Settled(w, t, c))
  }

  lemma DeliverKeeps(h: Hierarchy, w: World, w1: World, t: nat, c: int, r: int)
    requires Inv(h, w) && StepBy(h, w, w1, t) && w1.stacks == w.stacks && w1.results == w.results && FramesUntouched(w, w1, t)
    requires AnswerOk(h, w1, t, c, r)
    requires forall x :: 0 <= x < |w.classes| ==>
               || OnlyLinked(w.classes[x], w1.classes[x])
               || (w1.classes[x].lost && w1.classes[x].state == Initializing && w1.classes[x].starts == 0)
    ensures Inv(h, Deliver(w1, t, r)) && StepBy(h, w, Deliver(w1, t, r), t)
  {
    hide LinkClass, OwnerOk;
    var w' := Deliver(w1, t, r);
    assert StepBy(h, w, w', t);
    OthersAllKept(h, w, w', t);
    forall k | AtFrame(w', t, k) ensures FrameOk(h, w', t, k) {
      assert FrameOk(h, w, t, k);
      OwnKept(h, w, w', t, w.stacks[t][k]);
      assert forall d :: Settled(w1, t, d) ==> Settled(w', t, d);
    }
    hide FrameOk;
    forall x | 0 <= x < |w'.classes| ensures ClassOk(h, w', x) {
      assert StillThere(w, w', t, x);
      ClassKept(h, w, w', t, x);
    }
  }

  /** A new activation for `c`, which spins or has just entered Initializing. */
  lemma PushKeeps(h: Hierarchy, w: World, w1: World, t: nat, f: Frame)
    requires Inv(h, w) && StepBy(h, w, w1, t) && w1.stacks == w.stacks && w1.results == w.results && FramesUntouched(w, w1, t)
             && w1.nextId == w.nextId
    requires AnswerOk(h, w1, t, f.cls, 1) && f.id == w.nextId && f.cls < |w.classes|
    requires forall x :: 0 <= x < |w.classes| && (x != f.cls || f.pc == Spin) ==> OnlyLinked(w.classes[x], w1.classes[x])
    requires if f.pc == Spin then SpinOk(w1.(nextId := w.nextId + 1), t, f) else OwnerOk(h, w1.(nextId := w.nextId + 1), t, f)
    ensures Inv(h, Push(w1, t, f)) && StepBy(h, w, Push(w1, t, f), t)
  {
    var w' := Push(w1, t, f);
    assert StepBy(h, w, w', t);
    OthersAllKept(h, w, w', t);
    var top := |w.stacks[t]|;
    forall k | AtFrame(w', t, k) ensures FrameOk(h, w', t, k) { PushFrame(h, w, w1, t, f, k); }
    forall x | 0 <= x < |w'.classes| ensures ClassOk(h, w', x) {
      if x != f.cls || f.pc == Spin {
        assert StillThere(w, w', t, x);
        ClassKept(h, w, w', t, x);
      } else {
        assert AtFrame(w', t, top) && w'.stacks[t][top] == f;
        assert ClassOk(h, w, x);
      }
    }
    PushIds(h, w, w1, t, f);
  }

  lemma PushFrame(h: Hierarchy, w: World, w1: World, t: nat, f: Frame, k: int)
    requires Inv(h, w) && StepBy(h, w, w1, t) && w1.stacks == w.stacks && w1.results == w.results && FramesUntouched(w, w1, t)
             && w1.nextId == w.nextId
    requires AnswerOk(h, w1, t, f.cls, 1) && f.id == w.nextId && f.cls < |w.classes|
    requires if f.pc == Spin then SpinOk(w1.(nextId := w.nextId + 1), t, f) else OwnerOk(h, w1.(nextId := w.nextId + 1), t, f)
    requires StepBy(h, w, Push(w1, t, f), t) && AtFrame(Push(w1, t, f), t, k)
    ensures FrameOk(h, Push(w1, t, f), t, k)
  {
    var w' := Push(w1, t, f);
    if k < |w.stacks[t]| {
      hide OwnerOk;
      assert AtFrame(w, t, k) && FrameOk(h, w, t, k);
      OwnKept(h, w, w', t, w.stacks[t][k]);
    }
  }

  lemma PushIds(h: Hierarchy, w: World, w1: World, t: nat, f: Frame)
    requires Inv(h, w) && w1.stacks == w.stacks && t < |w.stacks| == |w1.results| && f.id == w.nextId
    ensures var w' := Push(w1, t, f);
            forall u, k, v, l :: AtFrame(w', u, k) && AtFrame(w', v, l) && w'.stacks[u][k].id == w'.stacks[v][l].id ==> u == v && k == l
  {
    var w' := Push(w1, t, f);
    forall u, k | AtFrame(w, u, k) ensures w.stacks[u][k].id < w.nextId { assert FrameOk(h, w, u, k); }
    hide FrameOk;
    forall u, k | AtFrame(w', u, k)
      ensures if u == t && k == |w.stacks[t]| then w'.stacks[u][k] == f else AtFrame(w, u, k) && w'.stacks[u][k] == w.stacks[u][k]
    {
    }
  }

  lemma EnterKeeps(h: Hierarchy, w: World, t: nat, c: nat, verify: seq<bool>, memory: bool)
    requires Inv(h, w) && |verify| == |w.classes| && t < |w.stacks| && c < |w.classes|
    requires AnswerOk(h, w, t, c, 1) && (InSupers(w, t) ==> !h.isArray[c])
    ensures Inv(h, Enter(h, w, t, c, verify, memory)) && StepBy(h, w, Enter(h, w, t, c, verify, memory), t)
  {
    hide Inv, LinkClass;
    var cd := w.classes[c];
    InvFacts(h, w, t, c);
    if h.isArray[c] || cd.state == Initialized || cd.state == LinkageError {
      DeliverKeeps(h, w, w, t, c, 0);
    } else {
      var (linked, failed) := LinkClass(h, w.classes, c, verify);
      var w1 := w.(classes := linked);
      assert LinkChange(w.classes, linked);
      assert StepBy(h, w, w1, t);
      LinkedUntouched(h, w, w1, t);
      if failed {
        DeliverKeeps(h, w, w1, t, c, 0);
      } else if cd.state == Initializing {
        if cd.owner == t { DeliverKeeps(h, w, w1, t, c, 0); } else { SpinKeeps(h, w, linked, t, c); }
      } else {
        assert linked[c].state == Linked && linked[c].starts == 0 by { assert OnlyLinked(w.classes[c], linked[c]); }
        ClaimKeeps(h, w, linked, t, c, memory);
      }
    }
  }

  /** Waiting for a class that another thread is initializing. */
  lemma SpinKeeps(h: Hierarchy, w: World, linked: seq<Class>, t: nat, c: nat)
    requires Inv(h, w) && t < |w.stacks| && c < |w.classes| && AnswerOk(h, w, t, c, 1) && LinkChange(w.classes, linked)
    requires w.classes[c].state == Initializing && w.classes[c].owner != t && FramesUntouched(w, w.(classes := linked), t)
    ensures |w.switches| == |w.stacks| == |w.results|
    ensures var w' := Push(Yielded(w.(classes := linked), t), t, Frame(w.nextId, c, Spin));
            Inv(h, w') && StepBy(h, w, w', t)
  {
    InvFacts(h, w, t, c);
    hide Inv;
    assert OnlyLinked(w.classes[c], linked[c]);
    var w1 := Yielded(w.(classes := linked), t);
    assert StepBy(h, w, w1, t);
    PushKeeps(h, w, w1, t, Frame(w.nextId, c, Spin));
  }

  /** Entering Initializing for a class that has just been found linked. */
  lemma ClaimKeeps(h: Hierarchy, w: World, linked: seq<Class>, t: nat, c: nat, memory: bool)
    requires Inv(h, w) && t < |w.stacks| && c < |w.classes| && AnswerOk(h, w, t, c, 1) && LinkChange(w.classes, linked)
    requires w.classes[c].state in {Loaded, Linked} && linked[c].state == Linked && linked[c].starts == 0
    requires FramesUntouched(w, w.(classes := linked), t)
    ensures var w2 := w.(classes := linked[c := linked[c].(state := Initializing, owner := t, enteredBy := w.nextId, lost := !memory)]);
            var w' := if memory then Push(w2, t, Frame(w.nextId, c, Supers(0))) else Deliver(w2.(nextId := w.nextId + 1), t, -1);
            Inv(h, w') && StepBy(h, w, w', t)
  {
    hide Inv;
    InvFacts(h, w, t, c);
    var w2 := w.(classes := linked[c := linked[c].(state := Initializing, owner := t, enteredBy := w.nextId, lost := !memory)]);
    assert StepBy(h, w, w2, t);
    if memory {
      PushKeeps(h, w, w2, t, Frame(w.nextId, c, Supers(0)));
    } else {
      DeliverKeeps(h, w, w2.(nextId := w.nextId + 1), t, c, -1);
    }
  }

  lemma InvFacts(h: Hierarchy, w: World, t: nat, c: nat)
    requires Inv(h, w) && t < |w.stacks| && c < |w.classes|
    ensures IsHierarchy(h) && Sized(h, w) && (w.classes[c].state == Linked || w.classes[c].state == Loaded ==> w.classes[c].starts == 0)
    ensures forall k :: AtFrame(w, t, k) && w.stacks[t][k].pc != Spin ==> w.classes[w.stacks[t][k].cls].state == Initializing
  {
    assert ClassOk(h, w, c);
    forall k | AtFrame(w, t, k) && w.stacks[t][k].pc != Spin ensures w.classes[w.stacks[t][k].cls].state == Initializing {
      assert FrameOk(h, w, t, k);
    }
  }

  lemma LinkedUntouched(h: Hierarchy, w: World, w1: World, t: nat)
    requires Inv(h, w) && LinkChange(w.classes, w1.classes) && t < |w.stacks|
    ensures FramesUntouched(w, w1, t)
  {
    forall k | AtFrame(w, t, k) && w.stacks[t][k].cls < |w.classes| && w.stacks[t][k].pc != Spin
      ensures w1.classes[w.stacks[t][k].cls] == w.classes[w.stacks[t][k].cls]
    {
      assert FrameOk(h, w, t, k);
      assert OnlyLinked(w.classes[w.stacks[t][k].cls], w1.classes[w.stacks[t][k].cls]);
    }
  }

  /** The activation on top of `t` returns, after its class has been settled for good. */
  lemma PopKeeps(h: Hierarchy, w: World, w1: World, t: nat, r: int)
    requires Inv(h, w) && StepBy(h, w, w1, t) && w1.stacks == w.stacks && w1.results == w.results && w1.nextId == w.nextId
    requires t < |w.stacks| && w.stacks[t] != []
    requires forall x :: 0 <= x < |w.classes| && (x != Top(w, t).cls || Top(w, t).pc == Spin) ==> w1.classes[x] == w.classes[x]
    requires w1.classes[Top(w, t).cls].state in {Initialized, LinkageError} && w1.classes[Top(w, t).cls].starts <= 1
    requires Top(w, t).pc != Spin && w1.classes[Top(w, t).cls].state == Initialized ==> SupersSettled(h, w1, Top(w, t).cls, t)
    ensures Inv(h, Pop(w1, t, r)) && StepBy(h, w, Pop(w1, t, r), t)
  {
    var w' := Pop(w1, t, r);
    var top, c := |w.stacks[t]| - 1, Top(w, t).cls;
    assert FrameOk(h, w, t, top) && ClassOk(h, w, c);
    assert StepBy(h, w, w', t);
    OthersAllKept(h, w, w', t);
    forall k | AtFrame(w', t, k) ensures FrameOk(h, w', t, k) { PopFrame(h, w, w1, t, r, k); }
    forall x | 0 <= x < |w'.classes| ensures ClassOk(h, w', x) {
      if x != c || Top(w, t).pc == Spin {
        assert StillThere(w, w', t, x);
        ClassKept(h, w, w', t, x);
      }
    }
    hide FrameOk, ClassOk;
    forall u, k | AtFrame(w', u, k) ensures AtFrame(w, u, k) && w'.stacks[u][k] == w.stacks[u][k] { }
  }

  lemma PopFrame(h: Hierarchy, w: World, w1: World, t: nat, r: int, k: int)
    requires Inv(h, w) && StepBy(h, w, w1, t) && w1.stacks == w.stacks && w1.results == w.results && w1.nextId == w.nextId
    requires t < |w.stacks| && w.stacks[t] != [] && StepBy(h, w, Pop(w1, t, r), t)
    requires forall x :: 0 <= x < |w.classes| && (x != Top(w, t).cls || Top(w, t).pc == Spin) ==> w1.classes[x] == w.classes[x]
    requires w1.classes[Top(w, t).cls].state in {Initialized, LinkageError} && AtFrame(Pop(w1, t, r), t, k)
    ensures FrameOk(h, Pop(w1, t, r), t, k)
  {
    var w', top := Pop(w1, t, r), |w.stacks[t]| - 1;
    assert AtFrame(w, t, k) && AtFrame(w, t, top) && FrameOk(h, w, t, k) && FrameOk(h, w, t, top);
    var f := w.stacks[t][k];
    if Top(w, t).pc != Spin && f.cls == Top(w, t).cls { OneOwner(h, w, t, k, t, top); assert false; }
    hide OwnerOk;
    OwnKept(h, w, w', t, f);
  }

  /** The activation on top of `t` moves on within its class. */
  lemma MoveKeeps(h: Hierarchy, w: World, w1: World, t: nat, pc: Pc)
    requires Inv(h, w) && StepBy(h, w, w1, t) && w1.stacks == w.stacks && w1.results == w.results && w1.nextId == w.nextId
    requires t < |w.stacks| && w.stacks[t] != [] && Top(w, t).pc != Spin
    requires forall x :: 0 <= x < |w.classes| && x != Top(w, t).cls ==> w1.classes[x] == w.classes[x]
    requires OwnerOk(h, w1, t, Top(w, t).(pc := pc))
    ensures Inv(h, SetTop(w1, t, pc)) && StepBy(h, w, SetTop(w1, t, pc), t)
  {
    var w' := SetTop(w1, t, pc);
    var top, c := |w.stacks[t]| - 1, Top(w, t).cls;
    assert FrameOk(h, w, t, top) && ClassOk(h, w, c);
    assert StepBy(h, w, w', t);
    OthersAllKept(h, w, w', t);
    forall k | AtFrame(w', t, k) ensures FrameOk(h, w', t, k) { MoveFrame(h, w, w1, t, pc, k); }
    hide FrameOk;
    forall x | 0 <= x < |w'.classes| ensures ClassOk(h, w', x) {
      if x != c {
        assert StillThere(w, w', t, x);
        ClassKept(h, w, w', t, x);
      } else {
        assert AtFrame(w', t, top);
      }
    }
    hide ClassOk;
    forall u, k | AtFrame(w', u, k) ensures AtFrame(w, u, k) && w'.stacks[u][k].id == w.stacks[u][k].id { }
  }

  lemma MoveFrame(h: Hierarchy, w: World, w1: World, t: nat, pc: Pc, k: int)
    requires Inv(h, w) && StepBy(h, w, w1, t) && w1.stacks == w.stacks && w1.results == w.results && w1.nextId == w.nextId
    requires t < |w.stacks| && w.stacks[t] != [] && Top(w, t).pc != Spin && StepBy(h, w, SetTop(w1, t, pc), t)
    requires forall x :: 0 <= x < |w.classes| && x != Top(w, t).cls ==> w1.classes[x] == w.classes[x]
    requires OwnerOk(h, w1, t, Top(w, t).(pc := pc)) && AtFrame(SetTop(w1, t, pc), t, k)
    ensures FrameOk(h, SetTop(w1, t, pc), t, k)
  {
    var w', top := SetTop(w1, t, pc), |w.stacks[t]| - 1;
    assert AtFrame(w, t, k) && FrameOk(h, w, t, k) && AtFrame(w, t, top);
    if k < top {
      var f := w.stacks[t][k];
      if f.cls == Top(w, t).cls { OneOwner(h, w, t, k, t, top); assert false; }
      hide OwnerOk;
      OwnKept(h, w, w', t, f);
    }
  }

  /** Supers are classes and interfaces, never array classes. */
  ghost predicate NoArraySupers(h: Hierarchy) {
    IsHierarchy(h) && forall c, j :: 0 <= c < |h.supers| && 0 <= j < |h.supers[c]| ==> !h.isArray[h.supers[c][j]]
  }

  ghost function Thread(a: Action): int {
    if a.Link? then -1 else a.t
  }

  lemma LeaveKeeps(h: Hierarchy, w: World, t: nat, error: bool)
    requires Inv(h, w) && t < |w.stacks| && w.stacks[t] != [] && Top(w, t).pc != Spin
    requires !error && Top(w, t).pc.Supers? ==> Top(w, t).cls < |h.supers| && |h.supers[Top(w, t).cls]| <= Top(w, t).pc.i
    ensures Inv(h, Leave(w, t, error)) && StepBy(h, w, Leave(w, t, error), t)
  {
    var c, top := Top(w, t).cls, |w.stacks[t]| - 1;
    assert AtFrame(w, t, top) && FrameOk(h, w, t, top) && ClassOk(h, w, c);
    var w1 := w.(classes := w.classes[c := w.classes[c].(state := if error then LinkageError else Initialized)]);
    hide Inv, FrameOk;
    PopKeeps(h, w, w1, t, if error then 1 else 0);
  }

  lemma SuperDoneKeeps(h: Hierarchy, w: World, t: nat)
    requires Inv(h, w) && Enabled(h, w, SuperDone(t))
    ensures Inv(h, Apply(h, w, SuperDone(t))) && StepBy(h, w, Apply(h, w, SuperDone(t)), t)
  {
    assert AtFrame(w, t, |w.stacks[t]| - 1) && FrameOk(h, w, t, |w.stacks[t]| - 1);
    hide Inv;
    if w.results[t].value != 0 { LeaveKeeps(h, w, t, true); } else { MoveKeeps(h, w, w, t, Supers(Top(w, t).pc.i + 1)); }
  }

  lemma WakeKeeps(h: Hierarchy, w: World, t: nat)
    requires Inv(h, w) && Enabled(h, w, Wake(t))
    ensures Inv(h, Apply(h, w, Wake(t))) && StepBy(h, w, Apply(h, w, Wake(t)), t)
  {
    assert AtFrame(w, t, |w.stacks[t]| - 1) && FrameOk(h, w, t, |w.stacks[t]| - 1) && ClassOk(h, w, Top(w, t).cls);
    hide Inv;
    if w.classes[Top(w, t).cls].state != Initializing { PopKeeps(h, w, w, t, 0); }
  }

  lemma BeginKeeps(h: Hierarchy, w: World, t: nat, constants: bool)
    requires Inv(h, w) && Enabled(h, w, Begin(t, constants))
    ensures Inv(h, Apply(h, w, Begin(t, constants))) && StepBy(h, w, Apply(h, w, Begin(t, constants)), t)
  {
    assert AtFrame(w, t, |w.stacks[t]| - 1) && FrameOk(h, w, t, |w.stacks[t]| - 1);
    var c := Top(w, t).cls;
    hide Inv;
    if !constants { LeaveKeeps(h, w, t, true); }
    else if !h.hasClinit[c] { LeaveKeeps(h, w, t, false); }
    else {
      MoveKeeps(h, w, w.(classes := w.classes[c := w.classes[c].(starts := w.classes[c].starts + 1)]), t, Clinit(w.switches[t]));
    }
  }

  lemma RequestKeeps(h: Hierarchy, w: World, a: Action)
    requires Inv(h, w) && NoArraySupers(h) && Enabled(h, w, a) && (a.Request? || a.NextSuper?)
    ensures Inv(h, Apply(h, w, a)) && StepBy(h, w, Apply(h, w, a), a.t)
  {
    hide Inv, LinkClass, Enter, StepBy;
    InvFacts(h, w, a.t, 0);
    var c := if a.Request? then a.c else h.supers[Top(w, a.t).cls][Top(w, a.t).pc.i];
    EnterKeeps(h, w, a.t, c, a.verify, a.memory);
  }

  /** Every step keeps the invariant, and changes only what its own thread may change. */
  lemma StepKeeps(h: Hierarchy, w: World, a: Action)
    requires Inv(h, w) && NoArraySupers(h) && Enabled(h, w, a)
    ensures Inv(h, Apply(h, w, a)) && StepBy(h, w, Apply(h, w, a), Thread(a))
  {
    hide Inv, StepBy, LinkClass, Enter, Leave, Apply;
    match a
    case Request(t, c, verify, memory) => RequestKeeps(h, w, a);
    case NextSuper(t, verify, memory) => RequestKeeps(h, w, a);
    case SuperDone(t) => SuperDoneKeeps(h, w, t);
    case Wake(t) => WakeKeeps(h, w, t);
    case Begin(t, constants) => BeginKeeps(h, w, t, constants);
    case Suspend(t) => SuspendKeeps(h, w, t);
    case End(t, outcome, leftover) => EndKeeps(h, w, t, outcome, leftover);
    case Link(c, verify) => LinkKeeps(h, w, c, verify);
  }

  lemma EndKeeps(h: Hierarchy, w: World, t: nat, outcome: Outcome, leftover: bool)
    requires Inv(h, w) && Enabled(h, w, End(t, outcome, leftover))
    ensures Inv(h, Apply(h, w, End(t, outcome, leftover))) && StepBy(h, w, Apply(h, w, End(t, outcome, leftover)), t)
  {
    hide Inv, StepBy;
    LeaveKeeps(h, w, t, ErrorAtDone(w, t, outcome, leftover));
  }

  lemma SuspendKeeps(h: Hierarchy, w: World, t: nat)
    requires Inv(h, w) && Enabled(h, w, Suspend(t))
    ensures Inv(h, Apply(h, w, Suspend(t))) && StepBy(h, w, Apply(h, w, Suspend(t)), t)
  {
    var w' := Yielded(w, t);
    assert StepBy(h, w, w', -1) && StepBy(h, w, w', t);
    OthersAllKept(h, w, w', -1);
    hide FrameOk;
    forall x | 0 <= x < |w'.classes| ensures ClassOk(h, w', x) {
      assert StillThere(w, w', -1, x);
      ClassKept(h, w, w', -1, x);
    }
  }

  // ---------- runs ----------

  ghost predicate Start(h: Hierarchy, w: World) {
    && NoArraySupers(h) && Sized(h, w)
    && (forall t :: 0 <= t < |w.stacks| ==> w.stacks[t] == [])
    && (forall c :: 0 <= c < |w.classes| ==> w.classes[c].state != Initializing && w.classes[c].starts == 0 && !w.classes[c].lost)
    && (forall c :: 0 <= c < |w.classes| && w.classes[c].state == Initialized && !h.isArray[c] ==>
        SupersSettled(h, w, c, w.classes[c].owner))
  }

  /** `ws` is a run: any threads take any enabled steps `acts`, in any order. */
  ghost predicate IsRun(h: Hierarchy, ws: seq<World>, acts: seq<Action>) {
    && NoArraySupers(h) && |ws| == |acts| + 1 && Start(h, ws[0])
    && forall i :: 0 <= i < |acts| ==> Enabled(h, ws[i], acts[i]) && ws[i + 1] == Apply(h, ws[i], acts[i])
  }

  lemma {:induction false} RunInv(h: Hierarchy, ws: seq<World>, acts: seq<Action>, i: nat)
    requires IsRun(h, ws, acts) && i < |ws|
    ensures Inv(h, ws[i]) && |ws[i].classes| == |h.supers|
  {
    hide Apply, Enabled;
    if i == 0 {
      assert forall c :: 0 <= c < |ws[0].classes| ==> ClassOk(h, ws[0], c);
    } else {
      RunInv(h, ws, acts, i - 1);
      StepKeeps(h, ws[i - 1], acts[i - 1]);
      assert ws[i - 1 + 1] == Apply(h, ws[i - 1], acts[i - 1]);
    }
  }

  lemma RunStep(h: Hierarchy, ws: seq<World>, acts: seq<Action>, i: nat)
    requires IsRun(h, ws, acts) && i < |acts|
    ensures Inv(h, ws[i]) && Enabled(h, ws[i], acts[i]) && ws[i + 1] == Apply(h, ws[i], acts[i])
            && StepBy(h, ws[i], ws[i + 1], Thread(acts[i]))
  {
    hide Apply, Enabled, Inv, StepBy;
    RunInv(h, ws, acts, i);
    StepKeeps(h, ws[i], acts[i]);
  }

  /** How far a class has come. */
  function Progress(s: ClassState): int {
    match s case Loaded => 0 case Linked => 1 case Initializing => 2 case Initialized => 3 case LinkageError => 3
  }

  /** Along a run a class only moves forward, and nothing about an initialization in progress is forgotten. */
  lemma {:induction false} Forward(h: Hierarchy, ws: seq<World>, acts: seq<Action>, i: nat, j: nat, c: nat)
    requires IsRun(h, ws, acts) && i <= j < |ws| && c < |h.supers|
    ensures |ws[i].classes| == |ws[j].classes| == |h.supers|
    ensures Progress(ws[i].classes[c].state) <= Progress(ws[j].classes[c].state) && ws[i].classes[c].starts <= ws[j].classes[c].starts
    ensures Progress(ws[i].classes[c].state) == 3 ==> ws[j].classes[c] == ws[i].classes[c]
    ensures ws[i].classes[c].state == ws[j].classes[c].state == Initializing ==>
              ws[i].classes[c].owner == ws[j].classes[c].owner && ws[i].classes[c].enteredBy == ws[j].classes[c].enteredBy
                  && ws[i].classes[c].lost == ws[j].classes[c].lost
  {
    hide Inv, IsRun, Apply, Enabled;
    RunInv(h, ws, acts, i);
    RunInv(h, ws, acts, j);
    if i < j {
      Forward(h, ws, acts, i, j - 1, c);
      RunLength(h, ws, acts);
      RunStep(h, ws, acts, j - 1);
      assert ChangedBy(ws[j - 1].classes[c], ws[j].classes[c], Thread(acts[j - 1]));
    }
  }

  lemma RunLength(h: Hierarchy, ws: seq<World>, acts: seq<Action>)
    requires IsRun(h, ws, acts)
    ensures |ws| == |acts| + 1 && IsHierarchy(h)
  {
  }

  /** Step `a` calls `<clinit>` of class `c`. */
  ghost predicate StartsClinit(h: Hierarchy, w: World, a: Action, c: nat) {
    a.Begin? && Enabled(h, w, a) && a.constants && Top(w, a.t).cls == c && h.hasClinit[c]
  }

  lemma AtStart(h: Hierarchy, w: World, a: Action, c: nat)
    requires Inv(h, w) && StartsClinit(h, w, a, c)
    ensures c < |w.classes| && w.classes[c].starts == 0 && Apply(h, w, a).classes[c].starts == 1
    ensures w.classes[c].state == Initializing && w.classes[c].owner == a.t
    ensures forall j :: 0 <= j < |h.supers[c]| ==> Settled(w, a.t, h.supers[c][j])
  {
    assert AtFrame(w, a.t, |w.stacks[a.t]| - 1) && FrameOk(h, w, a.t, |w.stacks[a.t]| - 1);
  }

  /** In every run, `<clinit>` of a class is called at most once. */
  lemma ClinitRunsOnce(h: Hierarchy, ws: seq<World>, acts: seq<Action>, i: nat, j: nat, c: nat)
    requires IsRun(h, ws, acts) && i < |acts| && j < |acts| && StartsClinit(h, ws[i], acts[i], c) && StartsClinit(h, ws[j], acts[j], c)
    ensures i == j
  {
    hide Inv, IsRun, Apply, Enabled, StartsClinit;
    RunLength(h, ws, acts);
    RunStep(h, ws, acts, i);
    RunStep(h, ws, acts, j);
    AtStart(h, ws[i], acts[i], c);
    AtStart(h, ws[j], acts[j], c);
    if i < j { Forward(h, ws, acts, i + 1, j, c); }
    if j < i { Forward(h, ws, acts, j + 1, i, c); }
  }

  /** When `<clinit>` of a class is called, every direct superclass and superinterface is initialized,
      erroneous, or being initialized by the same thread; never by another one. */
  lemma SupersSettledFirst(h: Hierarchy, ws: seq<World>, acts: seq<Action>, i: nat, c: nat, j: nat)
    requires IsRun(h, ws, acts) && i < |acts| && StartsClinit(h, ws[i], acts[i], c) && c < |h.supers| && j < |h.supers[c]|
    ensures Settled(ws[i], acts[i].t, h.supers[c][j])
  {
    hide Inv, IsRun, Apply, Enabled;
    RunLength(h, ws, acts);
    RunStep(h, ws, acts, i);
    AtStart(h, ws[i], acts[i], c);
  }

  /** The running activation of `t` owns class `c`. */
  ghost predicate RunsOwner(w: World, t: int, c: nat) {
    && 0 <= t < |w.stacks| && w.stacks[t] != [] && c < |w.classes|
    && Top(w, t).cls == c && Top(w, t).pc != Spin && Top(w, t).id == w.classes[c].enteredBy && w.classes[c].owner == t
  }

  lemma OnlyTopLeaves(h: Hierarchy, w: World, a: Action, c: nat)
    requires Inv(h, w) && Enabled(h, w, a) && c < |w.classes| && w.classes[c].state == Initializing
    requires Apply(h, w, a).classes[c].state != Initializing
    ensures RunsOwner(w, Thread(a), c) && !w.classes[c].lost
  {
    if a.SuperDone? || a.Begin? || a.End? {
      assert AtFrame(w, a.t, |w.stacks[a.t]| - 1) && FrameOk(h, w, a.t, |w.stacks[a.t]| - 1);
    } else {
      hide Inv, LinkClass;
      EnterTouches(h, w, a, c);
      assert false;
    }
  }

  lemma EnterTouches(h: Hierarchy, w: World, a: Action, c: nat)
    requires IsHierarchy(h) && Enabled(h, w, a) && c < |w.classes| && w.classes[c].state == Initializing
             && (a.Request? || a.NextSuper? || a.Wake? || a.Link?)
    ensures Apply(h, w, a).classes[c] == w.classes[c]
  {
    hide LinkClass;
    match a
    case Wake(t) =>
    case Link(d, verify) => assert OnlyLinked(w.classes[c], LinkClass(h, w.classes, d, verify).0[c]);
    case Request(t, d, verify, memory) => assert OnlyLinked(w.classes[c], LinkClass(h, w.classes, d, verify).0[c]);
    case NextSuper(t, verify, memory) =>
      var d := h.supers[Top(w, t).cls][Top(w, t).pc.i];
      assert OnlyLinked(w.classes[c], LinkClass(h, w.classes, d, verify).0[c]);
  }

  /** Only the activation that took class `c` into Initializing, at step `i`, can take it out again, at step `j`. */
  lemma OnlyEntererLeaves(h: Hierarchy, ws: seq<World>, acts: seq<Action>, i: nat, j: nat, c: nat)
    requires IsRun(h, ws, acts) && i < j < |acts| && c < |h.supers|
    requires |ws[i].classes| == |ws[i + 1].classes| == |ws[j].classes| == |ws[j + 1].classes| == |h.supers|
    requires ws[i].classes[c].state != Initializing && ws[i + 1].classes[c].state == Initializing
    requires ws[j].classes[c].state == Initializing && ws[j + 1].classes[c].state != Initializing
    ensures Thread(acts[j]) == Thread(acts[i]) && RunsOwner(ws[j], Thread(acts[i]), c)
    ensures Top(ws[j], Thread(acts[i])).id == ws[i].nextId && RunsOwner(ws[i + 1], Thread(acts[i]), c)
  {
    hide Inv, IsRun, Enabled, Apply, IsHierarchy;
    RunLength(h, ws, acts);
    RunStep(h, ws, acts, i);
    RunStep(h, ws, acts, j);
    OnlyTopLeaves(h, ws[j], acts[j], c);
    Forward(h, ws, acts, i + 1, j, c);
    Claimed(h, ws[i], acts[i], c);
  }

  lemma Claimed(h: Hierarchy, w: World, a: Action, c: nat)
    requires IsHierarchy(h) && Enabled(h, w, a) && c < |w.classes| && w.classes[c].state != Initializing && c < |Apply(h, w, a).classes|
    requires Apply(h, w, a).classes[c].state == Initializing
    ensures Apply(h, w, a).classes[c].enteredBy == w.nextId && Apply(h, w, a).classes[c].owner == Thread(a) >= 0
    ensures !Apply(h, w, a).classes[c].lost ==> RunsOwner(Apply(h, w, a), Thread(a), c)
  {
    hide LinkClass;
    match a
    case Link(d, verify) => LinkDoesNotClaim(h, w, d, verify, c); assert false;
    case Request(t, d, verify, memory) => EnterClaims(h, w, t, d, verify, memory, c);
    case NextSuper(t, verify, memory) => EnterClaims(h, w, t, h.supers[Top(w, t).cls][Top(w, t).pc.i], verify, memory, c);
    case _ =>
  }

  lemma LinkDoesNotClaim(h: Hierarchy, w: World, d: nat, verify: seq<bool>, c: nat)
    requires IsHierarchy(h) && Sized(h, w) && c < |w.classes| && d < |w.classes| == |verify| && w.classes[c].state != Initializing
    ensures LinkClass(h, w.classes, d, verify).0[c].state != Initializing
  {
    hide LinkClass;
    assert OnlyLinked(w.classes[c], LinkClass(h, w.classes, d, verify).0[c]);
  }

  lemma EnterClaims(h: Hierarchy, w: World, t: nat, d: nat, verify: seq<bool>, memory: bool, c: nat)
    requires IsHierarchy(h) && Sized(h, w) && |verify| == |w.classes| && t < |w.stacks| && d < |w.classes| && c < |w.classes|
             && w.classes[c].state != Initializing
    ensures var w' := Enter(h, w, t, d, verify, memory);
            |w'.classes| == |w.classes| &&
            (w'.classes[c].state == Initializing ==>
                  w'.classes[c].enteredBy == w.nextId && w'.classes[c].owner == t && (!w'.classes[c].lost ==> RunsOwner(w', t, c)))
  {
    hide LinkClass;
    LinkDoesNotClaim(h, w, d, verify, c);
  }

  /** `<clinit>` of class `c` ends at step `a` with an exception other than an Error, after a suspension. */
  ghost predicate ThrewAfterSuspension(w: World, a: Action, c: nat) {
    a.End? && a.outcome == ThrewOther && Suspended(w, a.t) && Top(w, a.t).cls == c
  }

  /** How a class leaves Initializing: as erroneous if the activation of a super returned an error, constant fields could
      not be set, or `<clinit>` threw after a suspension and the lost variable happens to be nonzero; as initialized
      in every other case. */
  lemma LeavesAs(h: Hierarchy, w: World, a: Action, c: nat)
    requires Inv(h, w) && Enabled(h, w, a) && c < |w.classes| && w.classes[c].state == Initializing
    requires Apply(h, w, a).classes[c].state != Initializing
    ensures Apply(h, w, a).classes[c].state in {Initialized, LinkageError}
    ensures Apply(h, w, a).classes[c].state == LinkageError <==>
              || (a.SuperDone? && w.results[a.t] != Some(0))
              || (a.Begin? && !a.constants)
              || (ThrewAfterSuspension(w, a, c) && a.leftover)
  {
    hide LinkClass, Inv;
    OnlyTopLeaves(h, w, a, c);
    if !(a.SuperDone? || a.Begin? || a.End?) {
      InvFacts(h, w, 0, c);
      EnterTouches(h, w, a, c);
      assert false;
    }
  }

  /** A class whose `<clinit>` ends is certain to be initialized if and only if `<clinit>` did not throw a non-Error
      exception after a suspension. */
  lemma InitializedIsCertain(h: Hierarchy, w: World, t: nat, outcome: Outcome)
    requires Inv(h, w) && t < |w.stacks| && w.stacks[t] != [] && Top(w, t).pc.Clinit?
    ensures Enabled(h, w, End(t, outcome, false)) && Enabled(h, w, End(t, outcome, true))
    ensures (forall leftover :: ClassAfterEnd(h, w, t, outcome, leftover) == Initialized) <==> !(outcome == ThrewOther && Suspended(w, t))
  {
    assert ClassAfterEnd(h, w, t, outcome, true) == if outcome == ThrewOther && Suspended(w, t) then LinkageError else Initialized;
  }

  ghost function ClassAfterEnd(h: Hierarchy, w: World, t: nat, outcome: Outcome, leftover: bool): ClassState
    requires IsHierarchy(h) && Enabled(h, w, End(t, outcome, leftover))
  {
    Apply(h, w, End(t, outcome, leftover)).classes[Top(w, t).cls].state
  }

  /** In a run, a class whose `<clinit>` has started becomes erroneous if and only if `<clinit>` threw a non-Error exception
      after a suspension and the lost variable was nonzero. */
  lemma {:induction false} ErroneousAfterClinit(h: Hierarchy, ws: seq<World>, acts: seq<Action>, i: nat, j: nat, c: nat)
    requires IsRun(h, ws, acts) && i < |acts| && StartsClinit(h, ws[i], acts[i], c) && i < j < |ws|
    ensures c < |ws[j].classes|
    ensures ws[j].classes[c].state == LinkageError <==>
            exists k :: i < k < j && ThrewAfterSuspension(ws[k], acts[k], c) && acts[k].leftover
    decreases j
  {
    hide IsRun, Apply, Enabled, StartsClinit, Inv, ThrewAfterSuspension;
    RunLength(h, ws, acts);
    RunStep(h, ws, acts, i);
    AtStart(h, ws[i], acts[i], c);
    AfterStart(h, ws[i], acts[i], c);
    RunInv(h, ws, acts, i);
    if j > i + 1 {
      ErroneousAfterClinit(h, ws, acts, i, j - 1, c);
      RunStep(h, ws, acts, j - 1);
      RunInv(h, ws, acts, j);
      Forward(h, ws, acts, i + 1, j - 1, c);
      Forward(h, ws, acts, j - 1, j, c);
      LastStep(h, ws[j - 1], acts[j - 1], c);
    }
  }

  lemma AfterStart(h: Hierarchy, w: World, a: Action, c: nat)
    requires Inv(h, w) && StartsClinit(h, w, a, c)
    ensures c < |Apply(h, w, a).classes| && Apply(h, w, a).classes[c].state == Initializing
  {
    assert AtFrame(w, a.t, |w.stacks[a.t]| - 1) && FrameOk(h, w, a.t, |w.stacks[a.t]| - 1);
  }

  /** One step of a class whose `<clinit>` is running or has ended. */
  lemma LastStep(h: Hierarchy, w: World, a: Action, c: nat)
    requires Inv(h, w) && Enabled(h, w, a) && c < |w.classes| == |Apply(h, w, a).classes| && w.classes[c].starts > 0
             && Progress(w.classes[c].state) >= 2
    requires Progress(w.classes[c].state) == 3 ==> Apply(h, w, a).classes[c] == w.classes[c]
    ensures Apply(h, w, a).classes[c].state == LinkageError <==>
            w.classes[c].state == LinkageError || (ThrewAfterSuspension(w, a, c) && a.leftover)
  {
    if w.classes[c].state == Initializing {
      if Apply(h, w, a).classes[c].state != Initializing {
        LeavesAs(h, w, a, c);
        OnlyTopLeaves(h, w, a, c);
        assert AtFrame(w, a.t, |w.stacks[a.t]| - 1) && FrameOk(h, w, a.t, |w.stacks[a.t]| - 1);
      }
    } else {
      NotRunning(h, w, a, c);
    }
  }

  lemma NotRunning(h: Hierarchy, w: World, a: Action, c: nat)
    requires Inv(h, w) && Enabled(h, w, a) && c < |w.classes| && w.classes[c].state != Initializing
    ensures !ThrewAfterSuspension(w, a, c)
  {
    if a.End? {
      InvFacts(h, w, a.t, c);
      assert AtFrame(w, a.t, |w.stacks[a.t]| - 1);
    }
  }

  // ---------- indirect supers ----------

  /** Each class is a direct super of the one before it. */
  ghost predicate IsSuperPath(h: Hierarchy, p: seq<nat>) {
    && 2 <= |p| && (forall i :: 0 <= i < |p| ==> p[i] < |h.supers|)
    && forall i :: 0 <= i < |p| - 1 ==> p[i + 1] in h.supers[p[i]]
  }

  /** A class through which a busy super can stay unnoticed: one that is erroneous, or whose own supers are still being
      initialized. */
  ghost predicate Leaky(w: World, x: nat) {
    x < |w.classes| && (w.classes[x].state == LinkageError || (w.classes[x].state == Initializing && w.classes[x].starts == 0))
  }

  ghost predicate InitializedBy(w: World, x: nat, u: int) {
    x < |w.classes| && w.classes[x].state == Initialized && w.classes[x].owner == u
  }

  /** The supers of a settled class that is not leaky are settled with respect to the thread that initialized it. */
  lemma SupersOfSettled(h: Hierarchy, w: World, v: int, x: nat) returns (u: int)
    requires Inv(h, w) && x < |h.supers| && !h.isArray[x] && Settled(w, v, x) && !Leaky(w, x)
    ensures SupersSettled(h, w, x, u) && (u == v || InitializedBy(w, x, u))
  {
    assert ClassOk(h, w, x);
    u := w.classes[x].owner;
    if w.classes[x].state == Initializing {
      var k :| AtFrame(w, u, k) && w.stacks[u][k].id == w.classes[x].enteredBy && w.stacks[u][k].cls == x;
      assert FrameOk(h, w, u, k);
    }
  }

  /** Along a path of supers without leaky classes, everything is settled, with respect to `t` or to the thread that
      initialized a class on the way. */
  lemma {:induction false} SettledAlong(h: Hierarchy, w: World, t: int, p: seq<nat>, k: nat) returns (u: int)
    requires Inv(h, w) && NoArraySupers(h) && IsSuperPath(h, p) && 0 < k < |p| && SupersSettled(h, w, p[0], t)
    requires forall i :: 0 < i < k ==> !Leaky(w, p[i])
    ensures Settled(w, u, p[k]) && (u == t || exists i :: 0 < i < k && InitializedBy(w, p[i], u))
  {
    hide Settled, InitializedBy, Leaky, Inv, SupersSettled;
    if k == 1 {
      u := t;
      InSupersList(h, w, p[0], t, p[1]);
    } else {
      var v := SettledAlong(h, w, t, p, k - 1);
      SuperNotArray(h, p, k - 1);
      u := SupersOfSettled(h, w, v, p[k - 1]);
      assert p[k - 1 + 1] in h.supers[p[k - 1]];
      InSupersList(h, w, p[k - 1], u, p[k]);
      if u == v && u != t {
        var i :| 0 < i < k - 1 && InitializedBy(w, p[i], u);
      }
    }
  }

  lemma InSupersList(h: Hierarchy, w: World, c: nat, t: int, d: nat)
    requires c < |h.supers| && SupersSettled(h, w, c, t) && d in h.supers[c]
    ensures Settled(w, t, d)
  {
    var j :| 0 <= j < |h.supers[c]| && h.supers[c][j] == d;
  }

  lemma SuperNotArray(h: Hierarchy, p: seq<nat>, k: nat)
    requires NoArraySupers(h) && IsSuperPath(h, p) && 0 < k < |p|
    ensures p[k] < |h.supers| == |h.isArray| && !h.isArray[p[k]]
  {
    assert p[k - 1 + 1] in h.supers[p[k - 1]];
    var j :| 0 <= j < |h.supers[p[k - 1]]| && h.supers[p[k - 1]][j] == p[k];
  }

  /** When `<clinit>` of a class starts, an indirect super can be busy on another thread `u` only if a class between the two
      was initialized by `u`, is erroneous, or is still waiting for its own supers. */
  lemma IndirectSupers(h: Hierarchy, ws: seq<World>, acts: seq<Action>, i: nat, p: seq<nat>)
    requires IsRun(h, ws, acts) && i < |acts| && IsSuperPath(h, p) && StartsClinit(h, ws[i], acts[i], p[0])
    requires |ws[i].classes| == |h.supers| && ws[i].classes[p[|p| - 1]].state == Initializing
             && ws[i].classes[p[|p| - 1]].owner != acts[i].t
    ensures exists k :: 0 < k < |p| - 1 && (Leaky(ws[i], p[k]) || InitializedBy(ws[i], p[k], ws[i].classes[p[|p| - 1]].owner))
  {
    hide Inv, Apply, Enabled;
    var w, n := ws[i], |p| - 1;
    RunStep(h, ws, acts, i);
    AtStart(h, w, acts[i], p[0]);
    if forall k :: 0 < k < n ==> !Leaky(w, p[k]) {
      var u := SettledAlong(h, w, acts[i].t, p, n);
      assert u == w.classes[p[n]].owner;
    }
  }

  /** So with no such class in between, every super, direct or not, is settled. */
  lemma AllSupersSettled(h: Hierarchy, ws: seq<World>, acts: seq<Action>, i: nat, p: seq<nat>)
    requires IsRun(h, ws, acts) && i < |acts| && IsSuperPath(h, p) && StartsClinit(h, ws[i], acts[i], p[0])
    requires forall k :: 0 < k < |p| - 1 ==> !Leaky(ws[i], p[k]) && forall u :: InitializedBy(ws[i], p[k], u) ==> u == acts[i].t
    ensures Settled(ws[i], acts[i].t, p[|p| - 1])
  {
    hide Inv, Apply, Enabled;
    RunStep(h, ws, acts, i);
    AtStart(h, ws[i], acts[i], p[0]);
    var u := SettledAlong(h, ws[i], acts[i].t, p, |p| - 1);
  }

  /** A class whose activation ran out of memory stays in Initializing for ever. */
  lemma LostForever(h: Hierarchy, ws: seq<World>, acts: seq<Action>, i: nat, j: nat, c: nat)
    requires IsRun(h, ws, acts) && i <= j < |ws| && c < |h.supers| == |ws[i].classes| && ws[i].classes[c].lost
    ensures |ws[j].classes| == |h.supers| && ws[j].classes[c].state == Initializing && ws[j].classes[c].lost
  {
    hide IsRun;
    RunInv(h, ws, acts, i);
    assert ClassOk(h, ws[i], c);
    hide Inv;
    if i < j {
      LostForever(h, ws, acts, i, j - 1, c);
      RunLength(h, ws, acts);
      RunStep(h, ws, acts, j - 1);
      Forward(h, ws, acts, i, j, c);
      if ws[j].classes[c].state != Initializing { OnlyTopLeaves(h, ws[j - 1], acts[j - 1], c); assert false; }
    }
  }

  // ---------- what a request achieves ----------

  ghost predicate Finished(w: World, c: nat) {
    c < |w.classes| && w.classes[c].state in {Initialized, LinkageError}
  }

  /** What a request by thread `t` for class `c` has led to: the class is finished, or the thread itself is at it already, or there
      was no memory; otherwise an activation for the class has been started. */
  ghost predicate Answered(h: Hierarchy, w: World, a: Action, w': World, t: nat, c: nat) {
    && t < |w.stacks| && t < |w'.stacks| && c < |w.classes|
    && if w'.stacks[t] == w.stacks[t]
       then Finished(w', c) || (w.classes[c].state == Initializing && w.classes[c].owner == t) || GivesUp(h, w, a, c)
       else Extends(w.stacks[t], w'.stacks[t], c) && |w'.stacks[t]| == |w.stacks[t]| + 1
  }

  /** `s'` has all frames of `s`, and above them one for class `c`. */
  ghost predicate Extends(s: seq<Frame>, s': seq<Frame>, c: nat) {
    |s| < |s'| && s'[..|s|] == s && s'[|s|].cls == c
  }

  lemma EnterAnswers(h: Hierarchy, w: World, t: nat, c: nat, verify: seq<bool>, memory: bool)
    requires IsHierarchy(h) && Sized(h, w) && |verify| == |w.classes| && t < |w.stacks| && c < |w.classes| && !h.isArray[c]
    ensures var w' := Enter(h, w, t, c, verify, memory);
            && |w'.stacks| == |w.stacks|
            && if w'.stacks[t] == w.stacks[t]
               then || Finished(w', c) || (w.classes[c].state == Initializing && w.classes[c].owner == t)
                    || (!memory && w.classes[c].state in {Loaded, Linked} && !LinkClass(h, w.classes, c, verify).1)
               else Extends(w.stacks[t], w'.stacks[t], c) && |w'.stacks[t]| == |w.stacks[t]| + 1
  {
    hide LinkClass;
    assert OnlyLinked(w.classes[c], LinkClass(h, w.classes, c, verify).0[c]);
  }

  /** In every run, a request is answered, or an activation for the class is on top of the thread's stack. */
  lemma RequestAnswered(h: Hierarchy, ws: seq<World>, acts: seq<Action>, i: nat, c: nat)
    requires IsRun(h, ws, acts) && i < |acts| && IsHierarchy(h) && Enabled(h, ws[i], acts[i]) && Asked(h, ws[i], acts[i]) == Some(c)
    requires c < |h.isArray| && !h.isArray[c]
    ensures Answered(h, ws[i], acts[i], ws[i + 1], acts[i].t, c)
  {
    var w, a := ws[i], acts[i];
    RunStep(h, ws, acts, i);
    RunInv(h, ws, acts, i);
    hide IsRun, Inv, LinkClass, Enter, StepBy;
    EnterAnswers(h, w, a.t, c, a.verify, a.memory);
  }

  /** What a step may do to the stack of a thread. */
  ghost predicate StackStep(s: seq<Frame>, s': seq<Frame>) {
    || s' == s
    || (|s'| == |s| + 1 && s'[..|s|] == s)
    || (|s| > 0 && s' == s[..|s| - 1])
    || (|s| > 0 && |s'| == |s| && s'[..|s| - 1] == s[..|s| - 1] && s'[|s| - 1].cls == s[|s| - 1].cls)
  }

  lemma StacksStep(h: Hierarchy, w: World, a: Action, t: nat)
    requires IsHierarchy(h) && Enabled(h, w, a) && t < |w.stacks|
    ensures t < |Apply(h, w, a).stacks| && StackStep(w.stacks[t], Apply(h, w, a).stacks[t])
  {
    hide LinkClass, Enter, Leave, Pop, SetTop, StackStep;
    StackSame(w.stacks[t]);
    match a
    case Request(u, c, verify, memory) => EnterStacks(h, w, u, c, verify, memory, t);
    case NextSuper(u, verify, memory) => EnterStacks(h, w, u, h.supers[Top(w, u).cls][Top(w, u).pc.i], verify, memory, t);
    case Wake(u) => PopStacks(w, u, 0, t);
    case SuperDone(u) =>
      LeavePops(w, u, true, t);
      SetTopStacks(w, u, Supers(Top(w, u).pc.i + 1), t);
    case Begin(u, constants) =>
      LeavePops(w, u, !constants, t);
      var c := Top(w, u).cls;
      SetTopStacks(w.(classes := w.classes[c := w.classes[c].(starts := w.classes[c].starts + 1)]), u, Clinit(w.switches[u]), t);
    case End(u, outcome, leftover) => LeavePops(w, u, ErrorAtDone(w, u, outcome, leftover), t);
    case _ =>
  }

  lemma StackSame(s: seq<Frame>)
    ensures StackStep(s, s)
  {
  }

  lemma PopStacks(w: World, u: nat, r: int, t: nat)
    requires t < |w.stacks| && u < |w.stacks| == |w.results| && w.stacks[u] != []
    ensures |Pop(w, u, r).stacks| == |w.stacks| && StackStep(w.stacks[t], Pop(w, u, r).stacks[t])
  {
  }

  lemma SetTopStacks(w: World, u: nat, pc: Pc, t: nat)
    requires t < |w.stacks| && u < |w.stacks| == |w.results| && w.stacks[u] != []
    ensures var w' := SetTop(w, u, pc);
            |w'.stacks| == |w.stacks| && StackStep(w.stacks[t], w'.stacks[t]) && |w'.stacks[t]| == |w.stacks[t]|
  {
  }

  /** An activation stays on the stack, with everything below it, until it returns. */
  lemma {:induction false} ActivationStays(h: Hierarchy, ws: seq<World>, acts: seq<Action>, i: nat, k: nat, t: nat, c: nat)
    requires IsRun(h, ws, acts) && i < k < |ws| && t < |ws[i].stacks| && t < |ws[i + 1].stacks|
    requires Extends(ws[i].stacks[t], ws[i + 1].stacks[t], c)
    requires forall l :: i < l <= k ==> t < |ws[l].stacks| && |ws[l].stacks[t]| > |ws[i].stacks[t]|
    ensures Extends(ws[i].stacks[t], ws[k].stacks[t], c)
  {
    hide Apply, Enabled, IsRun, Inv, StepBy;
    if k > i + 1 {
      ActivationStays(h, ws, acts, i, k - 1, t, c);
      RunLength(h, ws, acts);
      RunStep(h, ws, acts, k - 1);
      StacksStep(h, ws[k - 1], acts[k - 1], t);
      StillExtends(ws[i].stacks[t], ws[k - 1].stacks[t], ws[k].stacks[t], c);
    }
  }

  lemma StillExtends(s: seq<Frame>, s1: seq<Frame>, s2: seq<Frame>, c: nat)
    requires Extends(s, s1, c) && StackStep(s1, s2) && |s| < |s2|
    ensures Extends(s, s2, c)
  {
    var n, m := |s|, |s1| - 1;
    if |s2| == |s1| + 1 {
      assert s2[..n] == s2[..|s1|][..n] && s2[n] == s2[..|s1|][n];
    } else if |s2| == |s1| - 1 {
      assert s2[..n] == s1[..n] && s2[n] == s1[n];
    } else if s2 != s1 {
      assert s2[..n] == s2[..m][..n] && s1[..n] == s1[..m][..n];
      if n < m { assert s2[n] == s2[..m][n] && s1[n] == s1[..m][n]; }
    }
  }

  /** A step that takes an activation off the stack leaves its class finished.  An activation waiting below learns whether it was
      initialized, unless the one above it has only waited for another thread. */
  lemma PopFinishes(h: Hierarchy, w: World, a: Action, t: nat)
    requires Inv(h, w) && Enabled(h, w, a) && t < |w.stacks| && w.stacks[t] != []
    requires t < |Apply(h, w, a).stacks| && |Apply(h, w, a).stacks[t]| < |w.stacks[t]|
    ensures PopDone(w, a, t, Apply(h, w, a))
  {
    assert AtFrame(w, t, |w.stacks[t]| - 1) && FrameOk(h, w, t, |w.stacks[t]| - 1);
    hide Inv, LinkClass, Enter, Leave, Pop, FrameOk, PopDone;
    match a
    case Request(u, c, verify, memory) => EnterStacks(h, w, u, c, verify, memory, t);
    case NextSuper(u, verify, memory) => EnterStacks(h, w, u, h.supers[Top(w, u).cls][Top(w, u).pc.i], verify, memory, t);
    case Wake(u) =>
      assert FrameOk(h, w, t, |w.stacks[t]| - 1);
      WakePops(h, w, u, t);
    case SuperDone(u) =>
      if w.results[u].value != 0 { LeftDone(w, a, true, t); }
    case Begin(u, constants) =>
      if !constants || !h.hasClinit[Top(w, u).cls] { LeftDone(w, a, !constants, t); }
    case End(u, outcome, leftover) => LeftDone(w, a, ErrorAtDone(w, u, outcome, leftover), t);
    case _ =>
  }

  lemma LeftDone(w: World, a: Action, error: bool, t: nat)
    requires !a.Link? && !a.Wake? && t < |w.stacks| && a.t < |w.stacks| == |w.results| && w.stacks[a.t] != []
    requires Top(w, a.t).cls < |w.classes|
    ensures |Leave(w, a.t, error).stacks| == |w.stacks|
    ensures |Leave(w, a.t, error).stacks[t]| < |w.stacks[t]| ==> PopDone(w, a, t, Leave(w, a.t, error))
  {
    LeavePops(w, a.t, error, t);
    hide Leave;
  }

  ghost predicate PopDone(w: World, a: Action, t: nat, w': World) {
    && t < |w.stacks| == |w'.stacks| == |w'.results| && w.stacks[t] != [] && w'.stacks[t] == w.stacks[t][..|w.stacks[t]| - 1]
    && Finished(w', Top(w, t).cls)
    && (InSupers(w', t) ==> w'.results[t].Some? && (w'.results[t].value == 0 <==>
                                                      a.Wake? || w'.classes[Top(w, t).cls].state == Initialized))
  }

  lemma EnterStacks(h: Hierarchy, w: World, u: nat, d: nat, verify: seq<bool>, memory: bool, t: nat)
    requires IsHierarchy(h) && Sized(h, w) && |verify| == |w.classes| && u < |w.stacks| && d < |w.classes| && t < |w.stacks|
    ensures t < |Enter(h, w, u, d, verify, memory).stacks|
    ensures StackStep(w.stacks[t], Enter(h, w, u, d, verify, memory).stacks[t])
    ensures |w.stacks[t]| <= |Enter(h, w, u, d, verify, memory).stacks[t]|
  {
    hide LinkClass;
  }

  lemma LeavePops(w: World, u: nat, error: bool, t: nat)
    requires t < |w.stacks| && u < |w.stacks| == |w.results| && w.stacks[u] != [] && Top(w, u).cls < |w.classes|
    ensures var w' := Leave(w, u, error);
            && |w'.stacks| == |w'.results| == |w.stacks| && StackStep(w.stacks[t], w'.stacks[t])
            && (u != t ==> w'.stacks[t] == w.stacks[t])
            && w'.stacks[u] == w.stacks[u][..|w.stacks[u]| - 1] && Finished(w', Top(w, u).cls)
            && (InSupers(w', u) ==> w'.results[u].Some? && (w'.results[u].value == 0 <==> w'.classes[Top(w, u).cls].state == Initialized))
  {
  }

  lemma WakePops(h: Hierarchy, w: World, u: nat, t: nat)
    requires IsHierarchy(h) && Enabled(h, w, Wake(u)) && t < |w.stacks| && w.stacks[t] != [] && |w.results| == |w.stacks|
    requires FrameOk(h, w, t, |w.stacks[t]| - 1)
    ensures var w' := Apply(h, w, Wake(u));
            |w'.stacks| == |w.stacks| && StackStep(w.stacks[t], w'.stacks[t]) &&
            (|w'.stacks[t]| < |w.stacks[t]| ==> PopDone(w, Wake(u), t, w'))
  {
    hide OwnerOk;
  }

  /** In every run, when a thread is back at the stack from which it asked for a class, and an activation had been started, the class
      is initialized or erroneous. */
  lemma RequestReturns(h: Hierarchy, ws: seq<World>, acts: seq<Action>, i: nat, j: nat, t: nat, c: nat)
    requires IsRun(h, ws, acts) && i + 1 < j < |ws| && t < |ws[i].stacks| && t < |ws[i + 1].stacks| && t < |ws[j].stacks|
    requires Extends(ws[i].stacks[t], ws[i + 1].stacks[t], c) && |ws[i + 1].stacks[t]| == |ws[i].stacks[t]| + 1
    requires forall l :: i < l < j ==> t < |ws[l].stacks| && |ws[l].stacks[t]| > |ws[i].stacks[t]|
    requires |ws[j].stacks[t]| <= |ws[i].stacks[t]|
    ensures ws[j].stacks[t] == ws[i].stacks[t] && Finished(ws[j], c)
  {
    hide Apply, Enabled, IsRun, Inv, StepBy, Finished;
    ActivationStays(h, ws, acts, i, j - 1, t, c);
    RunLength(h, ws, acts);
    RunStep(h, ws, acts, j - 1);
    StacksStep(h, ws[j - 1], acts[j - 1], t);
    PopFinishes(h, ws[j - 1], acts[j - 1], t);
  }

  /** What a waiting activation learns at once, where no activation is started: success, unless there was no memory. */
  lemma AnsweredAtOnce(h: Hierarchy, w: World, a: Action, c: nat)
    requires Inv(h, w) && Enabled(h, w, a) && a.NextSuper? && Asked(h, w, a) == Some(c) && c < |h.isArray| && !h.isArray[c]
    requires a.t < |Apply(h, w, a).stacks| && Apply(h, w, a).stacks[a.t] == w.stacks[a.t]
    ensures |Apply(h, w, a).results| == |w.results|
    ensures Apply(h, w, a).results[a.t] == Some(if GivesUp(h, w, a, c) then -1 else 0)
  {
    hide LinkClass, Inv, Enter;
    assert IsHierarchy(h) by { InvHierarchy(h, w); }
    EnterAnswersAtOnce(h, w, a.t, c, a.verify, a.memory);
  }

  lemma InvHierarchy(h: Hierarchy, w: World)
    requires Inv(h, w)
    ensures IsHierarchy(h)
  {
  }

  lemma EnterAnswersAtOnce(h: Hierarchy, w: World, t: nat, c: nat, verify: seq<bool>, memory: bool)
    requires IsHierarchy(h) && Sized(h, w) && |verify| == |w.classes| && c < |w.classes| && !h.isArray[c] && InSupers(w, t)
    requires t < |Enter(h, w, t, c, verify, memory).stacks| && Enter(h, w, t, c, verify, memory).stacks[t] == w.stacks[t]
    ensures var w' := Enter(h, w, t, c, verify, memory);
            && |w'.results| == |w.results|
            && w'.results[t] == Some(if !memory && w.classes[c].state in {Loaded, Linked} && !LinkClass(h, w.classes, c, verify).1
                                     then -1 else 0)
  {
    hide LinkClass;
    var s := w.stacks[t];
    assert forall f :: |s + [f]| == |s| + 1;
  }

  /** In every run, a class that has become initialized has had its `<clinit>` started, if it has one. */
  lemma {:induction false} InitializedRan(h: Hierarchy, ws: seq<World>, acts: seq<Action>, i: nat, c: nat)
    requires IsRun(h, ws, acts) && i < |ws| && c < |h.supers| == |ws[0].classes| == |ws[i].classes| == |h.hasClinit|
    requires ws[0].classes[c].state != Initialized && ws[i].classes[c].state == Initialized && h.hasClinit[c]
    ensures ws[i].classes[c].starts == 1
  {
    hide Apply, Enabled, IsRun, Inv, StepBy;
    RunLength(h, ws, acts);
    if i > 0 {
      RunInv(h, ws, acts, i - 1);
      RunStep(h, ws, acts, i - 1);
      if ws[i - 1].classes[c].state == Initialized {
        InitializedRan(h, ws, acts, i - 1, c);
        Forward(h, ws, acts, i - 1, i, c);
      } else {
        BecomesInitialized(h, ws[i - 1], acts[i - 1], c);
      }
    }
  }

  lemma BecomesInitialized(h: Hierarchy, w: World, a: Action, c: nat)
    requires Inv(h, w) && Enabled(h, w, a) && c < |w.classes| == |Apply(h, w, a).classes| && c < |h.hasClinit| && h.hasClinit[c]
    requires w.classes[c].state != Initialized && Apply(h, w, a).classes[c].state == Initialized
    ensures Apply(h, w, a).classes[c].starts == 1
  {
    if a.SuperDone? || a.Begin? || a.End? {
      assert AtFrame(w, a.t, |w.stacks[a.t]| - 1) && FrameOk(h, w, a.t, |w.stacks[a.t]| - 1);
    } else {
      hide Inv, LinkClass;
      NotInitializedBy(h, w, a, c);
      assert false;
    }
  }

  lemma NotInitializedBy(h: Hierarchy, w: World, a: Action, c: nat)
    requires IsHierarchy(h) && Enabled(h, w, a) && c < |w.classes| && !a.SuperDone? && !a.Begin? && !a.End?
    requires w.classes[c].state != Initialized
    ensures c < |Apply(h, w, a).classes| && Apply(h, w, a).classes[c].state != Initialized
  {
    hide LinkClass;
    match a
    case Link(d, verify) => assert OnlyLinked(w.classes[c], LinkClass(h, w.classes, d, verify).0[c]);
    case Request(t, d, verify, memory) => assert OnlyLinked(w.classes[c], LinkClass(h, w.classes, d, verify).0[c]);
    case NextSuper(t, verify, memory) =>
      var d := h.supers[Top(w, t).cls][Top(w, t).pc.i];
      assert OnlyLinked(w.classes[c], LinkClass(h, w.classes, d, verify).0[c]);
    case _ =>
  }

  // ---------- suspensions ----------

  /** Step `a` makes thread `t` give up control: Java code switches, or a request has to wait for another thread. */
  ghost predicate Yields(h: Hierarchy, w: World, a: Action, t: nat) {
    && IsHierarchy(h) && Enabled(h, w, a)
    && (|| a == Suspend(t)
        || (Asked(h, w, a).Some? && a.t == t && t < |w.stacks| && t < |Apply(h, w, a).stacks|
            && |w.stacks[t]| < |Apply(h, w, a).stacks[t]| && Top(Apply(h, w, a), t).pc == Spin))
  }

  lemma SwitchesStep(h: Hierarchy, w: World, a: Action, t: nat)
    requires IsHierarchy(h) && Enabled(h, w, a) && t < |w.stacks|
    ensures t < |w.switches| && t < |Apply(h, w, a).switches|
    ensures Apply(h, w, a).switches[t] == w.switches[t] + if Yields(h, w, a, t) then 1 else 0
  {
    hide LinkClass, Enter;
    match a
    case Request(u, c, verify, memory) => EnterSwitches(h, w, u, c, verify, memory, t);
    case NextSuper(u, verify, memory) => EnterSwitches(h, w, u, h.supers[Top(w, u).cls][Top(w, u).pc.i], verify, memory, t);
    case _ =>
  }

  lemma EnterSwitches(h: Hierarchy, w: World, u: nat, d: nat, verify: seq<bool>, memory: bool, t: nat)
    requires IsHierarchy(h) && Sized(h, w) && |verify| == |w.classes| && u < |w.stacks| && d < |w.classes| && t < |w.stacks|
    ensures var w' := Enter(h, w, u, d, verify, memory);
            && |w'.stacks| == |w.stacks| && |w'.switches| == |w.switches|
            && w'.switches[t] == w.switches[t] +
                 if t == u && |w.stacks[t]| < |w'.stacks[t]| && Top(w', t).pc == Spin then 1 else 0
  {
    hide LinkClass;
  }

  lemma {:induction false} SwitchesGrow(h: Hierarchy, ws: seq<World>, acts: seq<Action>, i: nat, k: nat, t: nat)
    requires IsRun(h, ws, acts) && i <= k < |ws| && t < |ws[i].stacks|
    ensures t < |ws[i].switches| && t < |ws[k].stacks| && t < |ws[k].switches| && ws[i].switches[t] <= ws[k].switches[t]
    ensures ws[i].switches[t] < ws[k].switches[t] <==> exists l :: i <= l < k && Yields(h, ws[l], acts[l], t)
  {
    hide Apply, Enabled, IsRun, Inv, Yields;
    RunInv(h, ws, acts, i);
    InvSized(h, ws[i]);
    if i < k {
      SwitchesGrow(h, ws, acts, i, k - 1, t);
      RunLength(h, ws, acts);
      RunStep(h, ws, acts, k - 1);
      SwitchesStep(h, ws[k - 1], acts[k - 1], t);
    }
  }

  lemma InvSized(h: Hierarchy, w: World)
    requires Inv(h, w)
    ensures IsHierarchy(h) && |w.stacks| == |w.switches| == |w.results| && |w.classes| == |h.supers|
  {
  }

  /** Thread `t` has an activation that runs the `<clinit>` of `c` since it had yielded `since` times. */
  ghost predicate RunsClinit(w: World, t: nat, c: nat, since: nat) {
    exists n: nat :: AtFrame(w, t, n) && w.stacks[t][n].cls == c && w.stacks[t][n].pc == Clinit(since)
  }

  lemma ClinitStays(h: Hierarchy, w: World, a: Action, t: nat, c: nat, since: nat)
    requires Inv(h, w) && Enabled(h, w, a) && RunsClinit(w, t, c, since) && c < |w.classes| == |Apply(h, w, a).classes|
    requires Apply(h, w, a).classes[c].state == Initializing
    ensures RunsClinit(Apply(h, w, a), t, c, since)
  {
    hide Inv, Apply, Enabled, StackStep;
    var n: nat :| AtFrame(w, t, n) && w.stacks[t][n].cls == c && w.stacks[t][n].pc == Clinit(since);
    InvSized(h, w);
    StacksStep(h, w, a, t);
    var w', s, s' := Apply(h, w, a), w.stacks[t], Apply(h, w, a).stacks[t];
    if n == |s| - 1 {
      if |s'| < |s| { PopFinishes(h, w, a, t); assert false; }
      if |s'| == |s| && s' != s { OnlyWaitingChanges(h, w, a, t); assert false; }
    }
    FrameStays(s, s', n);
    assert AtFrame(w', t, n);
  }

  lemma FrameStays(s: seq<Frame>, s': seq<Frame>, n: nat)
    requires StackStep(s, s') && n < |s| && (n == |s| - 1 ==> |s'| > |s| || s' == s)
    ensures n < |s'| && s'[n] == s[n]
  {
    if |s'| == |s| + 1 { assert s'[n] == s'[..|s|][n]; }
    if |s'| == |s| && n < |s| - 1 && s' != s { assert s'[n] == s'[..|s| - 1][n] && s[n] == s[..|s| - 1][n]; }
  }

  /** Only an activation that waits for its supers goes on to something else. */
  lemma OnlyWaitingChanges(h: Hierarchy, w: World, a: Action, t: nat)
    requires IsHierarchy(h) && Enabled(h, w, a) && t < |w.stacks| && t < |Apply(h, w, a).stacks|
    requires |Apply(h, w, a).stacks[t]| == |w.stacks[t]| && Apply(h, w, a).stacks[t] != w.stacks[t]
    ensures w.stacks[t] != [] && Top(w, t).pc.Supers?
  {
    hide LinkClass, Enter;
    match a
    case Request(u, c, verify, memory) => EnterSame(h, w, u, c, verify, memory, t);
    case NextSuper(u, verify, memory) => EnterSame(h, w, u, h.supers[Top(w, u).cls][Top(w, u).pc.i], verify, memory, t);
    case _ =>
  }

  lemma EnterSame(h: Hierarchy, w: World, u: nat, d: nat, verify: seq<bool>, memory: bool, t: nat)
    requires IsHierarchy(h) && Sized(h, w) && |verify| == |w.classes| && u < |w.stacks| && d < |w.classes| && t < |w.stacks|
    ensures var w' := Enter(h, w, u, d, verify, memory);
            t < |w'.stacks| && (|w'.stacks[t]| == |w.stacks[t]| ==> w'.stacks[t] == w.stacks[t])
  {
    hide LinkClass;
  }

  lemma {:induction false} ClinitRuns(h: Hierarchy, ws: seq<World>, acts: seq<Action>, i: nat, k: nat, c: nat)
    requires IsRun(h, ws, acts) && i < k < |ws| && StartsClinit(h, ws[i], acts[i], c) && acts[i].t < |ws[i].switches|
    requires forall l :: i < l <= k ==> c < |ws[l].classes| && ws[l].classes[c].state == Initializing
    ensures RunsClinit(ws[k], acts[i].t, c, ws[i].switches[acts[i].t])
  {
    hide Inv, RunsClinit;
    if k == i + 1 {
      ClinitBegins(h, ws[i], acts[i], c);
      RunStep(h, ws, acts, i);
    } else {
      ClinitRuns(h, ws, acts, i, k - 1, c);
      RunStep(h, ws, acts, k - 1);
      ClinitStays(h, ws[k - 1], acts[k - 1], acts[i].t, c, ws[i].switches[acts[i].t]);
    }
  }

  lemma ClinitBegins(h: Hierarchy, w: World, a: Action, c: nat)
    requires IsHierarchy(h) && StartsClinit(h, w, a, c) && a.t < |w.switches|
    ensures Enabled(h, w, a) && RunsClinit(Apply(h, w, a), a.t, c, w.switches[a.t])
  {
    var w' := Apply(h, w, a);
    assert AtFrame(w', a.t, |w'.stacks[a.t]| - 1);
  }

  /** In every run, a `<clinit>` that is on top of its thread counts as suspended exactly if its thread has given up control since it
      was started. */
  lemma SuspendedIff(h: Hierarchy, ws: seq<World>, acts: seq<Action>, i: nat, k: nat, c: nat)
    requires IsRun(h, ws, acts) && i < k < |ws| && StartsClinit(h, ws[i], acts[i], c)
    requires forall l :: i < l <= k ==> c < |ws[l].classes| && ws[l].classes[c].state == Initializing
    requires acts[i].t < |ws[k].stacks| && ws[k].stacks[acts[i].t] != []
    requires Top(ws[k], acts[i].t).cls == c && Top(ws[k], acts[i].t).pc.Clinit?
    ensures Suspended(ws[k], acts[i].t) <==> exists l :: i < l < k && Yields(h, ws[l], acts[l], acts[i].t)
  {
    hide IsRun, Inv, Yields, RunsClinit;
    RunLength(h, ws, acts);
    var t := acts[i].t;
    RunStep(h, ws, acts, i);
    RunInv(h, ws, acts, i);
    RunInv(h, ws, acts, k);
    InvSized(h, ws[i]);
    InvSized(h, ws[k]);
    BeginDoesNotYield(h, ws[i], acts[i], c);
    ClinitRuns(h, ws, acts, i, k, c);
    SameClinit(h, ws[k], t, c, ws[i].switches[t]);
    SwitchesGrow(h, ws, acts, i + 1, k, t);
  }

  lemma BeginDoesNotYield(h: Hierarchy, w: World, a: Action, c: nat)
    requires IsHierarchy(h) && StartsClinit(h, w, a, c) && a.t < |w.switches| == |w.stacks|
    ensures Enabled(h, w, a) && |Apply(h, w, a).stacks| == |w.stacks| && Apply(h, w, a).switches == w.switches
  {
  }

  lemma SameClinit(h: Hierarchy, w: World, t: nat, c: nat, since: nat)
    requires Inv(h, w) && t < |w.stacks| && w.stacks[t] != [] && Top(w, t).cls == c && Top(w, t).pc.Clinit? && RunsClinit(w, t, c, since)
    ensures Top(w, t).pc == Clinit(since)
  {
    var n: nat :| AtFrame(w, t, n) && w.stacks[t][n].cls == c && w.stacks[t][n].pc == Clinit(since);
    assert FrameOk(h, w, t, n) && AtFrame(w, t, |w.stacks[t]| - 1) && FrameOk(h, w, t, |w.stacks[t]| - 1);
  }

  // ---------- stranded classes ----------

  /** Some activation of `c` is past its entry. */
  ghost predicate Attended(w: World, c: nat) {
    exists t, k :: AtFrame(w, t, k) && w.stacks[t][k].cls == c && w.stacks[t][k].pc != Spin
  }

  /** The class that step `a` asks to be initialized, if any. */
  function Asked(h: Hierarchy, w: World, a: Action): Option<nat>
    requires IsHierarchy(h) && Enabled(h, w, a)
  {
    match a
    case Request(_, c, _, _) => Some(c)
    case NextSuper(t, _, _) => Some(h.supers[Top(w, t).cls][Top(w, t).pc.i])
    case _ => None
  }

  /** Step `a` would enter Initializing with class `c`, which is not yet initialized and can be linked, but there is no memory. */
  ghost predicate GivesUp(h: Hierarchy, w: World, a: Action, c: nat) {
    && IsHierarchy(h) && Enabled(h, w, a) && c < |w.classes| && Asked(h, w, a) == Some(c) && !a.memory
    && !h.isArray[c] && w.classes[c].state in {Loaded, Linked} && !LinkClass(h, w.classes, c, a.verify).1
  }

  lemma EnterLoses(h: Hierarchy, w: World, t: nat, d: nat, verify: seq<bool>, memory: bool, c: nat)
    requires IsHierarchy(h) && Sized(h, w) && |verify| == |w.classes| && t < |w.stacks| && d < |w.classes| && c < |w.classes|
    requires w.classes[c].lost ==> w.classes[c].state == Initializing
    ensures var w' := Enter(h, w, t, d, verify, memory);
            |w'.classes| == |w.classes| &&
            (w'.classes[c].lost <==>
              || w.classes[c].lost
              || (d == c && !memory && !h.isArray[c] && w.classes[c].state in {Loaded, Linked} && !LinkClass(h, w.classes, c, verify).1))
  {
    hide LinkClass;
    assert OnlyLinked(w.classes[c], LinkClass(h, w.classes, d, verify).0[c]);
  }

  /** A step strands a class exactly if it gives up on it. */
  lemma LostStep(h: Hierarchy, w: World, a: Action, c: nat)
    requires Inv(h, w) && Enabled(h, w, a) && c < |w.classes|
    ensures |Apply(h, w, a).classes| == |w.classes|
    ensures Apply(h, w, a).classes[c].lost <==> w.classes[c].lost || GivesUp(h, w, a, c)
  {
    assert ClassOk(h, w, c);
    hide Inv, LinkClass, Enter, ClassOk;
    match a
    case Request(t, d, verify, memory) => EnterLoses(h, w, t, d, verify, memory, c);
    case NextSuper(t, verify, memory) => EnterLoses(h, w, t, h.supers[Top(w, t).cls][Top(w, t).pc.i], verify, memory, c);
    case Link(d, verify) => assert OnlyLinked(w.classes[c], LinkClass(h, w.classes, d, verify).0[c]);
    case _ => OthersKeepLost(h, w, a, c);
  }

  lemma OthersKeepLost(h: Hierarchy, w: World, a: Action, c: nat)
    requires IsHierarchy(h) && Enabled(h, w, a) && c < |w.classes| && !a.Request? && !a.NextSuper? && !a.Link?
    ensures |Apply(h, w, a).classes| == |w.classes| && Apply(h, w, a).classes[c].lost == w.classes[c].lost
  {
  }

  lemma LostIsStranded(h: Hierarchy, w: World, c: nat)
    requires Inv(h, w) && c < |w.classes|
    ensures w.classes[c].lost <==> w.classes[c].state == Initializing && !Attended(w, c)
  {
    assert ClassOk(h, w, c);
    if w.classes[c].lost {
      forall t, k | AtFrame(w, t, k) && w.stacks[t][k].cls == c ensures w.stacks[t][k].pc == Spin { assert FrameOk(h, w, t, k); }
    } else if w.classes[c].state == Initializing {
      var u, k := OwnerFrame(h, w, c);
      assert FrameOk(h, w, u, k);
    }
  }

  lemma {:induction false} LostSince(h: Hierarchy, ws: seq<World>, acts: seq<Action>, i: nat, c: nat)
    requires IsRun(h, ws, acts) && i < |ws| && c < |h.supers|
    ensures c < |ws[i].classes| && (ws[i].classes[c].lost <==> exists k :: 0 <= k < i && GivesUp(h, ws[k], acts[k], c))
  {
    hide Inv, Apply, Enabled, GivesUp;
    RunLength(h, ws, acts);
    RunInv(h, ws, acts, i);
    if i > 0 {
      LostSince(h, ws, acts, i - 1, c);
      RunStep(h, ws, acts, i - 1);
      LostStep(h, ws[i - 1], acts[i - 1], c);
    }
  }

  /** In every run, a class is INITIALIZING with no activation left to finish it if and only if an earlier step gave up on it for
      lack of memory. */
  lemma StrandedIff(h: Hierarchy, ws: seq<World>, acts: seq<Action>, i: nat, c: nat)
    requires IsRun(h, ws, acts) && i < |ws| && c < |h.supers|
    ensures c < |ws[i].classes|
    ensures ws[i].classes[c].state == Initializing && !Attended(ws[i], c) <==> exists k :: 0 <= k < i && GivesUp(h, ws[k], acts[k], c)
  {
    hide IsRun, Inv, GivesUp, Attended;
    RunInv(h, ws, acts, i);
    LostSince(h, ws, acts, i, c);
    LostIsStranded(h, ws[i], c);
  }

  /** A thread that spins on such a class spins for ever. */
  lemma {:induction false} SpinsForEver(h: Hierarchy, ws: seq<World>, acts: seq<Action>, i: nat, j: nat, t: nat)
    requires IsRun(h, ws, acts) && i <= j < |ws| && Blocked(ws[i], t) && !Attended(ws[i], Top(ws[i], t).cls)
    ensures t < |ws[j].stacks| && ws[j].stacks[t] == ws[i].stacks[t] && Blocked(ws[j], t)
  {
    hide IsRun, Inv, Attended, Apply, Enabled, StepBy;
    RunLength(h, ws, acts);
    RunInv(h, ws, acts, i);
    if i < j {
      var c := Top(ws[i], t).cls;
      SpinsForEver(h, ws, acts, i, j - 1, t);
      LostIsStranded(h, ws[i], c);
      LostForever(h, ws, acts, i, j, c);
      LostForever(h, ws, acts, i, j - 1, c);
      RunStep(h, ws, acts, j - 1);
      SpinStays(h, ws[j - 1], acts[j - 1], t);
    }
  }

  /** No step moves a thread that spins on a class that is being initialized. */
  lemma SpinStays(h: Hierarchy, w: World, a: Action, t: nat)
    requires Inv(h, w) && Enabled(h, w, a) && Blocked(w, t) && StepBy(h, w, Apply(h, w, a), Thread(a))
    ensures t < |Apply(h, w, a).stacks| && Apply(h, w, a).stacks[t] == w.stacks[t]
  {
    hide Inv;
    if Thread(a) == t { assert a.Wake?; }
  }

  // ---------- waiting ----------

  /** Thread `t` spins on a class that is being initialized. */
  ghost predicate Blocked(w: World, t: nat) {
    && t < |w.stacks| && w.stacks[t] != [] && Top(w, t).pc == Spin
    && Top(w, t).cls < |w.classes| && w.classes[Top(w, t).cls].state == Initializing
  }

  /** No static initializer is running, and no activation ran out of memory. */
  ghost predicate OnlySupers(w: World) {
    && (forall t, k :: AtFrame(w, t, k) ==> !w.stacks[t][k].pc.Clinit?)
    && forall c :: 0 <= c < |w.classes| ==> !w.classes[c].lost
  }

  /** A thread never waits for itself. */
  lemma NeverWaitsForItself(h: Hierarchy, ws: seq<World>, acts: seq<Action>, i: nat, t: nat)
    requires IsRun(h, ws, acts) && i < |ws| && Blocked(ws[i], t)
    ensures ws[i].classes[Top(ws[i], t).cls].owner != t
  {
    RunInv(h, ws, acts, i);
    assert AtFrame(ws[i], t, |ws[i].stacks[t]| - 1) && FrameOk(h, ws[i], t, |ws[i].stacks[t]| - 1);
  }

  /** Activations that wait for supers climb the hierarchy. */
  lemma {:induction false} ClimbsRank(h: Hierarchy, w: World, t: nat, k: nat, l: nat)
    requires Inv(h, w) && OnlySupers(w) && AtFrame(w, t, k) && AtFrame(w, t, l) && k <= l
    ensures h.rank[w.stacks[t][l].cls] <= h.rank[w.stacks[t][k].cls] && (k < l ==> h.rank[w.stacks[t][l].cls] < h.rank[w.stacks[t][k].cls])
    decreases l - k
  {
    if k < l {
      hide Inv, FrameOk, OnlySupers;
      ClimbsRank(h, w, t, k, l - 1);
      OneUp(h, w, t, l - 1);
    } else {
      hide Inv, FrameOk, OnlySupers;
    }
  }

  lemma OneUp(h: Hierarchy, w: World, t: nat, l: nat)
    requires Inv(h, w) && OnlySupers(w) && AtFrame(w, t, l) && AtFrame(w, t, l + 1)
    ensures w.stacks[t][l].cls < |h.rank| && w.stacks[t][l + 1].cls < |h.rank|
    ensures h.rank[w.stacks[t][l + 1].cls] < h.rank[w.stacks[t][l].cls]
  {
    assert FrameOk(h, w, t, l);
    hide OwnerOk, SpinOk;
  }

  /** As long as no static initializer is involved, waiting cannot deadlock: some thread can still move. */
  lemma {:induction false} NoDeadlock(h: Hierarchy, w: World, t: nat) returns (a: Action)
    requires Inv(h, w) && OnlySupers(w) && Blocked(w, t)
    ensures !a.Link? && Enabled(h, w, a) && !Blocked(w, a.t) && w.stacks[a.t] != [] && Apply(h, w, a) != w
    decreases h.rank[Top(w, t).cls]
  {
    hide Inv, Blocked, OnlySupers, Enabled, Apply;
    var u := WaitsForOwner(h, w, t);
    if Blocked(w, u) {
      a := NoDeadlock(h, w, u);
    } else {
      a := CanMove(h, w, u);
    }
  }

  /** A blocked thread waits for a thread that is not blocked, or is blocked higher up in the hierarchy. */
  lemma WaitsForOwner(h: Hierarchy, w: World, t: nat) returns (u: nat)
    requires Inv(h, w) && OnlySupers(w) && Blocked(w, t)
    ensures IsHierarchy(h) && Sized(h, w) && t < |w.stacks| && w.stacks[t] != [] && Top(w, t).cls < |h.rank|
    ensures u < |w.stacks| && w.stacks[u] != []
    ensures Blocked(w, u) ==> Top(w, u).cls < |h.rank| && h.rank[Top(w, u).cls] < h.rank[Top(w, t).cls]
  {
    hide OwnerOk, ClassOk, FrameOk, SpinOk;
    var c, k := Top(w, t).cls, 0;
    u, k := OwnerFrame(h, w, c);
    if Blocked(w, u) {
      SpinsOnOther(h, w, u);
      hide Inv;
      ClimbsRank(h, w, u, k, |w.stacks[u]| - 1);
    }
  }

  lemma OwnerFrame(h: Hierarchy, w: World, c: int) returns (u: nat, k: nat)
    requires Inv(h, w) && 0 <= c < |w.classes| && w.classes[c].state == Initializing && !w.classes[c].lost
    ensures u == w.classes[c].owner && AtFrame(w, u, k) && w.stacks[u][k].cls == c
  {
    assert ClassOk(h, w, c);
    hide Inv;
    var l :| AtFrame(w, w.classes[c].owner, l) && w.stacks[w.classes[c].owner][l].id == w.classes[c].enteredBy
             && w.stacks[w.classes[c].owner][l].cls == c;
    u, k := w.classes[c].owner, l;
  }

  lemma SpinsOnOther(h: Hierarchy, w: World, u: nat)
    requires Inv(h, w) && Blocked(w, u)
    ensures AtFrame(w, u, |w.stacks[u]| - 1) && w.classes[Top(w, u).cls].owner != u
  {
    hide OwnerOk, ClassOk;
    assert FrameOk(h, w, u, |w.stacks[u]| - 1);
  }

  lemma CanMove(h: Hierarchy, w: World, u: nat) returns (a: Action)
    requires IsHierarchy(h) && Sized(h, w) && OnlySupers(w) && !Blocked(w, u) && u < |w.stacks| && w.stacks[u] != []
    ensures !a.Link? && a.t == u && Enabled(h, w, a) && Apply(h, w, a) != w
  {
    hide LinkClass;
    var f, yes := Top(w, u), seq(|w.classes|, _ => true);
    assert AtFrame(w, u, |w.stacks[u]| - 1);
    if f.pc == Spin {
      a := Wake(u);
      assert |Apply(h, w, a).stacks[u]| < |w.stacks[u]|;
    } else if w.results[u].Some? {
      a := SuperDone(u);
      assert Apply(h, w, a).stacks[u] != w.stacks[u] by {
        if w.results[u].value == 0 {
          assert Top(Apply(h, w, a), u).pc == Supers(f.pc.i + 1);
        } else {
          assert |Apply(h, w, a).stacks[u]| < |w.stacks[u]|;
        }
      }
    } else if f.pc.i < |h.supers[f.cls]| {
      a := NextSuper(u, yes, true);
      assert |Apply(h, w, a).stacks[u]| > |w.stacks[u]| || Apply(h, w, a).results[u].Some?;
    } else {
      a := Begin(u, false);
      assert |Apply(h, w, a).stacks[u]| < |w.stacks[u]|;
    }
  }
}
