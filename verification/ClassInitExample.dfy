/** Runs that show how far the guarantees about class initialization reach. */
module ClassInitExample {
  import opened Wrappers
  import opened ClassInit

  function Yes(n: nat): seq<bool> { seq(n, _ => true) }
  function Fresh(): Class { Class(Linked, -1, -1, 0, false) }
  function Busy(t: nat, id: nat, starts: nat): Class { Class(Initializing, t, id, starts, false) }
  function Done(): Class { Class(Initialized, 0, 1, 0, false) }

  ghost predicate Leads(h: Hierarchy, w: World, a: Action, w': World) {
    NoArraySupers(h) && Enabled(h, w, a) && w' == Apply(h, w, a)
  }

  lemma SameWorld(a: World, b: World)
    requires |a.stacks| == |b.stacks| && a.classes == b.classes && forall t :: 0 <= t < |a.stacks| ==> a.stacks[t] == b.stacks[t]
    requires a.results == b.results && a.switches == b.switches && a.nextId == b.nextId
    ensures a == b
  {
    assert a.stacks == b.stacks;
  }

  lemma SuperDoneIs(h: Hierarchy, w: World, t: nat)
    requires IsHierarchy(h) && Enabled(h, w, SuperDone(t)) && w.results[t] == Some(0)
    ensures Apply(h, w, SuperDone(t)) == SetTop(w, t, Supers(Top(w, t).pc.i + 1))
  {
  }

  lemma RunOf(h: Hierarchy, ws: seq<World>, acts: seq<Action>)
    requires |ws| == |acts| + 1 && Start(h, ws[0]) && forall i :: 0 <= i < |acts| ==> Leads(h, ws[i], acts[i], ws[i + 1])
    ensures IsRun(h, ws, acts)
  {
    hide Apply, Enabled, Start;
    assert NoArraySupers(h) by { NoArrays(h, ws[0]); }
    forall i | 0 <= i < |acts| ensures Enabled(h, ws[i], acts[i]) && ws[i + 1] == Apply(h, ws[i], acts[i]) {
      assert Leads(h, ws[i], acts[i], ws[i + 1]);
    }
  }

  lemma NoArrays(h: Hierarchy, w: World)
    requires Start(h, w)
    ensures NoArraySupers(h)
  {
  }

  /** Class 2 extends 1, which extends 0; the static initializer of 0 uses 1. */
  function FirstClasses(): Hierarchy {
    Hierarchy([[], [0], [1]], [0, 1, 2], [false, false, false], [true, false, true])
  }

  function First0(): World { World([Fresh(), Fresh(), Fresh()], [[], []], [None, None], [0, 0], 0) }
  function First1(): World { World([Busy(0, 0, 0), Fresh(), Fresh()], [[Frame(0, 0, Supers(0))], []], [None, None], [0, 0], 1) }
  function First2(): World { World([Busy(0, 0, 1), Fresh(), Fresh()], [[Frame(0, 0, Clinit(0))], []], [None, None], [0, 0], 1) }
  function First3(): World { World([Busy(0, 0, 1), Busy(0, 1, 0), Fresh()], [[Frame(0, 0, Clinit(0)), Frame(1, 1, Supers(0))], []],
                                   [None, None], [0, 0], 2) }
  function First4(): World { World([Busy(0, 0, 1), Busy(0, 1, 0), Fresh()], [[Frame(0, 0, Clinit(0)), Frame(1, 1, Supers(0))], []],
                                   [Some(0), None], [0, 0], 2) }
  function First5(): World { World([Busy(0, 0, 1), Busy(0, 1, 0), Fresh()], [[Frame(0, 0, Clinit(0)), Frame(1, 1, Supers(1))], []],
                                   [None, None], [0, 0], 2) }
  function First6(): World { World([Busy(0, 0, 1), Done(), Fresh()], [[Frame(0, 0, Clinit(0))], []], [None, None], [0, 0], 2) }
  function First7(): World { World([Busy(0, 0, 1), Done(), Busy(1, 2, 0)], [[Frame(0, 0, Clinit(0))], [Frame(2, 2, Supers(0))]],
                                   [None, None], [0, 0], 3) }
  function First8(): World { World([Busy(0, 0, 1), Done(), Busy(1, 2, 0)], [[Frame(0, 0, Clinit(0))], [Frame(2, 2, Supers(0))]],
                                   [None, Some(0)], [0, 0], 3) }
  function First9(): World { World([Busy(0, 0, 1), Done(), Busy(1, 2, 0)], [[Frame(0, 0, Clinit(0))], [Frame(2, 2, Supers(1))]],
                                   [None, None], [0, 0], 3) }
  function First10(): World { World([Busy(0, 0, 1), Done(), Busy(1, 2, 1)], [[Frame(0, 0, Clinit(0))], [Frame(2, 2, Clinit(0))]],
                                    [None, None], [0, 0], 3) }

  lemma FirstStep0()
    ensures Leads(FirstClasses(), First0(), Request(0, 0, Yes(3), true), First1())
  {
    hide LinkSupers;
    SameWorld(Apply(FirstClasses(), First0(), Request(0, 0, Yes(3), true)), First1());
  }

  lemma FirstEnabled1()
    ensures NoArraySupers(FirstClasses()) && Enabled(FirstClasses(), First1(), Begin(0, true)) && Top(First1(), 0).cls == 0
    ensures FirstClasses().hasClinit[0]
  {
  }

  lemma FirstStep1()
    ensures Leads(FirstClasses(), First1(), Begin(0, true), First2())
  {
    FirstEnabled1();
    hide FirstClasses, Leave, Enabled, NoArraySupers;
    var w := First1().(classes := First1().classes[0 := Busy(0, 0, 1)]);
    assert Apply(FirstClasses(), First1(), Begin(0, true)) == SetTop(w, 0, Clinit(0));
    hide Apply;
    SameWorld(SetTop(w, 0, Clinit(0)), First2());
  }

  lemma FirstStep2()
    ensures Leads(FirstClasses(), First2(), Request(0, 1, Yes(3), true), First3())
  {
    hide LinkSupers;
    SameWorld(Apply(FirstClasses(), First2(), Request(0, 1, Yes(3), true)), First3());
  }

  lemma FirstStep3()
    ensures Leads(FirstClasses(), First3(), NextSuper(0, Yes(3), true), First4())
  {
    hide LinkSupers;
    SameWorld(Apply(FirstClasses(), First3(), NextSuper(0, Yes(3), true)), First4());
  }

  lemma FirstStep4()
    ensures Leads(FirstClasses(), First4(), SuperDone(0), First5())
  {
    hide Apply, SetTop;
    FirstSet4();
    SuperDoneIs(FirstClasses(), First4(), 0);
  }

  lemma FirstSet4()
    ensures SetTop(First4(), 0, Supers(1)) == First5() && Top(First4(), 0).pc == Supers(0)
  {
    SameWorld(SetTop(First4(), 0, Supers(1)), First5());
  }

  lemma FirstStep5()
    ensures Leads(FirstClasses(), First5(), Begin(0, true), First6())
  {
    hide LinkSupers, LinkClass, Enter;
    SameWorld(Apply(FirstClasses(), First5(), Begin(0, true)), First6());
  }

  lemma FirstStep6()
    ensures Leads(FirstClasses(), First6(), Request(1, 2, Yes(3), true), First7())
  {
    hide LinkSupers;
    SameWorld(Apply(FirstClasses(), First6(), Request(1, 2, Yes(3), true)), First7());
  }

  lemma FirstStep7()
    ensures Leads(FirstClasses(), First7(), NextSuper(1, Yes(3), true), First8())
  {
    hide LinkSupers;
    SameWorld(Apply(FirstClasses(), First7(), NextSuper(1, Yes(3), true)), First8());
  }

  lemma FirstStep8()
    ensures Leads(FirstClasses(), First8(), SuperDone(1), First9())
  {
    hide Apply, SetTop;
    FirstSet8();
    SuperDoneIs(FirstClasses(), First8(), 1);
  }

  lemma FirstSet8()
    ensures SetTop(First8(), 1, Supers(1)) == First9() && Top(First8(), 1).pc == Supers(0)
  {
    SameWorld(SetTop(First8(), 1, Supers(1)), First9());
  }

  lemma FirstEnabled9()
    ensures NoArraySupers(FirstClasses()) && Enabled(FirstClasses(), First9(), Begin(1, true)) && Top(First9(), 1).cls == 2
    ensures FirstClasses().hasClinit[2]
  {
  }

  lemma FirstStep9()
    ensures Leads(FirstClasses(), First9(), Begin(1, true), First10())
  {
    FirstEnabled9();
    hide FirstClasses, Leave, Enabled, NoArraySupers;
    var w := First9().(classes := First9().classes[2 := Busy(1, 2, 1)]);
    assert Apply(FirstClasses(), First9(), Begin(1, true)) == SetTop(w, 1, Clinit(0));
    hide Apply;
    SameWorld(SetTop(w, 1, Clinit(0)), First10());
  }

  lemma FirstEnds()
    ensures StartsClinit(FirstClasses(), First9(), Begin(1, true), 2)
    ensures |First9().classes| == 3 && First9().classes[0].state == Initializing && First9().classes[0].owner == 0
  {
    FirstStep9();
    assert Top(First9(), 1).cls == 2 && FirstClasses().hasClinit[2];
    hide Apply, Enabled;
  }

  lemma FirstStarts()
    ensures Start(FirstClasses(), First0())
  {
  }

  /** The guarantee of `SupersSettledFirst` does not reach further up: here thread 1 calls `<clinit>` of class 2 while
      thread 0 is still initializing class 0, because class 1 in between was initialized by thread 0 itself. */
  lemma IndirectSuperStillBusy() returns (ws: seq<World>, acts: seq<Action>)
    ensures IsRun(FirstClasses(), ws, acts) && |acts| == 10 && StartsClinit(FirstClasses(), ws[9], acts[9], 2)
    ensures acts[9].t == 1 && |ws[9].classes| == 3 && ws[9].classes[0].state == Initializing && ws[9].classes[0].owner == 0
  {
    hide Apply, Enabled, Yes, Start, StartsClinit, Leads, IsRun, FirstClasses, First0, First1, First2, First3, First4, First5,
         First6, First7, First8, First9, First10;
    FirstStep0(); FirstStep1(); FirstStep2(); FirstStep3(); FirstStep4(); FirstStep5(); FirstStep6(); FirstStep7(); FirstStep8();
    FirstStep9();
    FirstEnds();
    FirstStarts();
    ws := [First0(), First1(), First2(), First3(), First4(), First5(), First6(), First7(), First8(), First9(), First10()];
    acts := [Request(0, 0, Yes(3), true), Begin(0, true), Request(0, 1, Yes(3), true), NextSuper(0, Yes(3), true), SuperDone(0),
             Begin(0, true), Request(1, 2, Yes(3), true), NextSuper(1, Yes(3), true), SuperDone(1), Begin(1, true)];
    assert forall i :: 0 <= i < |acts| ==> Leads(FirstClasses(), ws[i], acts[i], ws[i + 1]);
    RunOf(FirstClasses(), ws, acts);
  }

  /** One class with a static initializer. */
  function ThrowClasses(): Hierarchy {
    Hierarchy([[]], [0], [false], [true])
  }

  function Throw0(): World { World([Fresh()], [[]], [None], [0], 0) }
  function Throw1(): World { World([Busy(0, 0, 0)], [[Frame(0, 0, Supers(0))]], [None], [0], 1) }
  function Throw2(): World { World([Busy(0, 0, 1)], [[Frame(0, 0, Clinit(0))]], [None], [0], 1) }
  function Throw3(): World { World([Busy(0, 0, 1)], [[Frame(0, 0, Clinit(0))]], [None], [1], 1) }
  function Throw4(): World { World([Busy(0, 0, 1).(state := LinkageError)], [[]], [None], [1], 1) }

  lemma ThrowStep0()
    ensures Leads(ThrowClasses(), Throw0(), Request(0, 0, Yes(1), true), Throw1())
  {
    hide LinkSupers;
    SameWorld(Apply(ThrowClasses(), Throw0(), Request(0, 0, Yes(1), true)), Throw1());
  }

  lemma ThrowStep1()
    ensures Leads(ThrowClasses(), Throw1(), Begin(0, true), Throw2())
  {
    hide LinkSupers, LinkClass, Enter;
    SameWorld(Apply(ThrowClasses(), Throw1(), Begin(0, true)), Throw2());
  }

  lemma ThrowStep2()
    ensures Leads(ThrowClasses(), Throw2(), Suspend(0), Throw3())
  {
    hide LinkSupers, LinkClass, Enter;
    SameWorld(Apply(ThrowClasses(), Throw2(), Suspend(0)), Throw3());
  }

  lemma ThrowStep3()
    ensures Leads(ThrowClasses(), Throw3(), End(0, ThrewOther, true), Throw4())
  {
    hide LinkSupers, LinkClass, Enter;
    SameWorld(Apply(ThrowClasses(), Throw3(), End(0, ThrewOther, true)), Throw4());
  }

  lemma ThrowEnds()
    ensures StartsClinit(ThrowClasses(), Throw1(), Begin(0, true), 0)
    ensures |Throw4().classes| == 1 && Throw4().classes[0].state == LinkageError
  {
    ThrowStep1();
    assert Top(Throw1(), 0).cls == 0 && ThrowClasses().hasClinit[0];
    hide Apply, Enabled;
  }

  lemma ThrowStarts()
    ensures Start(ThrowClasses(), Throw0())
  {
  }

  /** A static initializer that throws after a suspension can leave its class erroneous. */
  lemma ErroneousAfterSuspension() returns (ws: seq<World>, acts: seq<Action>)
    ensures IsRun(ThrowClasses(), ws, acts) && |acts| == 4 && StartsClinit(ThrowClasses(), ws[1], acts[1], 0)
    ensures |ws[4].classes| == 1 && ws[4].classes[0].state == LinkageError
  {
    hide Apply, Enabled, Yes, Start, StartsClinit, Leads, IsRun, ThrowClasses, Throw0, Throw1, Throw2, Throw3, Throw4;
    ThrowStep0(); ThrowStep1(); ThrowStep2(); ThrowStep3();
    ThrowEnds();
    ThrowStarts();
    ws := [Throw0(), Throw1(), Throw2(), Throw3(), Throw4()];
    acts := [Request(0, 0, Yes(1), true), Begin(0, true), Suspend(0), End(0, ThrewOther, true)];
    assert forall i :: 0 <= i < |acts| ==> Leads(ThrowClasses(), ws[i], acts[i], ws[i + 1]);
    RunOf(ThrowClasses(), ws, acts);
  }

  function Lost0(): World { World([Fresh()], [[], []], [None, None], [0, 0], 0) }
  function Lost1(): World { World([Busy(0, 0, 0).(lost := true)], [[], []], [None, None], [0, 0], 1) }
  function Lost2(): World { World([Busy(0, 0, 0).(lost := true)], [[], [Frame(1, 0, Spin)]], [None, None], [0, 1], 2) }

  lemma LostStep0()
    ensures Leads(ThrowClasses(), Lost0(), Request(0, 0, Yes(1), false), Lost1())
    ensures GivesUp(ThrowClasses(), Lost0(), Request(0, 0, Yes(1), false), 0)
  {
    hide LinkSupers;
    SameWorld(Apply(ThrowClasses(), Lost0(), Request(0, 0, Yes(1), false)), Lost1());
  }

  lemma LostStep1()
    ensures Leads(ThrowClasses(), Lost1(), Request(1, 0, Yes(1), true), Lost2())
  {
    hide LinkSupers;
    SameWorld(Apply(ThrowClasses(), Lost1(), Request(1, 0, Yes(1), true)), Lost2());
  }

  lemma LostStarts()
    ensures Start(ThrowClasses(), Lost0())
  {
  }

  lemma LostEnds()
    ensures Blocked(Lost2(), 1) && Top(Lost2(), 1).cls == 0
  {
  }

  /** A thread runs out of memory at the entry; the next thread that needs the class waits for ever. */
  lemma GivenUpAndWaitedFor() returns (ws: seq<World>, acts: seq<Action>)
    ensures IsRun(ThrowClasses(), ws, acts) && |acts| == 2 && GivesUp(ThrowClasses(), ws[0], acts[0], 0)
    ensures Blocked(ws[2], 1) && Top(ws[2], 1).cls == 0
  {
    hide Apply, Enabled, Yes, Start, Leads, IsRun, ThrowClasses, Lost0, Lost1, Lost2, GivesUp, Blocked;
    LostStep0(); LostStep1();
    LostStarts();
    LostEnds();
    ws := [Lost0(), Lost1(), Lost2()];
    acts := [Request(0, 0, Yes(1), false), Request(1, 0, Yes(1), true)];
    assert forall i :: 0 <= i < |acts| ==> Leads(ThrowClasses(), ws[i], acts[i], ws[i + 1]);
    RunOf(ThrowClasses(), ws, acts);
  }

  /** Class 3 extends 2, which has the supers 1 and 0, in this order; the static initializer of 1 uses 3. */
  function LeakClasses(): Hierarchy {
    Hierarchy([[], [], [1, 0], [2]], [0, 0, 1, 2], [false, false, false, false], [true, true, false, true])
  }

  function Leak0(): World { World([Fresh(), Fresh(), Fresh(), Fresh()], [[], []], [None, None], [0, 0], 0) }
  function Leak1(): World { World([Fresh(), Fresh(), Busy(0, 0, 0), Fresh()], [[Frame(0, 2, Supers(0))], []], [None, None], [0, 0], 1) }
  function Leak2(): World { World([Fresh(), Busy(0, 1, 0), Busy(0, 0, 0), Fresh()],
                                  [[Frame(0, 2, Supers(0)), Frame(1, 1, Supers(0))], []], [None, None], [0, 0], 2) }
  function Leak3(): World { World([Fresh(), Busy(0, 1, 1), Busy(0, 0, 0), Fresh()],
                                  [[Frame(0, 2, Supers(0)), Frame(1, 1, Clinit(0))], []], [None, None], [0, 0], 2) }
  function Leak4(): World { World([Fresh(), Busy(0, 1, 1), Busy(0, 0, 0), Busy(0, 2, 0)],
                                  [[Frame(0, 2, Supers(0)), Frame(1, 1, Clinit(0)), Frame(2, 3, Supers(0))], []], [None, None], [0, 0], 3) }
  function Leak5(): World { World([Fresh(), Busy(0, 1, 1), Busy(0, 0, 0), Busy(0, 2, 0)],
                                  [[Frame(0, 2, Supers(0)), Frame(1, 1, Clinit(0)), Frame(2, 3, Supers(0))], []], [Some(0), None],
                                      [0, 0], 3) }
  function Leak6(): World { World([Fresh(), Busy(0, 1, 1), Busy(0, 0, 0), Busy(0, 2, 0)],
                                  [[Frame(0, 2, Supers(0)), Frame(1, 1, Clinit(0)), Frame(2, 3, Supers(1))], []], [None, None], [0, 0], 3) }
  function Leak7(): World { World([Busy(1, 3, 0), Busy(0, 1, 1), Busy(0, 0, 0), Busy(0, 2, 0)],
                                  [[Frame(0, 2, Supers(0)), Frame(1, 1, Clinit(0)), Frame(2, 3, Supers(1))],
                                   [Frame(3, 0, Supers(0))]], [None, None], [0, 0], 4) }
  function Leak8(): World { World([Busy(1, 3, 0), Busy(0, 1, 1), Busy(0, 0, 0), Busy(0, 2, 1)],
                                  [[Frame(0, 2, Supers(0)), Frame(1, 1, Clinit(0)), Frame(2, 3, Clinit(0))],
                                   [Frame(3, 0, Supers(0))]], [None, None], [0, 0], 4) }

  lemma LeakStep0()
    ensures Leads(LeakClasses(), Leak0(), Request(0, 2, Yes(4), true), Leak1())
  {
    hide LinkSupers;
    SameWorld(Apply(LeakClasses(), Leak0(), Request(0, 2, Yes(4), true)), Leak1());
  }

  lemma LeakStep1()
    ensures Leads(LeakClasses(), Leak1(), NextSuper(0, Yes(4), true), Leak2())
  {
    hide LinkSupers;
    SameWorld(Apply(LeakClasses(), Leak1(), NextSuper(0, Yes(4), true)), Leak2());
  }

  lemma LeakEnabled2()
    ensures NoArraySupers(LeakClasses()) && Enabled(LeakClasses(), Leak2(), Begin(0, true)) && Top(Leak2(), 0).cls == 1
    ensures LeakClasses().hasClinit[1]
  {
  }

  lemma LeakStep2()
    ensures Leads(LeakClasses(), Leak2(), Begin(0, true), Leak3())
  {
    LeakEnabled2();
    hide LeakClasses, Leave, Enabled, NoArraySupers;
    var w := Leak2().(classes := Leak2().classes[1 := Busy(0, 1, 1)]);
    assert Apply(LeakClasses(), Leak2(), Begin(0, true)) == SetTop(w, 0, Clinit(0));
    hide Apply;
    SameWorld(SetTop(w, 0, Clinit(0)), Leak3());
  }

  lemma LeakStep3()
    ensures Leads(LeakClasses(), Leak3(), Request(0, 3, Yes(4), true), Leak4())
  {
    hide LinkSupers;
    SameWorld(Apply(LeakClasses(), Leak3(), Request(0, 3, Yes(4), true)), Leak4());
  }

  lemma LeakStep4()
    ensures Leads(LeakClasses(), Leak4(), NextSuper(0, Yes(4), true), Leak5())
  {
    hide LinkSupers;
    SameWorld(Apply(LeakClasses(), Leak4(), NextSuper(0, Yes(4), true)), Leak5());
  }

  lemma LeakStep5()
    ensures Leads(LeakClasses(), Leak5(), SuperDone(0), Leak6())
  {
    hide LinkSupers, LinkClass, Enter;
    SameWorld(Apply(LeakClasses(), Leak5(), SuperDone(0)), Leak6());
  }

  lemma LeakStep6()
    ensures Leads(LeakClasses(), Leak6(), Request(1, 0, Yes(4), true), Leak7())
  {
    hide LinkSupers;
    SameWorld(Apply(LeakClasses(), Leak6(), Request(1, 0, Yes(4), true)), Leak7());
  }

  lemma LeakEnabled7()
    ensures NoArraySupers(LeakClasses()) && Enabled(LeakClasses(), Leak7(), Begin(0, true)) && Top(Leak7(), 0).cls == 3
    ensures LeakClasses().hasClinit[3]
  {
  }

  lemma LeakStep7()
    ensures Leads(LeakClasses(), Leak7(), Begin(0, true), Leak8())
  {
    LeakEnabled7();
    hide LeakClasses, Leave, Enabled, NoArraySupers;
    var w := Leak7().(classes := Leak7().classes[3 := Busy(0, 2, 1)]);
    assert Apply(LeakClasses(), Leak7(), Begin(0, true)) == SetTop(w, 0, Clinit(0));
    hide Apply;
    SameWorld(SetTop(w, 0, Clinit(0)), Leak8());
  }

  lemma LeakEnds()
    ensures StartsClinit(LeakClasses(), Leak7(), Begin(0, true), 3)
    ensures |Leak7().classes| == 4 && Leak7().classes[0] == Busy(1, 3, 0) && Leak7().classes[2] == Busy(0, 0, 0)
  {
    LeakStep7();
    assert Top(Leak7(), 0).cls == 3 && LeakClasses().hasClinit[3];
    hide Apply, Enabled;
  }

  lemma LeakStarts()
    ensures Start(LeakClasses(), Leak0())
  {
  }

  /** An indirect super can also be busy elsewhere behind a class that is still waiting for its supers: thread 0 calls
      `<clinit>` of class 3 while thread 1 is initializing class 0, which class 2 has not come to yet. */
  lemma SuperBehindUnfinishedSupers() returns (ws: seq<World>, acts: seq<Action>)
    ensures IsRun(LeakClasses(), ws, acts) && |acts| == 8 && StartsClinit(LeakClasses(), ws[7], acts[7], 3) && acts[7].t == 0
    ensures |ws[7].classes| == 4 && ws[7].classes[0].state == Initializing && ws[7].classes[0].owner == 1
    ensures ws[7].classes[2].state == Initializing && ws[7].classes[2].owner == 0 && ws[7].classes[2].starts == 0
  {
    hide Apply, Enabled, Yes, Start, StartsClinit, Leads, IsRun, LeakClasses, Leak0, Leak1, Leak2, Leak3, Leak4, Leak5, Leak6, Leak7, Leak8;
    LeakStep0(); LeakStep1(); LeakStep2(); LeakStep3(); LeakStep4(); LeakStep5(); LeakStep6(); LeakStep7();
    LeakEnds();
    LeakStarts();
    ws := [Leak0(), Leak1(), Leak2(), Leak3(), Leak4(), Leak5(), Leak6(), Leak7(), Leak8()];
    acts := [Request(0, 2, Yes(4), true), NextSuper(0, Yes(4), true), Begin(0, true), Request(0, 3, Yes(4), true),
             NextSuper(0, Yes(4), true), SuperDone(0), Request(1, 0, Yes(4), true), Begin(0, true)];
    assert forall i :: 0 <= i < |acts| ==> Leads(LeakClasses(), ws[i], acts[i], ws[i + 1]);
    RunOf(LeakClasses(), ws, acts);
  }
}
