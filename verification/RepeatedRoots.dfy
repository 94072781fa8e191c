/** A heap in which a root slot that is listed twice ends up pointing to the wrong object. */
module RepeatedRoots {
  import opened Memory
  import opened Mark
  import opened PointerSort
  import opened Slide
  import opened Relocate
  import opened Collector

  const CLASS := 1000

  /** Seven words of heap, and one class without fields. */
  function Machine(): Env { Env(1, 7, map[CLASS := Ordinary(16, [], false)]) }

  /** Three objects, at words 1, 3 and 5; slots 7 and 8 hold the second and the third, slot 9 heads the empty pending list. */
  function Contents(): seq<int> { [0, 1, CLASS, 1, CLASS, 1, CLASS, 24, 40, 0] }

  function Blocks(): set<int> { {8, 24, 40} }

  /** Slot 8 is listed twice. */
  function Slots(): seq<nat> { [7, 8, 8, 9] }

  /** `e` is an object of two words without a monitor. */
  ghost predicate PlainObject(env: Env, m: seq<int>, e: int) {
    && EntryOk(env, m, e) && !IsMonitor(e) && EntryWords(env, m, e) == 2 && At(e) == e / 8 && 1 <= At(e) <= 5 && |m| == 10
    && m[At(e)] == 1 && ClassOf(env, m, At(e)) == Ordinary(16, [], false)
  }

  lemma ObjectHere(e: int)
    requires e in Blocks()
    ensures PlainObject(Machine(), Contents(), e)
  {
  }

  /** The collector may be run on it. */
  lemma HeapIsFine()
    ensures WellFormed(Machine(), Contents(), Blocks(), 7) && SlotsPlaced(Machine(), Contents(), Slots())
    ensures RootSlotsOk(Machine(), Contents(), Blocks(), Slots()) && 9 in Slots()
  {
    var env, m, blocks := Machine(), Contents(), Blocks();
    assert env.base == 1 && env.limit == 7 && |m| == 10 && forall e :: e in blocks ==> e in {8, 24, 40};
    RootsFine();
    forall e | e in blocks ensures PlainObject(env, m, e) { ObjectHere(e); }
    hide Machine, Contents, Blocks, EntryOk, EntryWords, At, Slots, RootSlotsOk, SlotsPlaced;
    assert Placed(env, m, blocks, 7);
    assert HeadersOk(env, m, blocks);
    assert SlotsOk(env, m, blocks);
  }

  lemma RootsFine()
    ensures SlotsPlaced(Machine(), Contents(), Slots()) && RootSlotsOk(Machine(), Contents(), Blocks(), Slots()) && 9 in Slots()
  {
    var m, slots := Contents(), Slots();
    assert slots[0] == 7 && slots[1] == 8 && slots[2] == 8 && slots[3] == 9;
    assert m[7] == 24 && m[8] == 40 && m[9] == 0;
  }

  lemma Targets()
    ensures SlotsPlaced(Machine(), Contents(), Slots()) && RootTargets(Machine(), Contents(), Slots()) == {24, 40}
  {
    var env, m, slots := Machine(), Contents(), Slots();
    assert slots[0] == 7 && slots[1] == 8 && slots[2] == 8 && slots[3] == 9;
    assert m[7] == 24 && m[8] == 40 && m[9] == 0;
    assert InHeap(env, m[slots[0]]) && InHeap(env, m[slots[1]]);
  }

  lemma NoEdges(x: int, y: int)
    ensures !Edge(Machine(), Contents(), x, y)
  {
    var env, m := Machine(), Contents();
    if EntryOk(env, m, x) && !IsMonitor(x) {
      assert ClassOf(env, m, At(x)) == Ordinary(16, [], false);
      assert Strong(env, m, x) == [];
    }
  }

  lemma LiveAre(live: set<int>)
    requires SlotsPlaced(Machine(), Contents(), Slots())
    requires forall e :: e in live <==> Reachable(Machine(), Contents(), RootTargets(Machine(), Contents(), Slots()), e)
    ensures live == {24, 40}
  {
    hide Machine, Contents, Slots, RootTargets, Edge;
    Targets();
    var env, m, targets := Machine(), Contents(), {24, 40};
    forall x, y ensures !Edge(env, m, x, y) { NoEdges(x, y); }
    forall e | e in live ensures e in targets {
      var p :| IsPath(env, m, targets, p) && p[|p| - 1] == e;
      ClosedHoldsPath(env, m, targets, targets, p);
    }
    ReachableRoot(env, m, targets, 24);
    ReachableRoot(env, m, targets, 40);
  }

  lemma EntriesAre(live: set<int>, entries: seq<int>)
    requires live == {24, 40} && LiveList(Machine(), Contents(), Blocks(), 7, live, entries)
    ensures entries == [24, 40]
  {
    ObjectHere(24);
    ObjectHere(40);
    hide WellFormed, Machine, Contents, Blocks, StrictlySorted;
    assert MonitorEntries(Contents(), live) == {};
    assert Elements(entries) == {24, 40};
    TwoEntries(entries);
  }

  lemma TwoEntries(entries: seq<int>)
    requires StrictlySorted(entries) && Elements(entries) == {24, 40}
    ensures entries == [24, 40]
  {
    forall k | 0 <= k < |entries| ensures entries[k] == 24 || entries[k] == 40 { assert entries[k] in Elements(entries); }
    assert 24 in Elements(entries) && 40 in Elements(entries);
    var i :| 0 <= i < |entries| && entries[i] == 24;
    var j :| 0 <= j < |entries| && entries[j] == 40;
    assert entries[0] == 24 && i == 0;
    assert entries[1] == 40 && j == 1;
    assert entries[|entries| - 1] == 40;
  }

  lemma MovedTo()
    ensures EntriesOk(Machine(), Contents(), [24, 40]) && StrictlySorted([24, 40])
    ensures Forwarding(Machine(), Contents(), [24, 40]) == map[24 := 1, 40 := 3]
  {
    ObjectHere(24);
    ObjectHere(40);
    hide Contents, Machine, EntryOk, EntryWords;
    var env, m, entries := Machine(), Contents(), [24, 40];
    assert entries[0] == 24 && entries[1] == 40;
    assert env.base == 1 by { assert Machine().base == 1 by { BaseIs(); } }
    assert Loc(env, m, entries, 0) == 1 && Loc(env, m, entries, 1) == 3;
  }

  lemma BaseIs()
    ensures Machine().base == 1
  {
  }

  /** After a collection both slots hold the second object, although slot 8 held the third. */
  lemma RepeatedRootGoesWrong(live: set<int>, entries: seq<int>, m: seq<int>, top: int)
    requires CollectedRepeated(Machine(), Contents(), Blocks(), 7, Slots(), 9, live, entries, m, top)
    ensures |m| == 10 && m[7] == 8 && m[8] == 8
    ensures EntriesOk(Machine(), Contents(), entries) && StrictlySorted(entries)
    ensures ForwardRef(Forwarding(Machine(), Contents(), entries), Contents()[8]) == 24
  {
    hide LiveList, EntryCollected, Reachable, RootTargets, Loc, EntriesOk;
    LiveAre(live);
    EntriesAre(live, entries);
    MovedTo();
    var fwd := map[24 := 1, 40 := 3];
    assert Times(Slots(), 7) == 1 && Times(Slots(), 8) == 2;
    assert ForwardTimes(fwd, 24, 0) == 24 && ForwardTimes(fwd, 24, 1) == 8;
    assert ForwardTimes(fwd, 40, 0) == 40 && ForwardTimes(fwd, 40, 1) == 24 && ForwardTimes(fwd, 40, 2) == 8;
    OutsideIs(fwd, entries, m);
  }

  lemma OutsideIs(fwd: map<int, nat>, entries: seq<int>, m: seq<int>)
    requires exists head :: OutsideRepeated(Machine(), Contents(), fwd, Slots(), 9, head, m)
    ensures |m| == 10 && m[7] == ForwardTimes(fwd, 24, Times(Slots(), 7)) && m[8] == ForwardTimes(fwd, 40, Times(Slots(), 8))
  {
    var head :| OutsideRepeated(Machine(), Contents(), fwd, Slots(), 9, head, m);
    assert Contents()[7] == 24 && Contents()[8] == 40;
  }
}
