// Playback ticks, tails and the main loop keep the sender's invariant.

module SenderLoop {
  import opened Gf2
  import opened Raster
  import opened Correction
  import opened Repair
  import opened Vga
  import opened PlaneParity
  import opened Schedule
  import opened Sender
  import opened SenderQueue
  import opened SenderGroups
  import opened SenderWork
  import opened SenderScreen
  import opened SenderRuns

  // ----- producer steps together

  ghost predicate StepIs(c: Config, s: State, t: State) {
    hide Good, WhiteOutside, InsideMap, ShapedStream, ShapedWork, ShapedScreen, Step;
    GoodConfig(c) && Shaped(c, s) && s.queue.preparing.Some? && Step(c, s) == Some(t)
  }

  lemma StepOfBasis(c: Config, s: State, i: nat, t: State)
    requires s.queue.preparing == Some(i) && BasisStepIs(c, s, i, t)
    ensures StepIs(c, s, t)
  {
    hide Good, WhiteOutside, InsideMap, ShapedStream, ShapedWork, ShapedScreen, BasisStep, ReadyStep;
  }

  lemma StepOfReady(c: Config, s: State, i: nat, t: State)
    requires s.queue.preparing == Some(i) && ReadyStepIs(c, s, i, t) && i < |s.queue.slots| && s.queue.slots[i].stage == c.plan.width
    ensures StepIs(c, s, t)
  {
    hide Good, WhiteOutside, InsideMap, ShapedStream, ShapedWork, ShapedScreen, BasisStep, ReadyStep;
  }

  // A producer step never fails and keeps the invariant; it completes at most
  // the group in preparation.
  lemma StepKeeps(c: Config, s: State) returns (t: State)
    requires Core(c, s) && s.queue.preparing.Some?
    ensures StepIs(c, s, t) && Core(c, t) && SameShow(s, t)
    ensures t.queue.nextOrdinal == s.queue.nextOrdinal && s.queue.ready <= t.queue.ready
    ensures t.queue.preparing.None? ==> t.queue.ready > 0
  {
    hide *;
    CoreParts(c, s);
    var i := s.queue.preparing.value;
    var g := s.queue.slots[i];
    PrepParts(c, s.stream.global, g, s.work);
    WorkShape(c, s.work);
    if g.stage == c.plan.width {
      t := CompletingStep(c, s, i);
      ReadyCount(s.queue, s.playback.group);
    } else if s.work.phase == Store {
      StoreIs(c, s, i);
      StoreKeepsCore(c, s, i);
      t := StoredStep(c, s, i);
    } else {
      t := BasisKeeps(c, s, i);
      StepOfBasis(c, s, i, t);
      ShowSame(s, t);
    }
  }

  lemma ReadyCount(q: Queue, group: Option<nat>)
    requires QueueOk(q, group)
    ensures q.ready >= 0
  {}

  lemma ShowSame(s: State, t: State)
    requires SameShow(s, t) && t.queue == s.queue
    ensures t.queue.preparing == s.queue.preparing
    ensures t.queue.nextOrdinal == s.queue.nextOrdinal && s.queue.ready <= t.queue.ready
  {}

  lemma StoredStep(c: Config, s: State, i: nat) returns (t: State)
    requires Core(c, s) && s.queue.preparing == Some(i) && i < |s.queue.slots|
    requires s.queue.slots[i].stage < c.plan.width && s.work.phase == Store
    ensures StepIs(c, s, t) && Core(c, t) && SameShow(s, t)
    ensures t.queue.nextOrdinal == s.queue.nextOrdinal && s.queue.ready <= t.queue.ready
    ensures t.queue.preparing.None? ==> t.queue.ready > 0
  {
    hide Good, WhiteOutside, InsideMap, Core, BasisStepIs, StepIs, StoredState, ShapedStream, ShapedWork;
    CoreParts(c, s);
    WorkShape(c, s.work);
    StoreIs(c, s, i);
    StoreKeepsCore(c, s, i);
    t := StoredState(s, i);
    StepOfBasis(c, s, i, t);
    StoredParts(c, s, i);
  }

  lemma CompletingStep(c: Config, s: State, i: nat) returns (t: State)
    requires Core(c, s) && s.queue.preparing == Some(i) && i < |s.queue.slots| && s.queue.slots[i].stage == c.plan.width
    ensures StepIs(c, s, t) && Core(c, t) && SameShow(s, t)
    ensures t.queue.nextOrdinal == s.queue.nextOrdinal && t.queue.ready == s.queue.ready + 1
  {
    hide Good, WhiteOutside, InsideMap, Core, ReadyStepIs, StepIs, Finish, ShapedStream, ShapedWork, ShapedScreen, CorrectionWork, WorkOk,
      PatchesFound, PatchesOk, PrepOk, QueueOk, StreamOk;
    CoreParts(c, s);
    WorkShape(c, s.work);
    var patches := ReadyPatches(c, s, i);
    var w := CorrectionWork(c, s.work);
    ReadyIs(c, s, i, patches);
    CorrectionWorkOk(c, s.work);
    ReadyKeepsCore(c, s, i, w, patches);
    t := Finish(c, s, i, w, patches);
    FinishParts(c, s, i, w, patches);
    StepOfReady(c, s, i, t);
  }

  lemma FinishParts(c: Config, s: State, i: nat, w: Work, patches: seq<Patch>)
    requires Shaped(c, s) && i < SLOTS && ShapedWork(w) && ShapedPatches(patches)
    ensures var t := Finish(c, s, i, w, patches); SameShow(s, t) && t.queue.nextOrdinal == s.queue.nextOrdinal && t.queue.ready == s.queue.ready + 1
  {}

  lemma StoredParts(c: Config, s: State, i: nat)
    requires ShapedQueue(s.queue) && ShapedScreen(s.screen) && i < SLOTS && s.queue.slots[i].stage < PLANES && |s.work.raster| == RASTER
    ensures var t := StoredState(s, i); SameShow(s, t) && SameProgress(s.queue, t.queue)
  {}

  // ----- the next symbol of the group on screen

  // The group on screen, its slot and what it holds.
  ghost predicate Current(c: Config, s: State) {
    hide SlotOk, GroupHeld, ShapedStream, ShapedWork;
    && Shaped(c, s) && s.playback.group.Some?
    && var i := s.playback.group.value;
    && var g := s.queue.slots[i];
    && g.state == Playing && SlotOk(c, g, s.screen.planes[i]) && GroupHeld(c, g, s.screen.planes[i])
    && g.ordinal == Played(s.queue) >= 1 && s.screen.slot == i && s.work.zeroReady && s.screen.integrity
    && s.screen.mask == MaskOf(c.plan.width, s.playback.symbol) && (g.applied <==> s.playback.symbol >= 1)
    && s.playback.symbol <= c.plan.width && (c.plan.width == 3 || c.plan.width == 4) && s.reserved.None?
  }

  lemma CurrentGroup(c: Config, s: State)
    requires Core(c, s) && s.playback.group.Some?
    ensures Current(c, s)
  {
    hide Good, WhiteOutside, InsideMap, StreamOk, WorkOk, Produced, GroupHeld, GroupsLog, GroupLog, TailLog, ShapedStream, ShapedWork, ShapedScreen,
      Compose, ImageOf, WhiteRest;
    CoreSlot(c, s, s.playback.group.value);
  }

  // The shown symbol is appended to the log, and the screen shows its picture.
  lemma SymbolShown(c: Config, sc: Screen, log: seq<Shown>, i: nat, g: Slot, symbol: nat)
    requires ShapedScreen(sc) && sc.integrity && i < SLOTS && GroupHeld(c, g, sc.planes[i]) && symbol <= c.plan.width
    requires symbol == 0 ==> !g.applied
    requires symbol == c.plan.width ==> g.applied
    ensures ScreenOk(c, Selected(sc, i, MaskOf(c.plan.width, symbol)), log + [Symbol(c.plan.width, g.ordinal, symbol)])
  {
    hide GroupHeld, Compose, MaskOf, ImageOf, Selected;
    HeldSymbol(c, g, sc.planes[i], symbol);
    SelectionShows(c, sc, log, i, MaskOf(c.plan.width, symbol), Symbol(c.plan.width, g.ordinal, symbol));
  }

  // Toggling the correction of a playing slot while plane 0 is not shown.
  lemma HiddenToggle(c: Config, s: State, sc: Screen, log: seq<Shown>, i: nat, applied: bool)
    requires ShapedQueue(s.queue) && ScreenOk(c, sc, log) && i < SLOTS && WorkOk(c, s.work) && s.work.zeroReady
    requires |sc.planes| == SLOTS && SlotOk(c, s.queue.slots[i], sc.planes[i]) && s.queue.slots[i].state == Playing && s.queue.slots[i].applied != applied
    requires i != sc.slot || (|sc.mask| == PLANES && !sc.mask[0])
    ensures ShapedPatches(s.queue.slots[i].patches)
    ensures ToggledOk(c, s, sc, log, i, applied)
  {
    hide SlotOk, WorkOk, Corrected, ScreenOk, ShapedWork;
    var g := s.queue.slots[i];
    ScreenShape(c, sc, log);
    ToggleKeepsSlot(c, g, sc.planes[i], s.work, applied);
    HiddenWrite(c, sc, log, i, 0, Corrected(sc.planes[i][0], ZeroFor(c, s.work), g.patches));
  }

  lemma ScreenShape(c: Config, sc: Screen, log: seq<Shown>)
    requires ScreenOk(c, sc, log)
    ensures ShapedScreen(sc) && sc.integrity
  {}

  ghost predicate ToggledOk(c: Config, s: State, sc: Screen, log: seq<Shown>, i: nat, applied: bool) {
    hide SlotOk, ScreenOk, Corrected, Written;
    && ShapedQueue(s.queue) && ShapedScreen(sc) && ShapedWork(s.work) && i < SLOTS
    && var g := s.queue.slots[i];
    && var t := Toggled(c, sc, i, s.work, g.patches);
    && ScreenOk(c, t, log) && t.slot == sc.slot && t.mask == sc.mask
    && t.planes == sc.planes[i := t.planes[i]] && SlotOk(c, g.(applied := applied), t.planes[i])
  }

  // Moving on to symbol `symbol`, before any correction.
  function Moved(c: Config, s: State, symbol: nat): (t: State)
    requires Shaped(c, s) && s.playback.group.Some?
    ensures Shaped(c, t)
  {
    hide Selected, ShapedScreen;
    var i := s.playback.group.value;
    s.(playback := s.playback.(symbol := symbol), screen := Selected(s.screen, i, MaskOf(c.plan.width, symbol)),
       log := s.log + [Symbol(c.plan.width, s.queue.slots[i].ordinal, symbol)])
  }

  lemma LogGrows(width: nat, o: nat, m: nat)
    ensures GroupLog(width, o, m + 1) == GroupLog(width, o, m) + [Symbol(width, o, m)]
  {}

  // From the third symbol on the correction is already in place.
  lemma LaterSymbol(c: Config, s: State)
    requires Core(c, s) && s.playback.group.Some? && s.playback.active && 1 <= s.playback.symbol < c.plan.width
    ensures Shaped(c, s) && GoodPlan(c.plan) && NextSymbol(c, s) == Moved(c, s, s.playback.symbol + 1)
    ensures Core(c, Moved(c, s, s.playback.symbol + 1))
  {
    hide Good, WhiteOutside, InsideMap, StreamOk, WorkOk, PrepOk, GroupHeld, GroupsLog, GroupLog, TailLog, ShapedStream, ShapedWork, ShapedScreen,
      Compose, ImageOf, WhiteRest, SlotsOk, QueueOk, SlotOk, ScreenOk;
    CoreParts(c, s);
    CurrentGroup(c, s);
    var i, g, n := s.playback.group.value, s.queue.slots[s.playback.group.value], s.playback.symbol + 1;
    SymbolShown(c, s.screen, s.log, i, g, n);
    LogGrows(c.plan.width, Played(s.queue), n);
    assert s.log + [Symbol(c.plan.width, g.ordinal, n)]
        == GroupsLog(c.plan.width, Played(s.queue) - 1) + GroupLog(c.plan.width, Played(s.queue), n + 1);
  }

  // The second symbol, with the correction applied once it is on screen.
  function SecondShown(c: Config, s: State): (t: State)
    requires Shaped(c, s) && s.playback.group.Some?
    ensures Shaped(c, t)
  {
    hide Toggled, Moved, ShapedScreen;
    var i := s.playback.group.value;
    var m := Moved(c, s, 1);
    m.(screen := Toggled(c, m.screen, i, s.work, s.queue.slots[i].patches),
       queue := s.queue.(slots := s.queue.slots[i := s.queue.slots[i].(applied := true)]))
  }

  lemma SecondIs(c: Config, s: State)
    requires Shaped(c, s) && GoodPlan(c.plan) && s.playback.group.Some? && s.playback.symbol == 0
    requires !s.queue.slots[s.playback.group.value].applied
    ensures NextSymbol(c, s) == SecondShown(c, s)
  {
    hide ShapedStream, ShapedWork, ShapedScreen, Toggled, Selected, OnePlane;
  }

  lemma SecondSymbol(c: Config, s: State)
    requires Core(c, s) && s.playback.group.Some? && s.playback.active && s.playback.symbol == 0
    ensures Shaped(c, s) && GoodPlan(c.plan) && NextSymbol(c, s) == SecondShown(c, s)
    ensures Core(c, SecondShown(c, s))
  {
    hide Good, WhiteOutside, InsideMap, StreamOk, WorkOk, PrepOk, GroupHeld, GroupsLog, GroupLog, TailLog, ShapedStream, ShapedWork, ShapedScreen,
      Compose, ImageOf, WhiteRest, QueueOk, SlotOk, ScreenOk, Toggled, NextSymbol, Pictured;
    CoreParts(c, s);
    CurrentGroup(c, s);
    SecondIs(c, s);
    var i, g := s.playback.group.value, s.queue.slots[s.playback.group.value];
    var m := Moved(c, s, 1);
    SymbolShown(c, s.screen, s.log, i, g, 1);
    HiddenToggle(c, s, m.screen, m.log, i, true);
    LogGrows(c.plan.width, Played(s.queue), 1);
    assert m.log == GroupsLog(c.plan.width, Played(s.queue) - 1) + GroupLog(c.plan.width, Played(s.queue), 2);
    var t := SecondShown(c, s);
    QueueFrame(s.queue, t.queue, s.playback.group);
    SlotChanged(c, s.queue.slots, s.screen.planes, i, t.queue.slots[i], t.screen.planes[i]);
  }

  // ----- handing the screen to the next group

  lemma StartLog(width: nat, o: nat)
    requires width > 0
    ensures MaskOf(width, 0) == OnePlane(0) && Symbol(width, o, 0) == Basis(o, 0) && GroupLog(width, o, 1) == [Basis(o, 0)]
  {
    assert GroupLog(width, o, 0) == [];
  }

  // Slot n starts playing.
  function Started(c: Config, s: State, n: nat): (t: State)
    requires Shaped(c, s) && n < SLOTS
  {
    s.(screen := Selected(s.screen, n, OnePlane(0)), log := s.log + [Basis(s.queue.slots[n].ordinal, 0)], reserved := None,
       queue := s.queue.(slots := s.queue.slots[n := s.queue.slots[n].(state := Playing)], ready := s.queue.ready - 1),
       playback := Playback(Some(n), 0, true))
  }

  lemma FirstIs(c: Config, s: State, n: nat)
    requires Shaped(c, s) && n < SLOTS && s.playback.group.None?
    ensures Handoff(c, s, n) == Started(c, s, n)
  {
    hide ShapedStream, ShapedWork, ShapedScreen, Selected, OnePlane;
  }

  // The very first group.
  lemma FirstGroupStarts(c: Config, s: State, n: nat)
    requires Core(c, s) && s.playback.group.None? && s.reserved.None? && s.queue.ready > 0 && ReadySlot(s.queue, n, Played(s.queue) + 1)
    ensures Shaped(c, s) && Handoff(c, s, n) == Started(c, s, n) && Core(c, Started(c, s, n))
    ensures Played(Started(c, s, n).queue) == Played(s.queue) + 1
  {
    hide Good, WhiteOutside, InsideMap, StreamOk, WorkOk, PrepOk, GroupHeld, GroupsLog, GroupLog, TailLog, ShapedStream, ShapedWork, ShapedScreen,
      Compose, ImageOf, WhiteRest, QueueOk, SlotOk, ScreenOk, Selected, Symbol, MaskOf, OnePlane, Pictured, Handoff;
    CoreParts(c, s);
    CoreSlot(c, s, n);
    FirstIs(c, s, n);
    var g := s.queue.slots[n];
    ReadyHeld(c, g, s.screen.planes[n]);
    StartLog(c.plan.width, g.ordinal);
    WidthOk(c);
    ScreenShape(c, s.screen, s.log);
    SymbolShown(c, s.screen, s.log, n, g, 0);
    var t := Started(c, s, n);
    ShapeStarted(c, s, n);
    HandoffKeepsQueue(s.queue, None, n, t.queue);
    StartKeepsSlot(c, g, s.screen.planes[n]);
    SlotChanged(c, s.queue.slots, s.screen.planes, n, t.queue.slots[n], s.screen.planes[n]);
    SelectedFrame(s.screen, n, OnePlane(0));
    assert s.screen.planes[n := s.screen.planes[n]] == s.screen.planes;
    NoGroups(c.plan.width);
  }

  lemma NoGroups(width: nat)
    ensures GroupsLog(width, 0) == []
  {}

  lemma SelectedFrame(sc: Screen, n: nat, mask: seq<bool>)
    requires ShapedScreen(sc) && n < SLOTS && |mask| == PLANES
    ensures var t := Selected(sc, n, mask); t.planes == sc.planes && t.slot == n && t.mask == mask
  {}

  lemma WidthOk(c: Config)
    requires GoodConfig(c)
    ensures c.plan.width == 3 || c.plan.width == 4
  {}

  lemma ShapeStarted(c: Config, s: State, n: nat)
    requires Shaped(c, s) && n < SLOTS
    ensures Shaped(c, Started(c, s, n))
  {
    hide ShapedStream, ShapedWork, ShapedScreen, Selected;
  }

  lemma ReadyHeld(c: Config, g: Slot, planes: seq<Bytes>)
    requires SlotOk(c, g, planes) && g.state == Ready
    ensures GroupHeld(c, g, planes) && !g.applied
  {
    hide GroupHeld, WhiteRest, BasisHeld;
  }

  // Later groups: the one shown before is restored and its slot released.
  function Succeeded(c: Config, s: State, n: nat): (t: State)
    requires Shaped(c, s) && n < SLOTS && s.playback.group.Some?
  {
    hide Toggled, Selected, ShapedScreen;
    var g := s.playback.group.value;
    s.(screen := Toggled(c, Selected(s.screen, n, OnePlane(0)), g, s.work, s.queue.slots[g].patches),
       log := s.log + [Basis(s.queue.slots[n].ordinal, 0)], reserved := None,
       queue := s.queue.(slots := s.queue.slots[g := s.queue.slots[g].(applied := false, state := Free)]
                                               [n := s.queue.slots[n].(state := Playing)],
                         ready := s.queue.ready - 1),
       playback := Playback(Some(n), 0, true))
  }

  lemma HandoffIs(c: Config, s: State, n: nat)
    requires Shaped(c, s) && n < SLOTS && s.playback.active
    requires s.playback.group.value != n && s.queue.slots[s.playback.group.value].applied
    ensures Handoff(c, s, n) == Succeeded(c, s, n)
  {
    hide ShapedStream, ShapedWork, ShapedScreen, Selected, Toggled, OnePlane;
  }

  lemma ShapeSucceeded(c: Config, s: State, n: nat)
    requires Shaped(c, s) && n < SLOTS && s.playback.group.Some?
    ensures Shaped(c, Succeeded(c, s, n))
  {
    hide ShapedStream, ShapedWork, ShapedScreen, Selected, Toggled;
  }

  lemma NextGroupStarts(c: Config, s: State, n: nat)
    requires Core(c, s) && s.playback.active && s.playback.symbol == c.plan.width
    requires s.queue.ready > 0 && ReadySlot(s.queue, n, Played(s.queue) + 1)
    ensures Shaped(c, s) && Handoff(c, s, n) == Succeeded(c, s, n) && Core(c, Succeeded(c, s, n))
    ensures Played(Succeeded(c, s, n).queue) == Played(s.queue) + 1
  {
    hide Good, WhiteOutside, InsideMap, StreamOk, WorkOk, PrepOk, GroupHeld, GroupsLog, GroupLog, TailLog, ShapedStream, ShapedWork, ShapedScreen,
      Compose, ImageOf, WhiteRest, QueueOk, SlotOk, ScreenOk, Selected, Symbol, MaskOf, OnePlane, Toggled, Pictured, Handoff;
    CoreParts(c, s);
    CurrentGroup(c, s);
    CoreSlot(c, s, n);
    var i := s.playback.group.value;
    var g := s.queue.slots[n];
    HandoffIs(c, s, n);
    ReadyHeld(c, g, s.screen.planes[n]);
    StartLog(c.plan.width, g.ordinal);
    SymbolShown(c, s.screen, s.log, n, g, 0);
    SelectedFrame(s.screen, n, OnePlane(0));
    var sc := Selected(s.screen, n, OnePlane(0));
    var log := s.log + [Basis(g.ordinal, 0)];
    HiddenToggle(c, s, sc, log, i, false);
    var t := Succeeded(c, s, n);
    ShapeSucceeded(c, s, n);
    HandoffKeepsQueue(s.queue, s.playback.group, n, t.queue);
    StartKeepsSlot(c, g, s.screen.planes[n]);
    ReleaseKeepsSlot(c, s.queue.slots[i].(applied := false), t.screen.planes[i]);
    var freed := s.queue.slots[i].(applied := false, state := Free);
    SlotChanged(c, s.queue.slots, s.screen.planes, i, freed, t.screen.planes[i]);
    SlotChanged(c, s.queue.slots[i := freed], t.screen.planes, n, t.queue.slots[n], t.screen.planes[n]);
    assert t.screen.planes[n := t.screen.planes[n]] == t.screen.planes;
    GroupsNext(c.plan.width, Played(s.queue));
  }

  lemma GroupsNext(width: nat, o: nat)
    requires o > 0
    ensures GroupsLog(width, o) == GroupsLog(width, o - 1) + GroupLog(width, o, width + 1)
  {}
}
