// The sender's main theorem: every run, for every clock.

module SenderMain {
  import opened Gf2
  import opened Protocol
  import opened V40L
  import opened Raster
  import opened Repair
  import opened Vga
  import opened PlaneParity
  import opened Schedule
  import opened Sender
  import opened SenderQueue
  import opened SenderGroups
  import opened SenderWork
  import opened SenderScreen
  import opened SenderRuns
  import opened SenderLoop

  // ----- playback_tick

  ghost predicate TickIs(c: Config, s: State, due: bool, eof: bool, r: Ticked) {
    hide ShapedStream, ShapedWork, ShapedScreen, Tick;
    Shaped(c, s) && GoodPlan(c.plan) && Tick(c, s, due, eof) == r
  }

  // What a tick leaves alone.
  predicate SameProducer(a: State, b: State) {
    && a.stream == b.stream && a.tailPending == b.tailPending && a.queue.preparing == b.queue.preparing
    && a.queue.nextOrdinal == b.queue.nextOrdinal && a.queue.ready - 1 <= b.queue.ready <= a.queue.ready
  }

  lemma PlanOk(c: Config)
    requires GoodConfig(c)
    ensures GoodPlan(c.plan)
  {}

  // With nothing active only a first group can be waiting.
  lemma InactiveReady(c: Config, s: State)
    requires Core(c, s) && !s.playback.active && s.queue.ready > 0
    ensures s.playback.group.None? && s.reserved.None?
  {
    hide Good, WhiteOutside, InsideMap, StreamOk, WorkOk, PrepOk, SlotsOk, GroupsLog, GroupLog, TailLog, ShapedStream, ShapedWork, ShapedScreen,
      QueueOk, ScreenOk;
  }

  lemma StartedFrame(c: Config, s: State, n: nat)
    requires Shaped(c, s) && n < SLOTS
    ensures SameProducer(s, Started(c, s, n))
    ensures s.playback.group.Some? ==> SameProducer(s, Succeeded(c, s, n))
  {
    hide ShapedStream, ShapedWork, ShapedScreen, Selected, Toggled;
  }

  lemma MovedFrame(c: Config, s: State, n: nat)
    requires Shaped(c, s) && s.playback.group.Some?
    ensures SameProducer(s, Moved(c, s, n)) && SameProducer(s, SecondShown(c, s))
  {
    hide ShapedStream, ShapedWork, ShapedScreen, Selected, Toggled;
  }

  lemma IdleTick(c: Config, s: State, due: bool, eof: bool) returns (r: Ticked)
    requires Core(c, s) && !s.playback.active
    ensures TickIs(c, s, due, eof, r) && r.Ticked? && Core(c, r.state) && SameProducer(s, r.state) && !r.drained
  {
    hide Good, WhiteOutside, InsideMap, Core, QueueOk, StreamOk, WorkOk, ShapedStream, ShapedWork, ShapedScreen, Handoff, Started, BestReady;
    CoreParts(c, s);
    PlanOk(c);
    if s.queue.ready <= 0 {
      ReadyCount(s.queue, s.playback.group);
      r := Ticked.Ticked(s, false);
    } else {
      InactiveReady(c, s);
      PlayedBound(s.queue, s.playback.group);
      var k := NextGroup(s.queue, s.playback.group, -1);
      FirstGroupStarts(c, s, k);
      StartedFrame(c, s, k);
      r := Ticked.Ticked(Started(c, s, k), false);
    }
  }

  lemma PlayedBound(q: Queue, group: Option<nat>)
    requires QueueOk(q, group)
    ensures Played(q) >= 0
  {}

  lemma ActiveGroup(c: Config, s: State)
    requires Core(c, s) && s.playback.active
    ensures s.playback.group.Some? && s.playback.symbol <= c.plan.width
    ensures |s.queue.slots| == SLOTS && s.playback.group.value < SLOTS && s.queue.slots[s.playback.group.value].ordinal == Played(s.queue)
  {
    hide Good, WhiteOutside, InsideMap, StreamOk, WorkOk, PrepOk, SlotsOk, GroupsLog, GroupLog, TailLog, ShapedStream, ShapedWork, ShapedScreen, ScreenOk;
  }

  lemma SymbolTick(c: Config, s: State, eof: bool) returns (r: Ticked)
    requires Core(c, s) && s.playback.active && s.playback.symbol < c.plan.width
    ensures TickIs(c, s, true, eof, r) && r.Ticked? && Core(c, r.state) && SameProducer(s, r.state) && !r.drained
  {
    hide Good, WhiteOutside, InsideMap, Core, QueueOk, StreamOk, WorkOk, ShapedStream, ShapedWork, ShapedScreen, NextSymbol, Moved, SecondShown;
    CoreParts(c, s);
    PlanOk(c);
    ActiveGroup(c, s);
    if s.playback.symbol == 0 {
      SecondSymbol(c, s);
      MovedFrame(c, s, 0);
      r := Ticked.Ticked(SecondShown(c, s), false);
    } else {
      LaterSymbol(c, s);
      MovedFrame(c, s, s.playback.symbol + 1);
      r := Ticked.Ticked(Moved(c, s, s.playback.symbol + 1), false);
    }
  }

  lemma DrainKeeps(c: Config, s: State)
    requires Core(c, s) && s.playback.active && s.playback.symbol == c.plan.width && Drained(c, s)
    ensures Core(c, s.(playback := s.playback.(active := false)))
  {
    hide Good, WhiteOutside, InsideMap, StreamOk, WorkOk, PrepOk, SlotsOk, GroupsLog, GroupLog, TailLog, ShapedStream, ShapedWork, ShapedScreen,
      ScreenOk, QueueOk;
  }

  lemma DrainedFrame(c: Config, s: State)
    requires Drained(c, s)
    ensures Drained(c, s.(playback := s.playback.(active := false)))
  {}

  lemma BoundaryTick(c: Config, s: State, eof: bool) returns (r: Ticked)
    requires Core(c, s) && s.playback.active && s.playback.symbol == c.plan.width && (eof ==> Drained(c, s))
    ensures TickIs(c, s, true, eof, r) && r.Ticked? && Core(c, r.state) && SameProducer(s, r.state)
    ensures r.drained ==> !r.state.playback.active && Drained(c, r.state)
  {
    hide Good, WhiteOutside, InsideMap, Core, QueueOk, StreamOk, WorkOk, ShapedStream, ShapedWork, ShapedScreen, Handoff, Succeeded, BestReady, Drained;
    CoreParts(c, s);
    PlanOk(c);
    ActiveGroup(c, s);
    if s.queue.ready > 0 {
      var k := NextGroup(s.queue, s.playback.group, Played(s.queue));
      NextGroupStarts(c, s, k);
      StartedFrame(c, s, k);
      r := Ticked.Ticked(Succeeded(c, s, k), false);
    } else {
      ReadyCount(s.queue, s.playback.group);
      NoneReady(s.queue, s.playback.group, Played(s.queue));
      if eof && s.queue.preparing.None? {
        DrainKeeps(c, s);
        DrainedFrame(c, s);
        r := Ticked.Ticked(s.(playback := s.playback.(active := false)), true);
      } else {
        r := Ticked.Ticked(s, false);
      }
    }
  }

  // A tick never fails, keeps the invariant, and leaves the producer alone.
  lemma TickKeeps(c: Config, s: State, due: bool, eof: bool) returns (r: Ticked)
    requires Core(c, s) && (eof ==> Drained(c, s))
    ensures TickIs(c, s, due, eof, r) && r.Ticked? && Core(c, r.state) && SameProducer(s, r.state)
    ensures r.drained ==> !r.state.playback.active && Drained(c, r.state)
  {
    hide Good, WhiteOutside, InsideMap, Core, QueueOk, StreamOk, WorkOk, ShapedStream, ShapedWork, ShapedScreen, Drained, Handoff, NextSymbol, BestReady;
    CoreParts(c, s);
    PlanOk(c);
    if !s.playback.active {
      r := IdleTick(c, s, due, eof);
    } else {
      ActiveGroup(c, s);
      if !due {
        r := Ticked.Ticked(s, false);
      } else if s.playback.symbol < c.plan.width {
        r := SymbolTick(c, s, eof);
      } else {
        r := BoundaryTick(c, s, eof);
      }
    }
  }

  // ----- tails

  lemma RenderedOk(c: Config, w: Work, record: Bytes, input: Bytes)
    requires WorkOk(c, w) && |record| == PAYLOAD && |input| == DATA_CODEWORDS
    ensures RenderedIs(c, w, record, input)
  {
    hide Good, WhiteOutside, InsideMap, KeyOk, Codewords, Xor, Scatter, ShapedMap, ShapedTable, ZeroRaster;
    GoodTable(c);
    var v := w.(record := record);
    var t := Rendered(c, v, input);
    KeyFrame(c, w, t);
    if w.rasterReady {
      DeltaKeepsCanonical(c.printer.template, c.printer.map32, w.previous, t.previous);
    }
  }

  // Whether rendered by delta or from scratch, the raster is the symbol of the
  // input and stays inside the QR rectangle.
  ghost predicate RenderedIs(c: Config, w: Work, record: Bytes, input: Bytes) {
    hide Good, WhiteOutside, InsideMap, Image, Rendered, WorkOk;
    && GoodConfig(c) && ShapedWork(w) && |record| == PAYLOAD && |input| == DATA_CODEWORDS
    && ShapedTable(c.printer.table) && ShapedMap(c.printer.map32) && |c.printer.template| == RASTER
    && var t := Rendered(c, w.(record := record), input);
    && WorkOk(c, t) && t.raster == Image(c.printer, input) && t.zeroReady == w.zeroReady
  }

  lemma ImageWhite(c: Config, input: Bytes)
    requires GoodConfig(c) && |input| == DATA_CODEWORDS
    ensures WhiteOutside(QR, Image(c.printer, input))
  {
    hide Inside, Codewords, Canonical, LinearTable, ShapedMap, WhiteOutside, InsideMap;
    RasterWhite(c, CodewordsOf(c, input));
  }

  // Before any tail the log is complete; it grows by one tail each time.
  lemma LogDrained(c: Config, s: State)
    requires Core(c, s) && !s.playback.active && Drained(c, s)
    ensures Cut(c.plan, s.queue.nextOrdinal) <= s.stream.global
    ensures s.log == GroupsLog(c.plan.width, s.queue.nextOrdinal) + TailLog(Cut(c.plan, s.queue.nextOrdinal), s.stream.global)
  {
    hide Good, WhiteOutside, InsideMap, StreamOk, WorkOk, PrepOk, SlotsOk, ShapedStream, ShapedWork, ShapedScreen, ScreenOk, GroupLog, Cut, QueueOk;
    var n := s.queue.nextOrdinal;
    if s.playback.group.Some? {
      GroupsNext(c.plan.width, n);
    }
    TailNone(Cut(c.plan, n));
    NoGroups(c.plan.width);
  }

  lemma TailNone(n: nat)
    ensures TailLog(n, n) == []
  {}

  lemma TailNext(from: nat, end: nat)
    requires from <= end
    ensures TailLog(from, end + 1) == TailLog(from, end) + [Tail(end)]
  {}

  // Uploading the tail end a hidden slot and selecting it.
  ghost predicate TailScreen(c: Config, sc: Screen, log: seq<Shown>, slot: nat, r: Bytes) {
    hide ScreenOk, ShownTail;
    && ShapedScreen(sc) && slot < SLOTS && |r| == RASTER
    && var t := ShownTail(sc, slot, r);
    && ScreenOk(c, t, log) && t.slot == slot && t.mask == ALL && t.planes == sc.planes[slot := [r, r, r, r]]
  }

  lemma TailWrites(c: Config, sc: Screen, log: seq<Shown>, slot: nat, r: Bytes) returns (t: Screen)
    requires ScreenOk(c, sc, log) && slot < SLOTS && |r| == RASTER && (slot != sc.slot || sc.mask == DARK)
    ensures ScreenOk(c, t, log) && ShapedScreen(sc)
    ensures t == Written(Written(Written(Written(sc, slot, 0, r), slot, 1, r), slot, 2, r), slot, 3, r)
    ensures t.planes == sc.planes[slot := [r, r, r, r]]
  {
    hide ScreenOk, Compose, ShapedScreen;
    ScreenShape(c, sc, log);
    var a := Written(sc, slot, 0, r);
    var b := Written(a, slot, 1, r);
    var d := Written(b, slot, 2, r);
    Darkness(0);
    Darkness(1);
    Darkness(2);
    Darkness(3);
    MaskSize(sc);
    HiddenWrite(c, sc, log, slot, 0, r);
    HiddenWrite(c, a, log, slot, 1, r);
    HiddenWrite(c, b, log, slot, 2, r);
    HiddenWrite(c, d, log, slot, 3, r);
    t := Written(d, slot, 3, r);
    FourPlanes(sc, slot, r);
  }

  lemma MaskSize(sc: Screen)
    requires ShapedScreen(sc)
    ensures |sc.mask| == PLANES && |sc.planes| == SLOTS
  {}

  lemma FourPlanes(sc: Screen, slot: nat, r: Bytes)
    requires ShapedScreen(sc) && slot < SLOTS && |r| == RASTER
    ensures Written(Written(Written(Written(sc, slot, 0, r), slot, 1, r), slot, 2, r), slot, 3, r).planes == sc.planes[slot := [r, r, r, r]]
  {
    hide Compose;
    var row := sc.planes[slot];
    assert ShapedPlanes(row);
    assert row[0 := r][1 := r][2 := r][3 := r] == [r, r, r, r];
  }

  lemma TailShown(c: Config, sc: Screen, log: seq<Shown>, slot: nat, i: nat)
    requires ScreenOk(c, sc, log) && slot < SLOTS && (slot != sc.slot || sc.mask == DARK)
    ensures TailScreen(c, sc, log + [Tail(i)], slot, TailImage(c, i))
  {
    hide ScreenOk, Compose, TailImage, Written, ShapedScreen;
    var r := TailImage(c, i);
    ScreenShape(c, sc, log);
    var t := TailWrites(c, sc, log, slot, r);
    ScreenShape(c, t, log);
    MaskSize(sc);
    AllPlanes(r);
    assert Pictured(c, t.planes[slot], ALL, Tail(i));
    SelectionShows(c, t, log, slot, ALL, Tail(i));
    SelectedFrame(t, slot, ALL);
  }

  lemma AllPlanes(r: Bytes)
    requires |r| == RASTER
    ensures ShapedPlanes([r, r, r, r]) && |ALL| == PLANES
  {}

  ghost predicate ShowTailIs(c: Config, s: State, slot: nat, t: State) {
    hide Good, WhiteOutside, InsideMap, ShapedStream, ShapedWork, ShapedScreen, ShowTail;
    GoodConfig(c) && Shaped(c, s) && slot < SLOTS && !s.playback.active && ShowTail(c, s, slot) == Some(t)
  }

  // The state with the tail selected, before the hidden group is released.
  function TailAdded(c: Config, s: State, slot: nat, w: Work): (t: State)
    requires Shaped(c, s) && s.stream.global < |c.records| && |c.records[s.stream.global]| == PAYLOAD
    requires ShapedWork(w) && slot < SLOTS
    ensures Shaped(c, t)
  {
    hide ShapedStream, ShapedWork, ShapedScreen, Advanced, ShownTail;
    WorkRaster(w);
    s.(stream := Advanced(c, s.stream), work := w, screen := ShownTail(s.screen, slot, w.raster),
       reserved := Some(slot), log := s.log + [Tail(s.stream.global)])
  }

  lemma WorkRaster(w: Work)
    requires ShapedWork(w)
    ensures |w.raster| == RASTER
  {}

  // The work after rendering tail i.
  ghost predicate TailWork(c: Config, s: State, w: Work) {
    hide Good, WhiteOutside, InsideMap, WorkOk, Rendered, TailImage, Wire, ShapedStream, ShapedScreen;
    && GoodConfig(c) && Shaped(c, s) && s.stream.global < c.plan.total
    && ShapedTable(c.printer.table) && ShapedMap(c.printer.map32) && |c.printer.template| == RASTER
    && WorkOk(c, w) && w.zeroReady == s.work.zeroReady && w.raster == TailImage(c, s.stream.global)
    && WhiteOutside(QR, w.raster)
    && w == Rendered(c, s.work.(record := c.records[s.stream.global]), Input(Wire(TailFrame(c, s.stream.global))))
  }

  lemma TailWorkOk(c: Config, s: State) returns (w: Work)
    requires Core(c, s) && s.stream.global < c.plan.total
    ensures TailWork(c, s, w)
  {
    hide Good, WhiteOutside, InsideMap, Core, WorkOk, Rendered, Wire, ShapedStream, ShapedScreen, StreamOk, QueueOk, Image, TailFrame;
    CoreParts(c, s);
    GoodTable(c);
    var i := s.stream.global;
    var input := TailInput(c, i);
    RenderedOk(c, s.work, c.records[i], input);
    ImageWhite(c, input);
    w := Rendered(c, s.work.(record := c.records[i]), input);
  }

  ghost function TailInput(c: Config, i: nat): (r: Bytes)
    requires GoodConfig(c) && i < c.plan.total
    ensures |r| == DATA_CODEWORDS
  {
    hide Good, WhiteOutside, InsideMap, Wire;
    Input(Wire(TailFrame(c, i)))
  }

  lemma TailAddedIs(c: Config, s: State, slot: nat, w: Work)
    requires TailWork(c, s, w) && slot < SLOTS && !s.playback.active
    ensures ShapedWork(w) && |c.records[s.stream.global]| == PAYLOAD
    ensures ShowTailIs(c, s, slot, Released(c, TailAdded(c, s, slot, w), slot))
  {
    hide Good, WhiteOutside, InsideMap, ShapedStream, ShapedScreen, WorkOk, Rendered, TailImage, Wire, Released, ShownTail, Advanced, TailFrame, ShapedTable, ShapedMap;
    WorkShape(c, w);
  }

  // The tail's slot is free, unselected, and not the group's.
  lemma TailSlotHidden(c: Config, s: State) returns (slot: nat)
    requires Core(c, s) && !s.playback.active && Drained(c, s)
    ensures ShapedQueue(s.queue) && TailSlot(s, 0) == Some(slot) && slot < SLOTS && s.queue.slots[slot].state == Free
    ensures s.playback.group != Some(slot) && (slot != s.screen.slot || s.screen.mask == DARK)
  {
    hide Good, WhiteOutside, InsideMap, StreamOk, WorkOk, PrepOk, SlotsOk, ShapedStream, ShapedWork, ShapedScreen, GroupLog, GroupsLog, TailLog, Cut,
      TailSlot, QueueOk;
    CoreParts(c, s);
    TailSlotExists(s);
    TailSlotUnreserved(s, 0);
    slot := TailSlot(s, 0).value;
  }

  lemma TailKeepsSlots(c: Config, s: State, slot: nat, r: Bytes)
    requires Core(c, s) && slot < SLOTS && |s.queue.slots| == SLOTS && s.queue.slots[slot].state == Free && WhiteOutside(QR, r)
    ensures |s.screen.planes| == SLOTS && SlotsOk(c, s.queue.slots, s.screen.planes[slot := [r, r, r, r]])
  {
    hide Good, WhiteOutside, InsideMap, StreamOk, WorkOk, PrepOk, Produced, Displayed, QueueOk, SlotOk, ScreenOk, ZeroKnown, ShapedStream, ShapedWork;
    CoreSlot(c, s, slot);
    FreeKeepsSlot(c, s.queue.slots[slot], s.screen.planes[slot], r);
    SlotChanged(c, s.queue.slots, s.screen.planes, slot, s.queue.slots[slot], [r, r, r, r]);
    assert s.queue.slots[slot := s.queue.slots[slot]] == s.queue.slots;
  }

  lemma PlainTail(c: Config, s: State, slot: nat, w: Work)
    requires Core(c, s) && TailWork(c, s, w) && !s.playback.active && Drained(c, s) && s.playback.group.None?
    requires slot < SLOTS && s.queue.slots[slot].state == Free && (slot != s.screen.slot || s.screen.mask == DARK)
    ensures ShapedWork(w) && |c.records[s.stream.global]| == PAYLOAD
    ensures var t := TailAdded(c, s, slot, w); Released(c, t, slot) == t && Core(c, t) && Drained(c, t)
  {
    hide Good, WhiteOutside, InsideMap, StreamOk, WorkOk, PrepOk, SlotOk, ShapedStream, ShapedWork, ShapedScreen, GroupLog, GroupsLog, TailLog, Cut,
      QueueOk, ScreenOk, ShownTail, TailImage, Rendered, ShapedTable, ShapedMap, Wire, TailFrame, Advanced;
    WorkShape(c, w);
    CoreParts(c, s);
    LogDrained(c, s);
    TailNext(Cut(c.plan, s.queue.nextOrdinal), s.stream.global);
    TailShown(c, s.screen, s.log, slot, s.stream.global);
    TailKeepsSlots(c, s, slot, w.raster);
    AdvanceKeepsStream(c, s.stream);
    AdvancedGlobal(c, s.stream);
  }

  // The tail after a group: the group's slot, now hidden, is restored and freed.
  function TailFreed(c: Config, s: State, slot: nat, w: Work): (t: State)
    requires Shaped(c, s) && s.stream.global < |c.records| && |c.records[s.stream.global]| == PAYLOAD
    requires ShapedWork(w) && slot < SLOTS && s.playback.group.Some? && !s.playback.active
  {
    hide ShapedStream, ShapedWork, ShapedScreen, Advanced, ShownTail, Toggled;
    var a := TailAdded(c, s, slot, w);
    var g := s.playback.group.value;
    a.(screen := Toggled(c, a.screen, g, w, s.queue.slots[g].patches),
       queue := s.queue.(slots := s.queue.slots[g := s.queue.slots[g].(applied := false, state := Free)]),
       playback := s.playback.(group := None))
  }

  lemma TailFreedIs(c: Config, s: State, slot: nat, w: Work)
    requires Shaped(c, s) && s.stream.global < |c.records| && |c.records[s.stream.global]| == PAYLOAD
    requires ShapedWork(w) && slot < SLOTS && s.playback.group.Some? && !s.playback.active
    requires var g := s.playback.group.value; g != slot && s.queue.slots[g].state == Playing && s.queue.slots[g].applied
    ensures Released(c, TailAdded(c, s, slot, w), slot) == TailFreed(c, s, slot, w) && Shaped(c, TailFreed(c, s, slot, w))
  {
    hide ShapedStream, ShapedWork, ShapedScreen, Toggled, ShownTail, Advanced;
  }

  lemma ReleasingTail(c: Config, s: State, slot: nat, w: Work)
    requires Core(c, s) && TailWork(c, s, w) && !s.playback.active && Drained(c, s) && s.playback.group.Some?
    requires slot < SLOTS && s.queue.slots[slot].state == Free && s.playback.group != Some(slot) && slot != s.screen.slot
    ensures ShapedWork(w) && |c.records[s.stream.global]| == PAYLOAD
    ensures var t := TailFreed(c, s, slot, w); Released(c, TailAdded(c, s, slot, w), slot) == t && Core(c, t) && Drained(c, t)
  {
    hide Good, WhiteOutside, InsideMap, StreamOk, WorkOk, PrepOk, SlotOk, ShapedStream, ShapedWork, ShapedScreen, GroupLog, GroupsLog, TailLog, Cut,
      QueueOk, ScreenOk, ShownTail, TailImage, Rendered, ShapedTable, ShapedMap, Wire, TailFrame, Advanced, Toggled, GroupHeld;
    WorkShape(c, w);
    CoreParts(c, s);
    CurrentGroup(c, s);
    var g := s.playback.group.value;
    TailFreedIs(c, s, slot, w);
    LogDrained(c, s);
    TailNext(Cut(c.plan, s.queue.nextOrdinal), s.stream.global);
    TailShown(c, s.screen, s.log, slot, s.stream.global);
    TailKeepsSlots(c, s, slot, w.raster);
    AdvanceKeepsStream(c, s.stream);
    AdvancedGlobal(c, s.stream);
    var a := TailAdded(c, s, slot, w);
    HiddenToggle(c, a, a.screen, a.log, g, false);
    var t := TailFreed(c, s, slot, w);
    ReleaseKeepsQueue(s.queue, g, t.queue);
    ReleaseKeepsSlot(c, s.queue.slots[g].(applied := false), t.screen.planes[g]);
    SlotChanged(c, s.queue.slots, a.screen.planes, g, t.queue.slots[g], t.screen.planes[g]);
  }

  // show_tail always succeeds, on a slot that is neither shown nor in use, and
  // the screen then shows the tail; the last group's slot is back to white.
  lemma TailKeeps(c: Config, s: State) returns (slot: nat, t: State)
    requires Core(c, s) && !s.playback.active && Drained(c, s) && s.stream.global < c.plan.total
    ensures ShapedQueue(s.queue) && TailSlot(s, 0) == Some(slot) && ShowTailIs(c, s, slot, t) && Core(c, t) && Drained(c, t)
  {
    hide *;
    slot := TailSlotHidden(c, s);
    var w := TailWorkOk(c, s);
    CoreParts(c, s);
    RecordCount(c);
    TailAddedIs(c, s, slot, w);
    if s.playback.group.None? {
      PlainTail(c, s, slot, w);
      t := TailAdded(c, s, slot, w);
    } else {
      CurrentGroup(c, s);
      CurrentSlot(c, s);
      ReleasingTail(c, s, slot, w);
      t := TailFreed(c, s, slot, w);
    }
  }

  lemma RecordCount(c: Config)
    requires GoodConfig(c)
    ensures |c.records| == c.plan.total
  {}

  lemma CurrentSlot(c: Config, s: State)
    requires Current(c, s)
    ensures s.playback.group == Some(s.screen.slot)
  {}

  // ----- one iteration

  ghost predicate LoopOk(c: Config, s: State) {
    Core(c, s) && TailOk(c, s)
  }

  lemma PendingFrame(c: Config, s: State, b: bool)
    requires Core(c, s)
    ensures Core(c, s.(tailPending := b))
  {
    hide Good, WhiteOutside, InsideMap, StreamOk, WorkOk, PrepOk, SlotsOk, ShapedStream, ShapedWork, ShapedScreen, GroupLog, GroupsLog, TailLog,
      QueueOk, ScreenOk, Cut;
  }

  // Out of records and nothing in preparation: the schedule has no more groups.
  lemma NoMoreGroups(c: Config, s: State)
    requires Core(c, s) && s.queue.preparing.None? && (s.stream.global >= c.plan.total || s.reserved.Some?)
    ensures GoodPlan(c.plan) && !HasGroup(c.plan, s.queue.nextOrdinal)
  {
    hide Good, WhiteOutside, InsideMap, StreamOk, WorkOk, PrepOk, SlotsOk, ShapedStream, ShapedWork, ShapedScreen, GroupLog, GroupsLog, TailLog,
      QueueOk, ScreenOk, Cut;
  }

  lemma EofDrained(c: Config, s: State)
    requires LoopOk(c, s) && (s.stream.global >= c.plan.total || s.tailPending) && s.queue.preparing.None? && s.queue.ready == 0
    ensures Drained(c, s)
  {
    hide Core, Cut, HasGroup;
    if s.stream.global >= c.plan.total {
      NoMoreGroups(c, s);
    }
  }

  ghost predicate TryClaimIs(c: Config, s: State, t: State, claimed: bool) {
    hide ShapedStream, ShapedWork, ShapedScreen, TryClaim;
    GoodPlan(c.plan) && |c.records| == c.plan.total && Shaped(c, s) && TryClaim(c, s) == (t, claimed)
  }

  lemma RefusedClaim(c: Config, s: State)
    requires Core(c, s) && s.queue.preparing.None? && s.queue.ready < SLOTS && s.stream.global < c.plan.total
    requires Claim(c, s.stream, s.queue, s.reserved).None?
    ensures GoodPlan(c.plan) && (!HasGroup(c.plan, s.queue.nextOrdinal) || s.queue.ready >= 7)
  {
    hide Good, WhiteOutside, InsideMap, StreamOk, WorkOk, PrepOk, SlotsOk, ShapedStream, ShapedWork, ShapedScreen, GroupLog, GroupsLog, TailLog,
      QueueOk, ScreenOk, Cut, Displayed, HasGroup, Claim;
    if s.reserved.Some? {
      NoMoreGroups(c, s);
    } else {
      CoreParts(c, s);
      ClaimExact(c, s.stream, s.queue, s.queue.nextOrdinal);
      if !SomeFree(s.queue) {
        FullQueue(s.queue, s.playback.group);
      }
    }
  }

  lemma TryClaimKeeps(c: Config, s: State) returns (t: State, claimed: bool)
    requires Core(c, s) && (s.tailPending ==> s.queue.preparing.None?)
    requires s.tailPending ==> GoodPlan(c.plan) && (!HasGroup(c.plan, s.queue.nextOrdinal) || s.queue.ready >= 6)
    ensures TryClaimIs(c, s, t, claimed) && LoopOk(c, t) && t.playback == s.playback
    ensures claimed ==> t.queue.preparing.Some?
    ensures t.queue.preparing.None? && t.queue.ready < SLOTS && t.stream.global < c.plan.total ==> t.tailPending
    ensures t.queue.ready == s.queue.ready
  {
    hide Core, Cut, HasGroup, Claim, ShapedStream, ShapedWork, ShapedScreen, QueueOk, StreamOk, WorkOk, Good, WhiteOutside, InsideMap, PrepOk;
    CoreParts(c, s);
    if s.queue.preparing.None? && s.queue.ready < SLOTS && s.stream.global < c.plan.total {
      var q := Claim(c, s.stream, s.queue, s.reserved);
      if q.Some? {
        ClaimKeeps(c, s);
        ClaimShape(c, s);
        PendingFrame(c, s.(queue := q.value, work := Claimant(s.work)), false);
        t, claimed := s.(queue := q.value, work := Claimant(s.work), tailPending := false), true;
      } else {
        RefusedClaim(c, s);
        PendingFrame(c, s, true);
        t, claimed := s.(tailPending := true), false;
      }
    } else {
      if s.queue.preparing.None? && s.stream.global >= c.plan.total {
        NoMoreGroups(c, s);
      }
      t, claimed := s, false;
    }
  }

  lemma ClaimShape(c: Config, s: State)
    requires Core(c, s) && s.queue.preparing.None? && s.queue.ready < SLOTS && s.stream.global < c.plan.total
    requires Claim(c, s.stream, s.queue, s.reserved).Some?
    ensures Claim(c, s.stream, s.queue, s.reserved).value.preparing.Some?
    ensures Claim(c, s.stream, s.queue, s.reserved).value.ready == s.queue.ready
  {
    hide Core, Claim, SlotIs, ShapedStream;
    ClaimOpens(c, s);
  }

  ghost predicate IterateIs(c: Config, s: State, due: bool, r: Outcome) {
    hide Good, WhiteOutside, InsideMap, ShapedStream, ShapedWork, ShapedScreen, Iterate;
    GoodConfig(c) && Shaped(c, s) && Iterate(c, s, due) == r
  }

  ghost predicate AfterStepIs(c: Config, s: State, claimed: bool, r: Outcome) {
    hide Good, WhiteOutside, InsideMap, ShapedStream, ShapedWork, ShapedScreen, AfterStep;
    GoodConfig(c) && Shaped(c, s) && AfterStep(c, s, claimed) == r
  }

  // The run is over: every group and every tail was shown.
  ghost predicate Over(c: Config, s: State) {
    Core(c, s) && Drained(c, s) && !s.playback.active && s.stream.global >= c.plan.total
  }

  ghost predicate OutcomeOk(c: Config, r: Outcome) {
    match r
    case Aborted => false
    case Running(s) => LoopOk(c, s)
    case Finished(s) => Over(c, s)
  }

  lemma PendingDrained(c: Config, s: State)
    requires Drained(c, s)
    ensures Drained(c, s.(tailPending := false)) && s.queue.ready == 0 && s.queue.preparing.None?
  {}

  ghost predicate MadeIs(c: Config, s: State, t: State) {
    if s.queue.preparing.Some? then StepIs(c, s, t) else t == s
  }

}
