// Progress of the sender: producer steps, claims, symbols and tails use up a
// finite measure, and every iteration with a due deadline makes it smaller.

module SenderProgress {
  import opened Gf2
  import opened Protocol
  import opened V40L
  import opened Raster
  import opened Repair
  import opened Vga
  import opened PlaneParity
  import opened Schedule
  import opened Sender
  import opened SenderQueue
  import opened SenderGroups
  import opened SenderWork
  import opened SenderRuns
  import opened SenderLoop
  import opened SenderMain

  // Producer steps left for the group in preparation.
  function PhaseLeft(w: Work): int {
    match w.phase
    case Begin => 16
    case Encode => 10 + (BLOCKS - w.block + 4) / 5
    case Delta => 1 + (CODEWORDS - w.position + 511) / 512
    case Matrix => 2
    case Store => 1
  }

  function SlotLeft(width: nat, g: Slot, w: Work): int {
    if g.stage >= width then 1 else 16 * (width - g.stage - 1) + PhaseLeft(w) + 1
  }

  function StepsLeft(width: nat, q: Queue, w: Work): int {
    if q.preparing.Some? && q.preparing.value < |q.slots| then SlotLeft(width, q.slots[q.preparing.value], w) else 0
  }

  const GROUP_COST: nat := 72

  function Measure(c: Config, s: State): int
    requires GoodPlan(c.plan)
  {
    4 * (|FullLog(c.plan)| - |s.log|) + GROUP_COST * (Groups(c.plan) - s.queue.nextOrdinal)
    + StepsLeft(c.plan.width, s.queue, s.work) + Bit(s.playback.active) + Bit(!s.tailPending)
  }

  lemma LeftBound(c: Config, global: nat, g: Slot, w: Work)
    requires PrepOk(c, global, g, w) && WorkOk(c, w)
    ensures SlotLeft(c.plan.width, g, w) >= 0
  {
    hide Good, WhiteOutside, InsideMap, SlotIs, MembersOk, PhaseOk, Cut, KeyOk, RasterOf, ZeroRaster;
  }

  // ----- the producer uses up its steps

  lemma EncodeLess(c: Config, w: Work)
    requires ShapedTable(c.printer.table) && ShapedWork(w) && w.phase == Encode && w.block < BLOCKS && w.position == 0
    ensures PhaseLeft(EncodeWork(c, w)) < PhaseLeft(w)
  {
    hide Codewords;
  }

  lemma DeltaLess(c: Config, w: Work)
    requires ShapedMap(c.printer.map32) && ShapedWork(w) && w.phase == Delta && w.position < CODEWORDS
    ensures PhaseLeft(DeltaWork(c, w)) < PhaseLeft(w)
  {
    hide Scatter, Xor;
  }

  // What the phase invariant says about the counters.
  lemma PhaseCounters(c: Config, k: nat, p: nat, w: Work)
    requires PhaseOk(c, k, p, w)
    ensures w.phase == Encode ==> w.block < BLOCKS && w.position == 0
    ensures w.phase == Delta ==> w.position < CODEWORDS
  {}

  ghost predicate WorkIs(c: Config, w: Work, t: Work) {
    hide Good, WhiteOutside, InsideMap, EncodeWork, DeltaWork, MatrixWork;
    && ShapedWork(w) && ShapedTable(c.printer.table) && ShapedMap(c.printer.map32) && |c.printer.template| == RASTER
    && match w.phase
       case Encode => t == EncodeWork(c, w)
       case Delta => t == DeltaWork(c, w)
       case Matrix => t == MatrixWork(c, w)
       case _ => false
  }

  lemma WorkLess(c: Config, k: nat, p: nat, w: Work, t: Work)
    requires WorkIs(c, w, t) && PhaseOk(c, k, p, w)
    ensures PhaseLeft(t) < PhaseLeft(w)
  {
    hide PhaseOk, EncodeWork, DeltaWork, ShapedWork, ShapedTable, ShapedMap;
    PhaseCounters(c, k, p, w);
    match w.phase {
      case Encode => EncodeLess(c, w);
      case Delta => DeltaLess(c, w);
      case Matrix => MatrixPhase(c, w);
    }
  }

  lemma MatrixPhase(c: Config, w: Work)
    requires ShapedMap(c.printer.map32) && |c.printer.template| == RASTER && ShapedWork(w)
    ensures PhaseLeft(MatrixWork(c, w)) == 1
  {
    hide Canonical;
  }

  // What one producer step did, by phase.
  ghost predicate StepShape(c: Config, s: State, t: State) {
    && s.queue.preparing.Some? && s.queue.preparing.value < |s.queue.slots|
    && var i := s.queue.preparing.value;
    && var g := s.queue.slots[i];
    && if g.stage >= c.plan.width then t.queue.preparing.None?
       else if s.work.phase == Begin then t.queue == s.queue && t.work.phase == Encode && t.work.block == 0
       else if s.work.phase == Store then
         t.work == s.work.(phase := Begin) && t.queue.preparing == Some(i) && |t.queue.slots| == |s.queue.slots|
         && t.queue.slots[i].stage == g.stage + 1
       else t.queue == s.queue && WorkIs(c, s.work, t.work)
  }

  lemma StepHasShape(c: Config, s: State, t: State)
    requires Core(c, s) && StepIs(c, s, t)
    ensures StepShape(c, s, t)
  {
    hide Good, WhiteOutside, InsideMap, Core, ShapedStream, ShapedScreen, ShapedWork, BasisStep, ReadyStep, PrepOk, WorkOk, StreamOk, QueueOk,
      WorkIs;
    CoreParts(c, s);
    var i := s.queue.preparing.value;
    var g := s.queue.slots[i];
    PrepParts(c, s.stream.global, g, s.work);
    if g.stage < c.plan.width {
      BasisShape(c, s, i, t);
    } else {
      ReadyShape(c, s, i, t);
    }
  }

  lemma ReadyShape(c: Config, s: State, i: nat, t: State)
    requires ReadyStepIs(c, s, i, t)
    ensures t.queue.preparing.None?
  {
    hide Good, WhiteOutside, InsideMap, ShapedStream, ShapedScreen, ShapedWork, SlotPatches, CorrectionWork;
  }

  lemma BasisShape(c: Config, s: State, i: nat, t: State)
    requires BasisStepIs(c, s, i, t) && s.queue.preparing == Some(i)
    ensures StepShape(c, s, t)
  {
    hide Good, WhiteOutside, InsideMap, ShapedStream, ShapedScreen, ShapedWork, BeginBasis, EncodeWork, DeltaWork, MatrixWork, Stored;
    GoodTable(c);
    if s.work.phase == Begin {
      BeginShape(c, s.stream, s.queue.slots[i], s.work);
    }
  }

  lemma BeginShape(c: Config, st: Stream, g: Slot, w: Work)
    requires GoodConfig(c) && ShapedStream(c, st) && ShapedWork(w) && g.stage < c.plan.width
    ensures BeginBasis(c, st, g, w).Some? ==> BeginBasis(c, st, g, w).value.work.phase == Encode && BeginBasis(c, st, g, w).value.work.block == 0
  {
    hide Good, WhiteOutside, InsideMap, Keyed, KeyedWire, Xor, Input, Advanced;
  }

  lemma ShapeLess(c: Config, s: State, t: State, k: nat)
    requires GoodPlan(c.plan) && StepShape(c, s, t)
    requires var g := s.queue.slots[s.queue.preparing.value];
             s.work.phase != Begin ==> PhaseOk(c, k, g.stage, s.work) && g.stage < c.plan.width
    ensures StepsLeft(c.plan.width, t.queue, t.work) < StepsLeft(c.plan.width, s.queue, s.work)
  {
    hide PhaseOk, WorkIs;
    var g := s.queue.slots[s.queue.preparing.value];
    if g.stage < c.plan.width && s.work.phase != Begin && s.work.phase != Store {
      WorkLess(c, k, g.stage, s.work, t.work);
    }
  }

  // A producer step makes progress and touches nothing else of the measure.
  lemma StepLess(c: Config, s: State, t: State)
    requires Core(c, s) && StepIs(c, s, t) && SameShow(s, t) && t.queue.nextOrdinal == s.queue.nextOrdinal
    ensures GoodPlan(c.plan) && Measure(c, t) < Measure(c, s)
  {
    hide Core, StepIs, StepShape, PhaseOk, FullLog, Groups, PrepOk, StepsLeft, StreamOk, WorkOk, QueueOk;
    CoreParts(c, s);
    PlanOk(c);
    StepHasShape(c, s, t);
    ShapePreparing(c, s, t);
    var g := s.queue.slots[s.queue.preparing.value];
    PrepParts(c, s.stream.global, g, s.work);
    ShapeLess(c, s, t, g.ordinal - 1);
  }

  lemma ShapePreparing(c: Config, s: State, t: State)
    requires StepShape(c, s, t)
    ensures s.queue.preparing.Some? && s.queue.preparing.value < |s.queue.slots|
  {}

  // ----- claims

  lemma ClaimLess(c: Config, s: State)
    requires Core(c, s) && s.queue.preparing.None? && s.queue.ready < SLOTS && s.stream.global < c.plan.total
    requires Claim(c, s.stream, s.queue, s.reserved).Some?
    ensures GoodPlan(c.plan)
    ensures var t := s.(queue := Claim(c, s.stream, s.queue, s.reserved).value, work := Claimant(s.work), tailPending := false);
            Measure(c, t) < Measure(c, s)
  {
    hide Core, FullLog, Groups, SlotIs, Claim, ShapedStream, ShapedQueue;
    CoreParts(c, s);
    PlanOk(c);
    ClaimOpens(c, s);
    ClaimantPhase(s.work);
  }

  lemma ClaimantPhase(w: Work)
    requires ShapedWork(w)
    ensures Claimant(w).phase == Begin
  {}

  // The claim attempt of an iteration: a success or a first refusal counts.
  lemma TryClaimLess(c: Config, s: State, t: State, claimed: bool)
    requires Core(c, s) && TryClaimIs(c, s, t, claimed)
    ensures GoodPlan(c.plan) && Measure(c, t) <= Measure(c, s)
    ensures t.log == s.log && t.playback == s.playback && t.queue.ready == s.queue.ready
    ensures s.queue.preparing.Some? ==> t == s
    ensures claimed ==> Measure(c, t) < Measure(c, s)
    ensures !claimed ==> t == s.(tailPending := t.tailPending)
    ensures s.queue.preparing.None? && s.queue.ready < SLOTS && s.stream.global < c.plan.total && !s.tailPending ==>
              Measure(c, t) < Measure(c, s)
  {
    hide Core, FullLog, Groups, Claim, StepsLeft, ShapedStream, ShapedWork, ShapedScreen, Claimant;
    CoreParts(c, s);
    if s.queue.preparing.None? && s.queue.ready < SLOTS && s.stream.global < c.plan.total {
      if Claim(c, s.stream, s.queue, s.reserved).Some? {
        ClaimLess(c, s);
        ClaimShape(c, s);
      }
    }
  }

  // ----- ticks

  predicate SameStages(a: Queue, b: Queue) {
    |a.slots| == |b.slots| && forall i :: 0 <= i < |a.slots| ==> a.slots[i].stage == b.slots[i].stage
  }

  // A tick advances the log by one symbol, or drains, or waits.
  ghost predicate TickShape(s: State, due: bool, eof: bool, r: Ticked) {
    && r.Ticked? && r.state.work == s.work && SameStages(s.queue, r.state.queue)
    && if |r.state.log| == |s.log| + 1 then true
       else if r.drained then
         r.state.log == s.log && s.playback.active && !r.state.playback.active && eof
       else r.state == s
  }

  ghost predicate Waits(c: Config, s: State) {
    s.queue.ready <= 0 && (s.playback.active ==> s.playback.symbol == c.plan.width)
  }

  lemma SetCorrectionFrame(c: Config, s: State, i: nat, want: bool)
    requires Shaped(c, s) && i < SLOTS
    ensures var t := SetCorrection(c, s, i, want);
            SameStages(s.queue, t.queue) && t.work == s.work && t.log == s.log && t.playback == s.playback && t.queue.ready == s.queue.ready
  {
    hide ShapedStream, ShapedWork, ShapedScreen, Toggled;
  }

  lemma NextSymbolFrame(c: Config, s: State)
    requires Shaped(c, s) && s.playback.group.Some? && GoodPlan(c.plan)
    ensures var t := NextSymbol(c, s); SameStages(s.queue, t.queue) && t.work == s.work && |t.log| == |s.log| + 1
  {
    hide ShapedStream, ShapedWork, ShapedScreen, SetCorrection, Selected;
    var i := s.playback.group.value;
    var s1 := s.(playback := s.playback.(symbol := s.playback.symbol + 1));
    SetCorrectionFrame(c, s1, i, true);
    var s2 := ShowPlane(c, s1, i, OnePlane(s.playback.symbol + 1), Basis(s.queue.slots[i].ordinal, s.playback.symbol + 1));
    SetCorrectionFrame(c, s2, i, true);
  }

  lemma HandoffFrame(c: Config, s: State, n: nat)
    requires Shaped(c, s) && n < SLOTS
    ensures var t := Handoff(c, s, n); SameStages(s.queue, t.queue) && t.work == s.work && |t.log| == |s.log| + 1
  {
    hide ShapedStream, ShapedWork, ShapedScreen, SetCorrection, Selected;
    var s1 := ShowPlane(c, s, n, OnePlane(0), Basis(s.queue.slots[n].ordinal, 0)).(reserved := None);
    if s.playback.group.Some? {
      SetCorrectionFrame(c, s1, s.playback.group.value, false);
    }
  }

  lemma TickHasShape(c: Config, s: State, due: bool, eof: bool, r: Ticked)
    requires Core(c, s) && TickIs(c, s, due, eof, r) && r.Ticked?
    ensures TickShape(s, due, eof, r)
    ensures due && r.state == s ==> Waits(c, s) && (s.playback.active ==> !eof || s.queue.preparing.Some?)
  {
    hide Core, ShapedStream, ShapedWork, ShapedScreen, NextSymbol, Handoff, BestReady, QueueOk;
    CoreParts(c, s);
    if s.playback.active {
      ActiveGroup(c, s);
      NextSymbolFrame(c, s);
      if s.queue.ready > 0 {
        var k := NextGroup(s.queue, s.playback.group, Played(s.queue));
        HandoffFrame(c, s, k);
      } else {
        ReadyCount(s.queue, s.playback.group);
        NoneReady(s.queue, s.playback.group, Played(s.queue));
      }
    } else if s.queue.ready > 0 {
      InactiveReady(c, s);
      PlayedBound(s.queue, s.playback.group);
      var k := NextGroup(s.queue, s.playback.group, -1);
      HandoffFrame(c, s, k);
    } else {
      ReadyCount(s.queue, s.playback.group);
    }
  }

  lemma TickLess(c: Config, s: State, due: bool, eof: bool, r: Ticked)
    requires GoodPlan(c.plan) && TickShape(s, due, eof, r) && SameProducer(s, r.state)
    ensures Measure(c, r.state) <= Measure(c, s)
    ensures r.state != s ==> Measure(c, r.state) < Measure(c, s)
  {
    hide FullLog, Groups, SlotLeft;
    assert StepsLeft(c.plan.width, r.state.queue, r.state.work) == StepsLeft(c.plan.width, s.queue, s.work) by {
      LeftFrame(c.plan.width, s.queue, r.state.queue, s.work);
    }
    hide StepsLeft;
  }

  lemma LeftFrame(width: nat, a: Queue, b: Queue, w: Work)
    requires SameStages(a, b) && a.preparing == b.preparing
    ensures StepsLeft(width, a, w) == StepsLeft(width, b, w)
  {}

  // ----- tails

  lemma TailLess(c: Config, s: State, slot: nat, t: State)
    requires Core(c, s) && ShowTailIs(c, s, slot, t) && s.stream.global < c.plan.total && Drained(c, s) && Drained(c, t)
    ensures GoodPlan(c.plan) && Measure(c, t.(tailPending := false)) < Measure(c, s)
  {
    hide Core, FullLog, Groups, HasGroup, ShapedStream, ShapedWork, ShapedScreen, Good, WhiteOutside, InsideMap;
    TailFrameOf(c, s, slot, t);
  }

  lemma TailFrameOf(c: Config, s: State, slot: nat, t: State)
    requires ShowTailIs(c, s, slot, t)
    ensures |t.log| == |s.log| + 1 && t.queue.nextOrdinal == s.queue.nextOrdinal && !t.playback.active && !s.playback.active
  {
    hide Good, WhiteOutside, InsideMap, ShapedStream, ShapedWork, ShapedScreen, Advanced, Rendered, Wire, TailFrame, ShownTail, Toggled, LinearTable;
  }

  // ----- iterations

  lemma AfterStepLess(c: Config, s: State, claimed: bool) returns (r: Outcome)
    requires LoopOk(c, s)
    requires claimed ==> s.queue.preparing.Some? || s.queue.ready > 0
    requires s.queue.preparing.None? && s.queue.ready == 0 && s.stream.global < c.plan.total ==> s.tailPending
    ensures AfterStepIs(c, s, claimed, r) && OutcomeOk(c, r) && GoodPlan(c.plan)
    ensures r.Running? ==> Measure(c, r.state) <= Measure(c, s)
    ensures r.Running? && !s.playback.active && s.queue.ready == 0 && s.queue.preparing.None? ==> Measure(c, r.state) < Measure(c, s)
  {
    hide Core, Cut, HasGroup, ShapedStream, ShapedWork, ShapedScreen, QueueOk, StreamOk, WorkOk, Good, WhiteOutside, InsideMap, PrepOk,
      TailSlot, ShowTail, Drained, Measure;
    CoreParts(c, s);
    PlanOk(c);
    if !s.playback.active && s.queue.ready == 0 && s.queue.preparing.None? {
      EofDrained(c, s);
      if s.stream.global < c.plan.total {
        var slot, t := TailKeeps(c, s);
        TailLess(c, s, slot, t);
        PendingFrame(c, t, false);
        PendingDrained(c, t);
        r := Closing(c, t.(tailPending := false));
      } else {
        r := Finished(s);
      }
    } else {
      r := Running(s);
    }
  }

  lemma MakeLess(c: Config, s: State) returns (t: State)
    requires LoopOk(c, s)
    ensures MadeIs(c, s, t) && LoopOk(c, t) && t.playback == s.playback
    ensures s.queue.preparing.Some? ==> t.queue.preparing.Some? || t.queue.ready > 0
    ensures s.queue.preparing.None? ==> t == s
    ensures GoodPlan(c.plan) && Measure(c, t) <= Measure(c, s)
    ensures s.queue.preparing.Some? ==> Measure(c, t) < Measure(c, s)
  {
    hide Core, HasGroup, StepIs, Measure;
    CoreParts(c, s);
    PlanOk(c);
    if s.queue.preparing.Some? {
      t := StepKeeps(c, s);
      StepLess(c, s, t);
    } else {
      t := s;
    }
  }

  // A waiting screen and an idle producer: the claim attempt or a tail counts.
  lemma WaitingTurn(c: Config, s: State, eof: bool, s2: State, claimed: bool)
    requires Core(c, s) && TryClaimIs(c, s, s2, claimed) && Waits(c, s) && s.queue.ready == 0 && s.queue.preparing.None?
    requires (s.stream.global >= c.plan.total || s.tailPending) ==> eof
    requires s.playback.active ==> !eof
    ensures GoodPlan(c.plan) && (Measure(c, s2) < Measure(c, s) || !s2.playback.active)
  {
    hide Core, Measure, HasGroup, TryClaimIs;
    CoreParts(c, s);
    PlanOk(c);
    TryClaimLess(c, s, s2, claimed);
  }

  // Every iteration keeps the measure from growing, and one with a due deadline
  // makes it smaller.
  lemma IterateLess(c: Config, s: State, due: bool) returns (r: Outcome)
    requires LoopOk(c, s)
    ensures IterateIs(c, s, due, r) && OutcomeOk(c, r) && GoodPlan(c.plan)
    ensures r.Running? ==> Measure(c, r.state) <= Measure(c, s)
    ensures r.Running? && due ==> Measure(c, r.state) < Measure(c, s)
  {
    hide Core, HasGroup, ShapedStream, ShapedWork, ShapedScreen, QueueOk, StreamOk, WorkOk, Good, WhiteOutside, InsideMap, PrepOk, Cut,
      Tick, TryClaim, Step, AfterStep, Drained, Measure, TickShape, Waits;
    CoreParts(c, s);
    PlanOk(c);
    var eof := (s.stream.global >= c.plan.total || s.tailPending) && s.queue.preparing.None? && s.queue.ready == 0;
    if eof { EofDrained(c, s); }
    var tick := TickKeeps(c, s, due, eof);
    var s1 := tick.state;
    TickHasShape(c, s, due, eof, tick);
    TickLess(c, s, due, eof, tick);
    CoreParts(c, s1);
    if tick.drained && s1.stream.global >= c.plan.total {
      r := Finished(s1);
    } else {
      var s2, claimed := TryClaimKeeps(c, s1);
      TryClaimLess(c, s1, s2, claimed);
      CoreParts(c, s2);
      var s3 := MakeLess(c, s2);
      CoreParts(c, s3);
      r := AfterStepLess(c, s3, claimed);
      if due && s1 == s && s2.queue.preparing.None? {
        ReadyCount(s.queue, s.playback.group);
        WaitsReady(c, s);
        WaitingTurn(c, s, eof, s2, claimed);
      }
    }
  }

  lemma WaitsReady(c: Config, s: State)
    requires Waits(c, s)
    ensures s.queue.ready <= 0
  {}

  // ----- prefilling

  ghost predicate PrefillIs(c: Config, s: State, r: Prefilled) {
    hide Good, WhiteOutside, InsideMap, ShapedStream, ShapedWork, ShapedScreen, PrefillStep;
    GoodConfig(c) && Shaped(c, s) && PrefillStep(c, s) == r
  }

  ghost predicate PrefillOk(c: Config, r: Prefilled) {
    match r
    case PrefillAborted => false
    case PrefillMore(s) => LoopOk(c, s) && !s.tailPending
    case PrefillDone(s) => LoopOk(c, s)
  }

  lemma ClaimInRange(c: Config, s: State)
    requires GoodPlan(c.plan) && |c.records| == c.plan.total && Shaped(c, s)
    requires Claim(c, s.stream, s.queue, s.reserved).Some?
    ensures s.stream.global < c.plan.total
  {}

  lemma PrefillLess(c: Config, s: State) returns (r: Prefilled)
    requires LoopOk(c, s) && !s.tailPending
    ensures PrefillIs(c, s, r) && PrefillOk(c, r) && GoodPlan(c.plan)
    ensures r.PrefillMore? ==> Measure(c, r.state) < Measure(c, s)
    ensures r.PrefillDone? ==> r.state == s
  {
    hide Core, HasGroup, ShapedStream, ShapedWork, ShapedScreen, QueueOk, StreamOk, WorkOk, Good, WhiteOutside, InsideMap, PrepOk, Cut,
      Step, Claim, Measure;
    CoreParts(c, s);
    PlanOk(c);
    if s.queue.preparing.Some? {
      var t := StepKeeps(c, s);
      StepLess(c, s, t);
      r := PrefillMore(t);
    } else if s.queue.ready >= 2 {
      r := PrefillDone(s);
    } else {
      var q := Claim(c, s.stream, s.queue, s.reserved);
      if q.None? {
        r := PrefillDone(s);
      } else {
        ClaimInRange(c, s);
        ClaimKeeps(c, s);
        ClaimLess(c, s);
        r := PrefillMore(s.(queue := q.value, work := Claimant(s.work)));
      }
    }
  }
}
