// Whole runs of the sender: safety for every clock, completeness at the end,
// and progress with every deadline.

module SenderSafety {
  import opened Gf2
  import opened Protocol
  import opened V40L
  import opened Raster
  import opened Repair
  import opened Vga
  import opened PlaneParity
  import opened Schedule
  import opened Sender
  import opened SenderQueue
  import opened SenderGroups
  import opened SenderWork
  import opened SenderScreen
  import opened SenderRuns
  import opened SenderLoop
  import opened SenderMain
  import opened SenderProgress

  // ----- the log is a prefix of the schedule

  lemma {:induction false} GroupLogPrefix(width: nat, o: nat, m: nat, n: nat)
    requires m <= n
    ensures GroupLog(width, o, m) <= GroupLog(width, o, n)
    decreases n
  {
    if m < n { GroupLogPrefix(width, o, m, n - 1); }
  }

  lemma {:induction false} GroupsLogPrefix(width: nat, a: nat, b: nat)
    requires a <= b
    ensures GroupsLog(width, a) <= GroupsLog(width, b)
    decreases b
  {
    if a < b { GroupsLogPrefix(width, a, b - 1); }
  }

  lemma {:induction false} TailLogPrefix(from: nat, a: nat, b: nat)
    requires from <= a <= b
    ensures TailLog(from, a) <= TailLog(from, b)
    decreases b
  {
    if a < b { TailLogPrefix(from, a, b - 1); }
  }

  // How far the schedule has been claimed.
  lemma ClaimedGroups(c: Config, s: State)
    requires Core(c, s)
    ensures GoodPlan(c.plan) && s.queue.nextOrdinal <= Groups(c.plan) && s.stream.global <= c.plan.total
    ensures s.queue.preparing.None? && !HasGroup(c.plan, s.queue.nextOrdinal) ==> s.queue.nextOrdinal == Groups(c.plan)
    ensures 0 <= Played(s.queue) <= s.queue.nextOrdinal
  {
    hide Good, WhiteOutside, InsideMap, StreamOk, WorkOk, PrepOk, SlotsOk, ShapedWork, ShapedScreen, GroupLog, GroupsLog, TailLog,
      ScreenOk, Cut, Displayed, HasGroup;
    var n := s.queue.nextOrdinal;
    GroupsUnique(c.plan, n);
    if n > 0 { GroupsUnique(c.plan, n - 1); }
  }

  lemma LogPrefix(c: Config, s: State)
    requires Core(c, s)
    ensures GoodPlan(c.plan) && s.log <= FullLog(c.plan)
  {
    hide Good, WhiteOutside, InsideMap, StreamOk, WorkOk, PrepOk, SlotsOk, ShapedWork, ShapedScreen, GroupLog, GroupsLog, TailLog,
      ScreenOk, Cut, HasGroup, QueueOk, Groups;
    ClaimedGroups(c, s);
    var w, g := c.plan.width, Groups(c.plan);
    NoGroups(w);
    GroupsLogPrefix(w, 0, g);
    if s.playback.group.Some? {
      var p := Played(s.queue);
      GroupLogPrefix(w, p, s.playback.symbol + 1, w + 1);
      GroupsNext(w, p);
      GroupsLogPrefix(w, p, g);
    } else if s.reserved.Some? {
      TailLogPrefix(Cut(c.plan, g), s.stream.global, c.plan.total);
    }
  }

  // At the end nothing of the schedule is missing.
  lemma LogComplete(c: Config, s: State)
    requires Over(c, s)
    ensures GoodPlan(c.plan) && s.log == FullLog(c.plan)
  {
    hide Core, GroupsLog, TailLog, Cut, HasGroup, Groups;
    ClaimedGroups(c, s);
    LogDrained(c, s);
  }

  // ----- the start

  lemma InitialOk(c: Config)
    requires GoodConfig(c)
    ensures Core(c, Initial()) && !Initial().tailPending
  {
    hide Good, WhiteOutside, InsideMap, HasGroup, QueueOk, StreamOk, WorkOk, SlotsOk, ScreenOk, PrepOk, ShapedStream, ShapedWork, ShapedScreen;
    InitialShape(c);
    InitialQueue();
    InitialWork(c);
    InitialStream(c);
    InitialScreen(c);
    BlankSlots(c);
    BlankStates();
  }

  lemma BlankStates()
    ensures var s := Initial();
            |s.queue.slots| == SLOTS && (forall i :: 0 <= i < SLOTS ==> s.queue.slots[i].state == Free) &&
            Played(s.queue) == 0
  {}

  lemma InitialQueue()
    ensures QueueOk(Initial().queue, None)
  {
    var q := Initial().queue;
    CountNone(q.slots, Ready, SLOTS);
  }

  lemma InitialWork(c: Config)
    requires GoodConfig(c)
    ensures WorkOk(c, Initial().work)
  {
    hide Good, WhiteOutside, InsideMap;
  }

  lemma InitialStream(c: Config)
    requires GoodConfig(c)
    ensures StreamOk(c, Initial().stream)
  {
    hide Good, WhiteOutside, InsideMap;
  }

  lemma InitialScreen(c: Config)
    requires GoodConfig(c)
    ensures ScreenOk(c, Initial().screen, [])
  {
    hide Good, WhiteOutside, InsideMap, Compose;
  }

  lemma BlankSlots(c: Config)
    ensures SlotsOk(c, Initial().queue.slots, Initial().screen.planes)
  {
    hide BasisHeld, GroupHeld, Inside;
  }

  // ----- runs

  datatype Mode = Broken | Prefilling(state: State) | Looping(state: State) | Ended(state: State)

  ghost function Advance(c: Config, m: Mode, due: bool): (r: Mode)
    requires GoodConfig(c) && (!m.Broken? ==> Shaped(c, m.state))
    ensures !r.Broken? ==> Shaped(c, r.state)
  {
    hide GoodConfig, Shaped, Iterate, PrefillStep;
    match m
    case Broken => Broken
    case Ended(s) => Ended(s)
    case Prefilling(s) =>
      (match PrefillStep(c, s)
       case PrefillAborted => Broken
       case PrefillMore(t) => Prefilling(t)
       case PrefillDone(t) => Looping(t))
    case Looping(s) =>
      (match Iterate(c, s, due)
       case Aborted => Broken
       case Running(t) => Looping(t)
       case Finished(t) => Ended(t))
  }

  // The run under a clock: one entry per producer step while prefilling, then
  // one per iteration of the main loop.
  ghost function Run(c: Config, clock: seq<bool>): (r: Mode)
    requires GoodConfig(c)
    ensures !r.Broken? ==> Shaped(c, r.state)
  {
    if clock == [] then InitialShape(c); Prefilling(Initial())
    else Advance(c, Run(c, clock[..|clock| - 1]), clock[|clock| - 1])
  }

  ghost predicate ModeOk(c: Config, m: Mode) {
    match m
    case Broken => false
    case Prefilling(s) => LoopOk(c, s) && !s.tailPending
    case Looping(s) => LoopOk(c, s)
    case Ended(s) => Over(c, s)
  }

  // ----- progress over runs

  lemma MeasureBound(c: Config, s: State)
    requires Core(c, s)
    ensures GoodPlan(c.plan) && Measure(c, s) >= 0
  {
    hide Core, FullLog, Groups, HasGroup, Cut;
    ClaimedGroups(c, s);
    LogPrefix(c, s);
    CoreParts(c, s);
    if s.queue.preparing.Some? {
      LeftBound(c, s.stream.global, s.queue.slots[s.queue.preparing.value], s.work);
    }
  }

  function Due(clock: seq<bool>): (n: nat) {
    if clock == [] then 0 else Due(clock[..|clock| - 1]) + if clock[|clock| - 1] then 1 else 0
  }

  function ModeMeasure(c: Config, m: Mode): int
    requires GoodPlan(c.plan) && !m.Broken?
  {
    Measure(c, m.state) + Bit(m.Prefilling?)
  }

  // Symbols, producer steps and a constant: what a whole transfer takes.
  function Total(p: Plan): int
    requires GoodPlan(p)
  {
    4 * |FullLog(p)| + GROUP_COST * Groups(p) + 2
  }

  lemma AdvanceLess(c: Config, m: Mode, due: bool)
    requires GoodConfig(c) && ModeOk(c, m)
    ensures GoodPlan(c.plan) && !m.Broken? && Shaped(c, m.state) && ModeOk(c, Advance(c, m, due))
    ensures var r := Advance(c, m, due);
            !r.Broken? && (!r.Ended? ==> ModeMeasure(c, r) + Bit(due) <= ModeMeasure(c, m))
  {
    hide GoodConfig, Shaped, Core, TailOk, Iterate, PrefillStep, Drained, Measure;
    CoreParts(c, m.state);
    PlanOk(c);
    match m
    case Prefilling(s) => var r := PrefillLess(c, s);
    case Looping(s) => var r := IterateLess(c, s, due);
    case Ended(s) =>
  }

  lemma {:induction false} RunLess(c: Config, clock: seq<bool>)
    requires GoodConfig(c)
    ensures GoodPlan(c.plan) && ModeOk(c, Run(c, clock)) && !Run(c, clock).Broken?
    ensures !Run(c, clock).Ended? ==> ModeMeasure(c, Run(c, clock)) + Due(clock) <= ModeMeasure(c, Run(c, []))
  {
    hide GoodConfig, Shaped, Core, Advance, Drained, Measure, Over;
    PlanOk(c);
    if clock == [] {
      InitialOk(c);
    } else {
      var rest := clock[..|clock| - 1];
      RunLess(c, rest);
      AdvanceLess(c, Run(c, rest), clock[|clock| - 1]);
      if Run(c, rest).Ended? {
        EndedStays(c, Run(c, rest), clock[|clock| - 1]);
      }
    }
  }

  lemma EndedStays(c: Config, m: Mode, due: bool)
    requires GoodConfig(c) && m.Ended? && Shaped(c, m.state)
    ensures Advance(c, m, due) == m
  {}

  lemma StartMeasure(c: Config)
    requires GoodConfig(c)
    ensures GoodPlan(c.plan) && ModeMeasure(c, Run(c, [])) == Total(c.plan)
  {
    hide FullLog, Groups, Good, WhiteOutside, InsideMap;
  }

  // What the receiver's camera can rely on, at every moment of every run.
  ghost predicate Safe(c: Config, s: State) {
    && GoodPlan(c.plan) && ShapedScreen(s.screen)
    && s.screen.integrity
    && s.log <= FullLog(c.plan)
    && (s.log != [] ==> Pictured(c, s.screen.planes[s.screen.slot], s.screen.mask, s.log[|s.log| - 1]))
  }

  // Under every clock: no step fails, no write ever changes a shown symbol,
  // the symbols are selected in schedule order without loss, each showing the
  // picture of its frame, and a run that ends has shown the whole schedule.
  lemma EveryRunIsSafe(c: Config, clock: seq<bool>)
    requires GoodConfig(c)
    ensures !Run(c, clock).Broken? && Safe(c, Run(c, clock).state)
    ensures Run(c, clock).Ended? ==> Run(c, clock).state.log == FullLog(c.plan)
  {
    hide GoodConfig, Core, Run, FullLog, GroupsLog, Cut, Drained;
    RunLess(c, clock);
    var s := Run(c, clock).state;
    LogPrefix(c, s);
    CoreScreen(c, s);
    if Run(c, clock).Ended? {
      LogComplete(c, s);
    }
  }

  lemma CoreScreen(c: Config, s: State)
    requires Core(c, s)
    ensures ScreenOk(c, s.screen, s.log)
  {}

  // Once as many deadlines have fallen due as the transfer has work, the run is
  // over: the whole schedule was shown, each symbol with its own picture.
  lemma EveryRunEnds(c: Config, clock: seq<bool>)
    requires GoodConfig(c)
    ensures GoodPlan(c.plan)
    ensures Due(clock) > Total(c.plan) ==> Run(c, clock).Ended? && Run(c, clock).state.log == FullLog(c.plan)
  {
    hide GoodConfig, Shaped, Core, Run, Measure, FullLog, Groups, Total, Due, Over;
    PlanOk(c);
    RunLess(c, clock);
    StartMeasure(c);
    EveryRunIsSafe(c, clock);
    if !Run(c, clock).Ended? {
      ModeCore(c, Run(c, clock));
      MeasureBound(c, Run(c, clock).state);
    }
  }

  lemma ModeCore(c: Config, m: Mode)
    requires ModeOk(c, m) && !m.Ended?
    ensures Core(c, m.state)
  {}

  // ----- nothing is left out of the schedule

  lemma {:induction false} BasisListed(width: nat, o: nat, m: nat, groups: nat)
    requires m < width && 1 <= o <= groups
    ensures Basis(o, m) in GroupsLog(width, groups)
    decreases groups
  {
    if o < groups {
      BasisListed(width, o, m, groups - 1);
    } else {
      SymbolListed(width, o, m, width + 1);
    }
  }

  lemma {:induction false} SymbolListed(width: nat, o: nat, m: nat, n: nat)
    requires m < n
    ensures Symbol(width, o, m) in GroupLog(width, o, n)
    decreases n
  {
    if m < n - 1 { SymbolListed(width, o, m, n - 1); }
  }

  lemma {:induction false} TailListed(from: nat, end: nat, i: nat)
    requires from <= i < end
    ensures Tail(i) in TailLog(from, end)
    decreases end
  {
    if i < end - 1 { TailListed(from, end - 1, i); }
  }

  predicate ShownAs(p: Plan, i: nat, k: nat, m: nat) {
    hide Place, WindowCount, WindowOf, Cut, ClaimRange;
    GoodPlan(p) && HasGroup(p, k) && m < p.width && Start(p, k) + m == i && Basis(k + 1, m) in FullLog(p)
  }

  // Every record of the transfer is shown, as a basis symbol of some group or
  // as a tail of its own.
  lemma EveryRecordShown(p: Plan, i: nat)
    requires GoodPlan(p) && i < p.total
    ensures Tail(i) in FullLog(p) || exists k: nat, m: nat :: ShownAs(p, i, k, m)
  {
    hide Place, WindowCount, WindowOf, Fits, ClaimRange;
    var g := Groups(p);
    if i < Cut(p, g) {
      Schedule.Covered(p, i, g);
      var k :| 0 <= k < g && HasGroup(p, k) && Start(p, k) <= i < Start(p, k) + p.width;
      BasisListed(p.width, k + 1, i - Start(p, k), g);
      assert ShownAs(p, i, k, i - Start(p, k));
    } else {
      TailListed(Cut(p, g), p.total, i);
    }
  }

  // Configurations as above exist: a table and a map of zeros, a white template.
  lemma SomeConfig()
    ensures exists c: Config :: GoodConfig(c)
  {
    var table := seq(256, _ => Zeros(ECC));
    var map32 := seq(8 * CODEWORDS, _ => Entry(288, 1));
    var records := seq(4, _ => Zeros(PAYLOAD));
    var c := Config(Plan(3, 4, 4), 1, records, Printer(table, map32, White()), true);
    XorSelf(Zeros(ECC));
    assert LinearTable(table);
    assert GoodConfig(c);
  }
}
