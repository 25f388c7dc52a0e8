// Every run of the sender.  The invariant of the main loop, and what it gives:
// no step ever fails, nothing changes under a selection, and the selections are
// exactly the scheduled symbols in order.

module SenderRuns {
  import opened Gf2
  import opened Raster
  import opened Correction
  import opened Repair
  import opened Vga
  import opened PlaneParity
  import opened Schedule
  import opened Sender
  import opened SenderQueue
  import opened SenderGroups
  import opened SenderWork
  import opened SenderScreen

  // ----- the reference schedule

  // The first m symbols of the group with ordinal o.
  function GroupLog(width: nat, o: nat, m: nat): (r: seq<Shown>)
    ensures |r| == m
  {
    if m == 0 then [] else GroupLog(width, o, m - 1) + [Symbol(width, o, m - 1)]
  }

  // All symbols of groups 1..o: the basis planes of each, then its parity.
  function GroupsLog(width: nat, o: nat): seq<Shown> {
    if o == 0 then [] else GroupsLog(width, o - 1) + GroupLog(width, o, width + 1)
  }

  function TailLog(from: nat, end: nat): (r: seq<Shown>)
    requires from <= end
  {
    if from == end then [] else TailLog(from, end - 1) + [Tail(end - 1)]
  }

  // The reference schedule of a transfer: all groups, then the tails.
  function FullLog(p: Plan): seq<Shown>
    requires GoodPlan(p)
  {
    GroupsLog(p.width, Groups(p)) + TailLog(Cut(p, Groups(p)), p.total)
  }

  // ----- the invariant

  // How far the producer is in the schedule.
  ghost predicate Produced(c: Config, s: State) {
    && GoodPlan(c.plan) && Shaped(c, s)
    && (s.queue.nextOrdinal > 0 ==> HasGroup(c.plan, s.queue.nextOrdinal - 1))
    && if s.queue.preparing.Some? then
         PrepOk(c, s.stream.global, s.queue.slots[s.queue.preparing.value], s.work) && s.reserved.None?
       else if s.reserved.None? then s.stream.global == Cut(c.plan, s.queue.nextOrdinal)
       else !HasGroup(c.plan, s.queue.nextOrdinal) && Cut(c.plan, s.queue.nextOrdinal) < s.stream.global
  }

  // What is on screen, and that it is the last entry of the schedule so far.
  ghost predicate Displayed(c: Config, s: State) {
    && GoodPlan(c.plan) && Shaped(c, s)
    && match s.playback.group
       case Some(g) =>
         && s.reserved.None? && s.screen.slot == g && Played(s.queue) >= 1
         && s.playback.symbol <= c.plan.width && s.screen.mask == MaskOf(c.plan.width, s.playback.symbol)
         && (s.queue.slots[g].applied <==> s.playback.symbol >= 1)
         && s.log == GroupsLog(c.plan.width, Played(s.queue) - 1) + GroupLog(c.plan.width, Played(s.queue), s.playback.symbol + 1)
         && (!s.playback.active ==> s.playback.symbol == c.plan.width && Drained(c, s))
       case None =>
         && !s.playback.active
         && if s.reserved.None? then s.log == [] && Played(s.queue) == 0
            else Drained(c, s) && s.reserved == Some(s.screen.slot) && s.screen.mask == [true, true, true, true]
                 && Cut(c.plan, s.queue.nextOrdinal) < s.stream.global
                 && s.log == GroupsLog(c.plan.width, s.queue.nextOrdinal) + TailLog(Cut(c.plan, s.queue.nextOrdinal), s.stream.global)
  }

  // All groups of the schedule have been produced and taken for display.
  ghost predicate Drained(c: Config, s: State) {
    GoodPlan(c.plan) && s.queue.preparing.None? && s.queue.ready == 0 && !HasGroup(c.plan, s.queue.nextOrdinal)
  }

  ghost predicate ZeroKnown(s: State) {
    (exists i :: 0 <= i < |s.queue.slots| && (s.queue.slots[i].state == Ready || s.queue.slots[i].state == Playing)) ==>
      s.work.zeroReady
  }

  ghost predicate Core(c: Config, s: State) {
    && GoodConfig(c) && Shaped(c, s)
    && StreamOk(c, s.stream) && WorkOk(c, s.work)
    && QueueOk(s.queue, s.playback.group)
    && SlotsOk(c, s.queue.slots, s.screen.planes)
    && ScreenOk(c, s.screen, s.log)
    && ZeroKnown(s) && Produced(c, s) && Displayed(c, s)
  }

  // A refused claim is remembered only while it stays refused.
  ghost predicate TailOk(c: Config, s: State) {
    && GoodPlan(c.plan)
    && (s.tailPending ==> s.queue.preparing.None? && (!HasGroup(c.plan, s.queue.nextOrdinal) || s.queue.ready >= 7))
  }

  // ----- the producer

  // The state parts a producer step leaves alone.
  predicate SameShow(a: State, b: State) {
    a.playback == b.playback && a.reserved == b.reserved && a.log == b.log && a.tailPending == b.tailPending
  }

  lemma ClaimKeeps(c: Config, s: State)
    requires Core(c, s) && s.queue.preparing.None? && s.queue.ready < SLOTS && s.stream.global < c.plan.total
    requires Claim(c, s.stream, s.queue, s.reserved).Some?
    ensures Core(c, s.(queue := Claim(c, s.stream, s.queue, s.reserved).value, work := Claimant(s.work)))
    ensures HasGroup(c.plan, s.queue.nextOrdinal)
  {
    hide Good, WhiteOutside, InsideMap, StreamOk, WorkOk, ScreenOk, SlotIs, SlotOk, PrepOk, Cut, Claim, GroupsLog, GroupLog, TailLog,
      ShapedStream, ShapedScreen, ShapedWork, WindowCount, Place, ClaimRange, Fits;
    ClaimOpens(c, s);
    var q := Claim(c, s.stream, s.queue, None).value;
    var i := q.preparing.value;
    var t := s.(queue := q, work := Claimant(s.work));
    ClaimKeepsQueue(s.queue, s.playback.group, i, q.slots[i]);
    ClaimStartsPrep(c, q.slots[i], s.work);
    FillingSlot(c, s.queue.slots[i], q.slots[i], s.screen.planes[i]);
    SlotChanged(c, s.queue.slots, s.screen.planes, i, q.slots[i], s.screen.planes[i]);
    assert s.screen.planes[i := s.screen.planes[i]] == s.screen.planes;
    ClaimantZero(s.work);
  }

  lemma ClaimantZero(w: Work)
    requires ShapedWork(w)
    ensures Claimant(w).zeroReady == w.zeroReady
  {}

  // The claim opens the next group; after the first tail there is none.
  lemma ClaimOpens(c: Config, s: State)
    requires Core(c, s) && s.queue.preparing.None? && s.queue.ready < SLOTS && s.stream.global < c.plan.total
    requires Claim(c, s.stream, s.queue, s.reserved).Some?
    ensures s.reserved.None? && HasGroup(c.plan, s.queue.nextOrdinal) && s.stream.global == Cut(c.plan, s.queue.nextOrdinal)
    ensures var t := Claim(c, s.stream, s.queue, None).value;
            var i := t.preparing.value;
            && t == Queue(s.queue.slots[i := t.slots[i]], i, Some(i), s.queue.ready, s.queue.nextOrdinal + 1)
            && s.queue.slots[i].state == Free && SlotIs(c, t.slots[i], s.queue.nextOrdinal)
            && t.slots[i].state == Filling && t.slots[i].ordinal == s.queue.nextOrdinal + 1 && t.slots[i].stage == 0
            && !t.slots[i].applied && t.slots[i].patches == []
  {
    hide Good, WhiteOutside, InsideMap, StreamOk, WorkOk, ScreenOk, SlotIs, SlotsOk, QueueOk, PrepOk, Cut, Claim, GroupsLog, GroupLog, TailLog,
      ShapedScreen, ShapedWork, WindowCount, Place, ClaimRange, Fits, ZeroKnown;
    if s.reserved.Some? {
      RefusedIsFinal(c.plan, Cut(c.plan, s.queue.nextOrdinal), s.stream.global);
      ClaimRefused(c, s.stream, s.queue, s.reserved);
    } else {
      ClaimExact(c, s.stream, s.queue, s.queue.nextOrdinal);
    }
  }

  lemma FillingSlot(c: Config, before: Slot, g: Slot, planes: seq<Bytes>)
    requires SlotOk(c, before, planes) && before.state == Free
    requires g.state == Filling && g.stage == 0 && !g.applied && g.ordinal >= 1 && SlotIs(c, g, g.ordinal - 1) && GoodConfig(c)
    ensures SlotOk(c, g, planes)
  {
    hide WhiteOutside, MemberImage, Good, InsideMap, Cut;
  }

  // Encoding and rendering touch the working memory only.
  lemma WorkStep(c: Config, s: State, st: Stream, w: Work)
    requires Core(c, s) && s.queue.preparing.Some? && StreamOk(c, st) && WorkOk(c, w) && w.zeroReady == s.work.zeroReady
    requires s.queue.preparing.value < |s.queue.slots| && PrepOk(c, st.global, s.queue.slots[s.queue.preparing.value], w)
    ensures Core(c, s.(stream := st, work := w))
  {
    hide Good, WhiteOutside, InsideMap, ScreenOk, SlotOk, PrepOk, QueueOk, StreamOk, WorkOk, Cut, GroupsLog, GroupLog, TailLog,
      ShapedStream, ShapedScreen, ShapedWork;
  }

  // One step inside a basis plane, up to the upload.
  lemma BasisKeeps(c: Config, s: State, i: nat) returns (t: State)
    requires Core(c, s) && s.queue.preparing == Some(i) && i < |s.queue.slots|
    requires s.queue.slots[i].stage < c.plan.width && s.work.phase != Store
    ensures Core(c, t) && SameShow(s, t) && t.queue == s.queue && BasisStepIs(c, s, i, t)
  {
    hide Good, WhiteOutside, InsideMap, ScreenOk, SlotsOk, PrepOk, QueueOk, StreamOk, WorkOk, Core, ShapedStream, ShapedScreen, ShapedWork,
      BeginBasis, EncodeWork, DeltaWork, MatrixWork, PhaseOk;
    var g := s.queue.slots[i];
    CoreParts(c, s);
    if s.work.phase == Begin {
      var b := BeginKeeps(c, s.stream, g, s.work);
      WorkStep(c, s, b.stream, b.work);
      t := s.(stream := b.stream, work := b.work);
    } else {
      PrepParts(c, s.stream.global, g, s.work);
      var w;
      if s.work.phase == Encode {
        w := EncodeWork(c, s.work);
        EncodeKeeps(c, g.ordinal - 1, g.stage, s.work);
      } else if s.work.phase == Delta {
        w := DeltaWork(c, s.work);
        DeltaKeeps(c, g.ordinal - 1, g.stage, s.work);
      } else {
        w := MatrixWork(c, s.work);
        MatrixKeeps(c, g.ordinal - 1, g.stage, s.work);
      }
      PhaseKeeps(c, s.stream.global, g, s.work, w);
      WorkStep(c, s, s.stream, w);
      t := s.(work := w);
    }
  }

  ghost predicate BasisStepIs(c: Config, s: State, i: nat, t: State) {
    hide Good, WhiteOutside, InsideMap, BasisStep, ShapedStream, ShapedScreen, ShapedWork;
    GoodConfig(c) && Shaped(c, s) && i < SLOTS && s.queue.slots[i].stage < c.plan.width && BasisStep(c, s, i) == Some(t)
  }

  lemma CoreParts(c: Config, s: State)
    requires Core(c, s)
    ensures GoodConfig(c) && Shaped(c, s) && StreamOk(c, s.stream) && WorkOk(c, s.work) && QueueOk(s.queue, s.playback.group)
    ensures s.queue.preparing.Some? ==>
              s.queue.preparing.value < |s.queue.slots| &&
              var g := s.queue.slots[s.queue.preparing.value];
              PrepOk(c, s.stream.global, g, s.work) && g.state == Filling && g.ordinal == s.queue.nextOrdinal
  {
    hide Good, WhiteOutside, InsideMap, ScreenOk, SlotOk, PrepOk, StreamOk, WorkOk, Cut, GroupsLog, GroupLog, TailLog,
      ShapedStream, ShapedScreen, ShapedWork;
  }

  lemma PrepParts(c: Config, global: nat, g: Slot, w: Work)
    requires PrepOk(c, global, g, w)
    ensures g.ordinal >= 1 && SlotIs(c, g, g.ordinal - 1) && g.stage <= c.plan.width
    ensures w.phase != Begin ==> g.stage < c.plan.width && PhaseOk(c, g.ordinal - 1, g.stage, w)
    ensures MembersOk(c, g.ordinal - 1, Fetched(c.plan.width, g, w), w)
  {}

  // The slot in preparation is not on screen, or nothing is.
  lemma PreparingHidden(c: Config, s: State)
    requires Core(c, s) && s.queue.preparing.Some?
    ensures s.queue.preparing.value != s.screen.slot || s.screen.mask == DARK
  {
    hide Good, WhiteOutside, InsideMap, SlotOk, PrepOk, StreamOk, WorkOk, Cut, GroupsLog, GroupLog, TailLog, ImageOf, Compose,
      ShapedStream, ShapedScreen, ShapedWork;
  }

  lemma Darkness(p: nat)
    requires p < PLANES
    ensures |DARK| == PLANES && !DARK[p]
  {}

  function StoredState(s: State, i: nat): (t: State)
    requires ShapedQueue(s.queue) && ShapedScreen(s.screen) && i < SLOTS && s.queue.slots[i].stage < PLANES && |s.work.raster| == RASTER
  {
    var g := s.queue.slots[i];
    s.(screen := Written(s.screen, i, g.stage, s.work.raster), work := s.work.(phase := Begin),
       queue := s.queue.(slots := s.queue.slots[i := g.(stage := g.stage + 1)]))
  }

  // A partial upload leaves the whole plane equal to the working raster, which
  // is the picture of the basis frame.
  ghost predicate UploadWhole(c: Config, g: Slot, planes: seq<Bytes>, raster: Bytes) {
    hide Upload, MemberImage, SlotOk;
    && ShapedPlanes(planes) && |raster| == RASTER && g.stage < PLANES && g.ordinal >= 1
    && raster == MemberImage(c, g.ordinal - 1, g.stage)
    && (c.partialVga ==> Upload(QR, planes[g.stage], raster) == raster)
    && SlotOk(c, g.(stage := g.stage + 1), planes[g.stage := raster])
  }

  lemma UploadIsWhole(c: Config, global: nat, g: Slot, planes: seq<Bytes>, w: Work)
    requires WorkOk(c, w) && PrepOk(c, global, g, w) && SlotOk(c, g, planes) && g.state == Filling && w.phase == Store
    ensures UploadWhole(c, g, planes, w.raster)
  {
    hide Good, WhiteOutside, InsideMap, SlotOk, PrepOk, WorkOk, Cut, PhaseOk, MemberImage, Upload, ShapedWork, GroupOf, BasisImage;
    PrepParts(c, global, g, w);
    StoredRaster(c, g.ordinal - 1, g.stage, w);
    PhaseGroup(c, g.ordinal - 1, g.stage, w);
    MemberImageIs(c, g.ordinal - 1, g.stage);
    StoreKeepsSlot(c, g, planes, w.raster);
  }

  lemma CoreSlot(c: Config, s: State, i: nat)
    requires Core(c, s) && i < SLOTS
    ensures i < |s.queue.slots| && i < |s.screen.planes| && SlotOk(c, s.queue.slots[i], s.screen.planes[i])
  {
    hide SlotOk, Good, WhiteOutside, InsideMap, StreamOk, WorkOk, QueueOk, ScreenOk, Produced, Displayed, ZeroKnown;
  }

  lemma PhaseGroup(c: Config, k: nat, p: nat, w: Work)
    requires PhaseOk(c, k, p, w)
    ensures GoodConfig(c) && HasGroup(c.plan, k) && p < c.plan.width && |w.raster| == RASTER
  {}

  // Uploading a basis plane.
  lemma StoreKeepsCore(c: Config, s: State, i: nat)
    requires Core(c, s) && s.queue.preparing == Some(i) && i < |s.queue.slots|
    requires s.queue.slots[i].stage < c.plan.width && s.work.phase == Store
    ensures Shaped(c, s) && Core(c, StoredState(s, i))
  {
    hide Good, WhiteOutside, InsideMap, SlotOk, PrepOk, StreamOk, WorkOk, Cut, GroupsLog, GroupLog, TailLog, ImageOf, Compose,
      ShapedStream, ShapedWork, ShapedScreen, QueueOk, PhaseOk, MemberImage, ShapedPlanes, ScreenOk, Upload;
    CoreParts(c, s);
    var g := s.queue.slots[i];
    StoreKeeps(c, s.stream.global, g, s.work);
    UploadIsWhole(c, s.stream.global, g, s.screen.planes[i], s.work);
    PreparingHidden(c, s);
    Darkness(g.stage);
    HiddenWrite(c, s.screen, s.log, i, g.stage, s.work.raster);
    var t := StoredState(s, i);
    QueueFrame(s.queue, t.queue, s.playback.group);
    SlotChanged(c, s.queue.slots, s.screen.planes, i, t.queue.slots[i], t.screen.planes[i]);
  }

  lemma StoreIs(c: Config, s: State, i: nat)
    requires Core(c, s) && s.queue.preparing == Some(i) && i < |s.queue.slots|
    requires s.queue.slots[i].stage < c.plan.width && s.work.phase == Store
    ensures Shaped(c, s) && BasisStepIs(c, s, i, StoredState(s, i))
  {
    hide Good, WhiteOutside, InsideMap, Core, ShapedStream, ShapedWork, Upload, Written, SlotOk, MemberImage, ShapedPlanes;
    CoreParts(c, s);
    var g := s.queue.slots[i];
    CoreSlot(c, s, i);
    UploadIsWhole(c, s.stream.global, g, s.screen.planes[i], s.work);
  }

  predicate SameProgress(a: Queue, b: Queue) {
    a.preparing == b.preparing && a.ready == b.ready && a.nextOrdinal == b.nextOrdinal
  }

  lemma MemberImageIs(c: Config, k: nat, p: nat)
    requires GoodConfig(c) && HasGroup(c.plan, k) && p < c.plan.width
    ensures MemberImage(c, k, p) == BasisImage(c.printer, GroupOf(c, k), p)
  {}

  // Completing a group.
  lemma ReadyPatches(c: Config, s: State, i: nat) returns (patches: seq<Patch>)
    requires Core(c, s) && s.queue.preparing == Some(i) && i < |s.queue.slots|
    requires s.queue.slots[i].stage == c.plan.width
    ensures PatchesFound(c, s.queue.slots[i], s.work, patches) && PatchesOk(c, s.queue.slots[i].ordinal - 1, patches)
  {
    hide Good, WhiteOutside, InsideMap, StreamOk, WorkOk, Core, Cut, QueueOk, PrepOk, MembersOk, SlotIs, ShapedScreen, ShapedStream, ShapedWork,
      SlotPatches, PatchesOk, GroupPatches;
    CoreParts(c, s);
    var g := s.queue.slots[i];
    PrepParts(c, s.stream.global, g, s.work);
    PrepComplete(c, s.stream.global, g, s.work);
    PatchesReady(c, g, s.work);
    patches := SlotPatches(c, g, s.work).value;
    SlotHasGroup(c, g, g.ordinal - 1);
    PatchesOkIs(c, g.ordinal - 1, patches);
  }

  ghost predicate PatchesFound(c: Config, g: Slot, w: Work, patches: seq<Patch>) {
    hide Good, WhiteOutside, InsideMap, SlotPatches, ShapedWork;
    GoodConfig(c) && ShapedWork(w) && SlotPatches(c, g, w) == Some(patches)
  }

  lemma ReadyIs(c: Config, s: State, i: nat, patches: seq<Patch>)
    requires GoodConfig(c) && Shaped(c, s) && i < SLOTS && PatchesFound(c, s.queue.slots[i], s.work, patches)
    ensures ShapedPatches(patches) && ReadyStepIs(c, s, i, Finish(c, s, i, CorrectionWork(c, s.work), patches))
  {
    hide Good, WhiteOutside, InsideMap, ShapedScreen, ShapedStream, ShapedWork, ShapedQueue, CorrectionWork, SlotPatches, Finish;
  }

  lemma ReadyKeepsCore(c: Config, s: State, i: nat, w: Work, patches: seq<Patch>)
    requires Core(c, s) && s.queue.preparing == Some(i) && i < |s.queue.slots|
    requires s.queue.slots[i].stage == c.plan.width
    requires ShapedWork(w) && ShapedPatches(patches) && WorkOk(c, w.(phase := Begin)) && w.zeroReady
    requires PatchesOk(c, s.queue.slots[i].ordinal - 1, patches)
    ensures Shaped(c, s) && Core(c, Finish(c, s, i, w, patches))
  {
    hide Good, WhiteOutside, InsideMap, SlotOk, PrepOk, StreamOk, WorkOk, GroupsLog, GroupLog, TailLog, ImageOf, Compose, Cut,
      ShapedStream, ShapedWork, QueueOk, PhaseOk, MembersOk, SlotIs, ShapedPlanes, ScreenOk, ShapedScreen, PatchesOk;
    CoreParts(c, s);
    var g := s.queue.slots[i];
    PrepComplete(c, s.stream.global, g, s.work);
    ReadyKeepsSlot(c, g, s.screen.planes[i], patches);
    var t := Finish(c, s, i, w, patches);
    ReadyKeepsQueue(s.queue, s.playback.group, t.queue);
    SlotChanged(c, s.queue.slots, s.screen.planes, i, t.queue.slots[i], s.screen.planes[i]);
    assert s.screen.planes[i := s.screen.planes[i]] == s.screen.planes;
  }

  ghost predicate ReadyStepIs(c: Config, s: State, i: nat, t: State) {
    hide Good, WhiteOutside, InsideMap, ReadyStep, ShapedStream, ShapedScreen, ShapedWork;
    GoodConfig(c) && Shaped(c, s) && i < SLOTS && ReadyStep(c, s, i) == Some(t)
  }

  lemma PatchesOkIs(c: Config, k: nat, patches: seq<Patch>)
    requires GoodConfig(c) && HasGroup(c.plan, k) && patches == GroupPatches(c.printer, GroupOf(c, k))
    ensures PatchesOk(c, k, patches)
  {
    hide Good, GroupPatches, Cut;
  }

  // A complete group has consumed the schedule up to the next cut.
  lemma PrepComplete(c: Config, global: nat, g: Slot, w: Work)
    requires PrepOk(c, global, g, w) && g.stage == c.plan.width
    ensures w.phase == Begin && global == Cut(c.plan, g.ordinal) && MembersOk(c, g.ordinal - 1, c.plan.width, w)
  {
    hide Good, WhiteOutside, InsideMap, MembersOk, PhaseOk;
    SlotRange(c, g, g.ordinal - 1);
  }
}
