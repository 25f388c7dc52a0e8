// main.c of dos_sender32: the cooperative PLANE producer and playback machine.
// One step of the producer, one playback tick and one tail frame as functions
// on the whole state, and one iteration of the main loop that interleaves them.
// Clocks are an arbitrary boolean per iteration: whether the deadline is due.

module Sender {
  import opened Gf2
  import opened Protocol
  import opened Whitening
  import opened V40L
  import opened Raster
  import opened Correction
  import opened Repair
  import opened Vga
  import opened PlaneParity
  import opened Schedule

  const ENCODE_BLOCKS: nat := 5
  const DELTA_CHUNK: nat := 512
  const QR: Rect := Rect(67, 7, 185)
  const DARK: seq<bool> := [false, false, false, false]

  function White(): (r: Bytes)
    ensures |r| == RASTER
  {
    seq(RASTER, _ => 0xFF)
  }

  // The constants of one run: options, the record stream the file produces,
  // and the symbol printer.
  datatype Config = Config(plan: Plan, session: U32, records: seq<Bytes>, printer: Printer, partialVga: bool)

  ghost predicate GoodConfig(c: Config) {
    && GoodPlan(c.plan) && |c.records| == c.plan.total
    && (forall i :: 0 <= i < |c.records| ==> |c.records[i]| == PAYLOAD)
    && Good(c.printer)
    && WhiteOutside(QR, c.printer.template)
    && InsideMap(c.printer.map32)
  }

  predicate InsideMap(m: seq<Entry>) {
    forall i :: 0 <= i < |m| ==> Inside(QR, m[i].offset)
  }

  // ----- state

  datatype Stream = Stream(global: nat, history: seq<Bytes>, historyGlobal: seq<nat>, head: nat, count: nat)

  datatype SlotState = Free | Filling | Ready | Playing

  datatype Slot = Slot(state: SlotState, ordinal: nat, window: U32, start: U32, windowIndex: U16, windowCount: U16,
                       overlap: nat, stage: nat, applied: bool, patches: seq<Patch>)

  datatype Queue = Queue(slots: seq<Slot>, tail: nat, preparing: Option<nat>, ready: int, nextOrdinal: nat)

  datatype Phase = Begin | Encode | Delta | Matrix | Store

  datatype Work = Work(record: Bytes, parity: Bytes, headers: seq<Bytes>, keyIndex: Option<nat>, key: Bytes,
                       input: Bytes, block: nat, codewords: Bytes, previous: Bytes, raster: Bytes, rasterReady: bool,
                       phase: Phase, position: nat, zeroReady: bool, zeroRaster: Bytes)

  datatype Playback = Playback(group: Option<nat>, symbol: nat, active: bool)

  // Video memory as the host oracle keeps it: the selected slot and mask, the
  // raster composed at that selection, and whether any write since a selection
  // changed it.
  datatype Screen = Screen(planes: seq<seq<Bytes>>, slot: nat, mask: seq<bool>, expected: Bytes, integrity: bool)

  // Selections in display order.
  datatype Shown = Basis(ordinal: nat, plane: nat) | Parity(ordinal: nat) | Tail(global: nat)

  datatype State = State(stream: Stream, queue: Queue, work: Work, playback: Playback, screen: Screen,
                         reserved: Option<nat>, tailPending: bool, log: seq<Shown>)

  predicate ShapedStream(c: Config, st: Stream) {
    && st.global <= |c.records| && |st.history| == |st.historyGlobal| == 3 && st.head < 3 && st.count <= 3
    && forall i :: 0 <= i < 3 ==> |st.history[i]| == PAYLOAD
  }

  predicate ShapedQueue(q: Queue) {
    && |q.slots| == SLOTS && q.tail < SLOTS && (q.preparing.Some? ==> q.preparing.value < SLOTS)
    && forall i :: 0 <= i < SLOTS ==> ShapedPatches(q.slots[i].patches)
  }

  predicate ShapedWork(w: Work) {
    && |w.record| == |w.parity| == |w.key| == PAYLOAD && |w.input| == DATA_CODEWORDS && w.block <= BLOCKS
    && |w.codewords| == |w.previous| == CODEWORDS && |w.raster| == |w.zeroRaster| == RASTER && w.position <= CODEWORDS
    && |w.headers| == PLANES && forall i :: 0 <= i < PLANES ==> |w.headers[i]| == HEADER
  }

  predicate ShapedPlanes(planes: seq<Bytes>) {
    |planes| == PLANES && forall p :: 0 <= p < PLANES ==> |planes[p]| == RASTER
  }

  predicate ShapedScreen(sc: Screen) {
    && |sc.planes| == SLOTS && sc.slot < SLOTS && |sc.mask| == PLANES && |sc.expected| == RASTER
    && forall s :: 0 <= s < SLOTS ==> ShapedPlanes(sc.planes[s])
  }

  predicate Shaped(c: Config, s: State) {
    && ShapedStream(c, s.stream) && ShapedQueue(s.queue) && ShapedWork(s.work) && ShapedScreen(s.screen)
    && (s.playback.group.Some? ==> s.playback.group.value < SLOTS)
    && (s.playback.active ==> s.playback.group.Some?)
  }

  // ----- video memory with the integrity check after every write

  function Written(sc: Screen, s: nat, p: nat, r: Bytes): (t: Screen)
    requires ShapedScreen(sc) && s < SLOTS && p < PLANES && |r| == RASTER
    ensures ShapedScreen(t)
  {
    ReplacedShape(sc, s, p, r);
    var planes := sc.planes[s := sc.planes[s][p := r]];
    sc.(planes := planes,
        integrity := sc.integrity && (sc.mask == DARK || Compose(planes[sc.slot], sc.mask) == sc.expected))
  }

  lemma ReplacedShape(sc: Screen, s: nat, p: nat, r: Bytes)
    requires ShapedScreen(sc) && s < SLOTS && p < PLANES && |r| == RASTER
    ensures ShapedPlanes(sc.planes[s]) && ShapedPlanes(sc.planes[s][p := r])
  {}

  function Selected(sc: Screen, s: nat, mask: seq<bool>): (t: Screen)
    requires ShapedScreen(sc) && s < SLOTS && |mask| == PLANES
    ensures ShapedScreen(t)
  {
    sc.(slot := s, mask := mask, expected := Compose(sc.planes[s], mask))
  }

  // store_basis_plane.
  function Stored(c: Config, sc: Screen, s: nat, p: nat, r: Bytes): (t: Screen)
    requires ShapedScreen(sc) && s < SLOTS && p < PLANES && |r| == RASTER
    ensures ShapedScreen(t)
  {
    Written(sc, s, p, if c.partialVga then Upload(QR, sc.planes[s][p], r) else r)
  }

  // apply_group_correction and restore_group_correction, past their guards.
  function Toggled(c: Config, sc: Screen, s: nat, w: Work, patches: seq<Patch>): (t: Screen)
    requires ShapedScreen(sc) && s < SLOTS && ShapedWork(w) && ShapedPatches(patches)
    ensures ShapedScreen(t)
  {
    Written(sc, s, 0, Corrected(sc.planes[s][0], if c.plan.width == 4 then Some(w.zeroRaster) else None, patches))
  }

  // vga32_show_data_qr.
  function ShownTail(sc: Screen, s: nat, r: Bytes): (t: Screen)
    requires ShapedScreen(sc) && s < SLOTS && |r| == RASTER
    ensures ShapedScreen(t)
  {
    Selected(Written(Written(Written(Written(sc, s, 0, r), s, 1, r), s, 2, r), s, 3, r), s, [true, true, true, true])
  }

  // ----- the record stream and its three-record history

  function HistoryIndex(st: Stream, logical: int): (i: nat)
    ensures i < 3
  {
    ((if st.count < 3 then 0 else st.head) + logical) % 3
  }

  // stream_next.
  function Advanced(c: Config, st: Stream): (t: Stream)
    requires ShapedStream(c, st) && st.global < |c.records| && |c.records[st.global]| == PAYLOAD
    ensures ShapedStream(c, t)
  {
    Stream(st.global + 1, st.history[st.head := c.records[st.global]], st.historyGlobal[st.head := st.global],
           (st.head + 1) % 3, if st.count < 3 then st.count + 1 else st.count)
  }

  // ----- prepare_group_claim

  // The first free, unreserved slot counting from tail.
  function ScanFree(q: Queue, reserved: Option<nat>, i: nat): (r: Option<nat>)
    requires ShapedQueue(q) && i <= SLOTS
    ensures r.Some? ==> r.value < SLOTS && q.slots[r.value].state == Free && reserved != Some(r.value)
    decreases SLOTS - i
  {
    if i == SLOTS then None
    else
      var s := (q.tail + i) % SLOTS;
      if reserved != Some(s) && q.slots[s].state == Free then Some(s) else ScanFree(q, reserved, i + 1)
  }

  // The group a claim makes of its range.
  function ClaimedSlot(p: Plan, global: nat, ordinal: nat, range: Claimed): Slot
    requires GoodPlan(p) && global < p.total && range == ClaimRange(p, global) && range.Claimed?
  {
    StartBound(p, global);
    Slot(Filling, ordinal, WindowOf(p, range.start), range.start, Place(p, range.start), WindowCount(p, global),
         range.overlap, 0, false, [])
  }

  // What a claim would take now.
  function Claimable(c: Config, st: Stream, q: Queue): (range: Claimed)
    requires GoodPlan(c.plan) && |c.records| == c.plan.total && ShapedStream(c, st) && ShapedQueue(q)
    ensures range.Claimed? ==> st.global < c.plan.total && range == ClaimRange(c.plan, st.global) && q.preparing.None?
  {
    if q.preparing.Some? || q.ready >= SLOTS || st.global >= c.plan.total then Refused
    else
      var range := ClaimRange(c.plan, st.global);
      if range.Claimed? && range.overlap > 0 &&
         (st.count < range.overlap || st.historyGlobal[HistoryIndex(st, st.count - range.overlap)] != range.start) then Refused
      else range
  }

  function Claim(c: Config, st: Stream, q: Queue, reserved: Option<nat>): (r: Option<Queue>)
    requires GoodPlan(c.plan) && |c.records| == c.plan.total && ShapedStream(c, st) && ShapedQueue(q)
    ensures r.Some? ==> ShapedQueue(r.value) && r.value.preparing.Some?
  {
    var range := Claimable(c, st, q);
    if range.Refused? then None
    else
      var found := ScanFree(q, reserved, 0);
      var s := if found.Some? then found.value else q.tail;
      if q.slots[s].state != Free then None
      else Some(Queue(q.slots[s := ClaimedSlot(c.plan, st.global, q.nextOrdinal + 1, range)], s, Some(s), q.ready,
                      q.nextOrdinal + 1))
  }

  lemma StartBound(p: Plan, i: nat)
    requires GoodPlan(p) && i < p.total && ClaimRange(p, i).Claimed?
    ensures ClaimRange(p, i).start <= i
  {}

  function Claimant(w: Work): (t: Work)
    requires ShapedWork(w)
    ensures ShapedWork(t)
  {
    w.(parity := Zeros(PAYLOAD), phase := Begin, position := 0)
  }

  // ----- prepare_group_step

  function PlaneFlags(c: Config, coefficient: U8): Short {
    if c.plan.width == 4 && coefficient == 15 then 0 else FLAG_PLANE_WHITENED
  }

  function SlotFrame(c: Config, g: Slot, coefficient: U8, payload: Bytes): Frame
    requires GoodPlan(c.plan)
  {
    Frame(PLANE_CODED, PlaneFlags(c, coefficient), c.session, g.window, coefficient, g.windowIndex, g.windowCount,
          g.start, c.plan.width, payload)
  }

  // The keystream is generated once per group and kept.
  function Keyed(c: Config, w: Work, start: nat): (t: Work)
    requires ShapedWork(w)
    ensures ShapedWork(t)
  {
    if w.keyIndex == Some(start) then w
    else w.(keyIndex := Some(start), key := Whitening.Stream([Seed(ToWord(c.session), ToWord(start))], PAYLOAD))
  }

  // dos32_plane_frame_whitened.
  function KeyedWire(c: Config, g: Slot, coefficient: U8, payload: Bytes, key: Bytes): (r: Bytes)
    requires GoodPlan(c.plan) && |payload| == |key| == PAYLOAD
    ensures |r| == HEADER + PAYLOAD
  {
    Sealed(SlotFrame(c, g, coefficient, payload),
           if Has(PlaneFlags(c, coefficient), FLAG_PLANE_WHITENED) then Xor(payload, key) else payload)
  }

  datatype Begun = Begun(stream: Stream, work: Work)

  function BeginBasis(c: Config, st: Stream, g: Slot, w: Work): (r: Option<Begun>)
    requires GoodPlan(c.plan) && |c.records| == c.plan.total && ShapedStream(c, st) && ShapedWork(w)
    requires (forall i :: 0 <= i < |c.records| ==> |c.records[i]| == PAYLOAD) && g.stage < c.plan.width
    ensures r.Some? ==> ShapedStream(c, r.value.stream) && ShapedWork(r.value.work)
  {
    var p := g.stage;
    if p < g.overlap then
      Some(Begun(st, BasisWork(c, g, w, st.history[HistoryIndex(st, st.count - g.overlap + p)])))
    else if st.global >= c.plan.total then None
    else if Place(c.plan, st.global) != g.windowIndex + p || WindowCount(c.plan, st.global) != g.windowCount then None
    else Some(Begun(Advanced(c, st), BasisWork(c, g, w, c.records[st.global])))
  }

  function BasisWork(c: Config, g: Slot, w: Work, record: Bytes): (t: Work)
    requires GoodPlan(c.plan) && ShapedWork(w) && |record| == PAYLOAD && g.stage < c.plan.width
    ensures ShapedWork(t)
  {
    hide KeyedWire, Keyed, Filled;
    var k := Keyed(c, w, g.start);
    Filled(k, g.stage, record, KeyedWire(c, g, COEFFICIENTS[g.stage], record, k.key))
  }

  function Filled(w: Work, p: nat, record: Bytes, wire: Bytes): (t: Work)
    requires ShapedWork(w) && p < PLANES && |record| == PAYLOAD && |wire| == HEADER + PAYLOAD
    ensures ShapedWork(t)
  {
    w.(record := record, parity := Xor(w.parity, record), headers := w.headers[p := wire[..HEADER]],
       input := Input(wire), block := 0, position := 0, phase := Encode)
  }

  // Up to five blocks of the incremental encoder; the codewords are complete
  // with the last block.
  function EncodeWork(c: Config, w: Work): (t: Work)
    requires ShapedTable(c.printer.table) && ShapedWork(w)
    ensures ShapedWork(t)
  {
    if w.block + ENCODE_BLOCKS < BLOCKS then w.(block := w.block + ENCODE_BLOCKS)
    else w.(block := BLOCKS, codewords := Codewords(c.printer.table, w.input), phase := if w.rasterReady then Delta else Matrix)
  }

  function DeltaWork(c: Config, w: Work): (t: Work)
    requires ShapedMap(c.printer.map32) && ShapedWork(w)
    ensures ShapedWork(t)
  {
    var end := if DELTA_CHUNK > CODEWORDS - w.position then CODEWORDS else w.position + DELTA_CHUNK;
    var previous := w.previous[..w.position] + w.codewords[w.position..end] + w.previous[end..];
    w.(previous := previous, raster := Xor(w.raster, Scatter(c.printer.map32, Xor(w.previous, previous))),
       position := end, phase := if end >= CODEWORDS then Store else Delta)
  }

  function MatrixWork(c: Config, w: Work): (t: Work)
    requires ShapedMap(c.printer.map32) && |c.printer.template| == RASTER && ShapedWork(w)
    ensures ShapedWork(t)
  {
    w.(raster := Canonical(c.printer.template, c.printer.map32, w.codewords), previous := w.codewords,
       rasterReady := true, phase := Store)
  }

  // The header correction of a complete group: the cached zero symbol and the
  // patch list, which must fit its buffer.
  ghost function CorrectionWork(c: Config, w: Work): (t: Work)
    requires Good(c.printer) && ShapedWork(w)
    ensures ShapedWork(t)
  {
    if w.zeroReady then w else w.(zeroReady := true, zeroRaster := ZeroRaster(c.printer))
  }

  function SlotHeaderDelta(c: Config, g: Slot, w: Work): (r: Bytes)
    requires GoodPlan(c.plan) && ShapedWork(w)
    ensures |r| == HEADER
  {
    hide Wire, Xor, XorAll, FLAG_PLANE_WHITENED;
    var wire := Wire(SlotFrame(c, g, if c.plan.width == 3 then 7 else 15, w.parity));
    Xor(wire[..HEADER], XorAll(w.headers[..c.plan.width], HEADER))
  }

  ghost function SlotDifference(c: Config, g: Slot, w: Work): (d: Bytes)
    requires GoodPlan(c.plan) && Good(c.printer) && ShapedWork(w)
    ensures |d| == RASTER
  {
    var t := c.printer.table;
    Scatter(c.printer.map32, Xor(Codewords(t, HeaderData(SlotHeaderDelta(c, g, w))), Codewords(t, HeaderData(Zeros(HEADER)))))
  }

  // The steps of one basis plane.
  ghost function BasisStep(c: Config, s: State, i: nat): (r: Option<State>)
    requires GoodConfig(c) && Shaped(c, s) && i < SLOTS && s.queue.slots[i].stage < c.plan.width
    ensures r.Some? ==> Shaped(c, r.value)
  {
    hide ShapedStream, ShapedWork, ShapedScreen, BeginBasis, EncodeWork, DeltaWork, MatrixWork, Stored, Good, WhiteOutside, InsideMap;
    var g := s.queue.slots[i];
    var w := s.work;
    GoodTable(c);
    match w.phase
    case Begin =>
      var b := BeginBasis(c, s.stream, g, w);
      if b.None? then None else Some(s.(stream := b.value.stream, work := b.value.work))
    case Encode => Some(s.(work := EncodeWork(c, w)))
    case Delta => Some(s.(work := DeltaWork(c, w)))
    case Matrix => Some(s.(work := MatrixWork(c, w)))
    case Store => Some(StoreStep(c, s, i))
  }

  lemma GoodTable(c: Config)
    requires GoodConfig(c)
    ensures ShapedTable(c.printer.table) && ShapedMap(c.printer.map32) && |c.printer.template| == RASTER
  {}

  function StoreStep(c: Config, s: State, i: nat): (t: State)
    requires GoodPlan(c.plan) && Shaped(c, s) && i < SLOTS && s.queue.slots[i].stage < c.plan.width
    ensures Shaped(c, t)
  {
    hide ShapedStream, ShapedScreen, Stored;
    var g := s.queue.slots[i];
    s.(screen := Stored(c, s.screen, i, g.stage, s.work.raster), work := s.work.(phase := Begin),
       queue := s.queue.(slots := s.queue.slots[i := g.(stage := g.stage + 1)]))
  }

  // qr_prepare_correction_patches: the list must fit its buffer.
  ghost function SlotPatches(c: Config, g: Slot, w: Work): (r: Option<seq<Patch>>)
    requires GoodPlan(c.plan) && Good(c.printer) && ShapedWork(w)
    ensures r.Some? ==> ShapedPatches(r.value)
  {
    hide *;
    var d := SlotDifference(c, g, w);
    if |NonZero(d)| > MAX_PATCHES then None else Some(PatchesUpTo(d, RASTER))
  }

  // The correction step: the group becomes ready.
  ghost function ReadyStep(c: Config, s: State, i: nat): (r: Option<State>)
    requires GoodConfig(c) && Shaped(c, s) && i < SLOTS
    ensures r.Some? ==> Shaped(c, r.value)
  {
    hide SlotPatches, CorrectionWork, Finish;
    var patches := SlotPatches(c, s.queue.slots[i], s.work);
    if patches.None? then None else Some(Finish(c, s, i, CorrectionWork(c, s.work), patches.value))
  }

  function Finish(c: Config, s: State, i: nat, w: Work, patches: seq<Patch>): (t: State)
    requires Shaped(c, s) && i < SLOTS && ShapedWork(w) && ShapedPatches(patches)
    ensures Shaped(c, t)
  {
    s.(work := w.(phase := Begin), queue := Completed(s.queue, i, patches))
  }

  function Completed(q: Queue, i: nat, patches: seq<Patch>): (t: Queue)
    requires ShapedQueue(q) && i < SLOTS && ShapedPatches(patches)
    ensures ShapedQueue(t)
  {
    Queue(q.slots[i := q.slots[i].(state := Ready, patches := patches)], (q.tail + 1) % SLOTS, None, q.ready + 1, q.nextOrdinal)
  }

  // One call of prepare_group_step; None is the failure return.
  ghost function Step(c: Config, s: State): (r: Option<State>)
    requires GoodConfig(c) && Shaped(c, s) && s.queue.preparing.Some?
    ensures r.Some? ==> Shaped(c, r.value)
  {
    hide BasisStep, ReadyStep, GoodConfig, ShapedStream, ShapedScreen, ShapedWork;
    var i := s.queue.preparing.value;
    var g := s.queue.slots[i];
    if g.stage < c.plan.width then BasisStep(c, s, i)
    else if g.stage == c.plan.width then ReadyStep(c, s, i)
    else Some(s)
  }

  // ----- playback_tick

  // earliest_ready_group and next_ready_group among the first n slots: the
  // Ready slot of least ordinal above `after`.
  function BestReady(slots: seq<Slot>, after: int, n: nat): (r: Option<nat>)
    requires n <= |slots|
    ensures r.Some? ==> r.value < n && slots[r.value].state == Ready && slots[r.value].ordinal > after
  {
    if n == 0 then None
    else
      var best := BestReady(slots, after, n - 1);
      var g := slots[n - 1];
      if g.state == Ready && g.ordinal > after && (best.None? || g.ordinal < slots[best.value].ordinal) then Some(n - 1)
      else best
  }

  // Apply or restore the correction of a slot unless it already is as wanted.
  function SetCorrection(c: Config, s: State, i: nat, want: bool): (t: State)
    requires Shaped(c, s) && i < SLOTS
    ensures Shaped(c, t)
  {
    var g := s.queue.slots[i];
    if g.applied == want then s
    else s.(screen := Toggled(c, s.screen, i, s.work, g.patches),
            queue := s.queue.(slots := s.queue.slots[i := g.(applied := want)]))
  }

  function ShowPlane(c: Config, s: State, i: nat, mask: seq<bool>, shown: Shown): (t: State)
    requires Shaped(c, s) && i < SLOTS && |mask| == PLANES
    ensures Shaped(c, t)
  {
    s.(screen := Selected(s.screen, i, mask), log := s.log + [shown])
  }

  function SetState(c: Config, s: State, i: nat, state: SlotState): (t: State)
    requires Shaped(c, s) && i < SLOTS
    ensures Shaped(c, t)
  {
    s.(queue := s.queue.(slots := s.queue.slots[i := s.queue.slots[i].(state := state)]))
  }

  datatype Ticked = Failed | Ticked(state: State, drained: bool)

  // The next symbol of the group on screen.
  function NextSymbol(c: Config, s: State): (t: State)
    requires Shaped(c, s) && s.playback.group.Some? && GoodPlan(c.plan)
    ensures Shaped(c, t)
  {
    var i := s.playback.group.value;
    var o := s.queue.slots[i].ordinal;
    var symbol := s.playback.symbol + 1;
    var s1 := s.(playback := s.playback.(symbol := symbol));
    if symbol == c.plan.width then
      var s2 := SetCorrection(c, s1, i, true);
      ShowPlane(c, s2, i, FirstPlanes(c.plan.width), Parity(o))
    else
      var s2 := ShowPlane(c, s1, i, OnePlane(symbol), Basis(o, symbol));
      if symbol == 1 then SetCorrection(c, s2, i, true) else s2
  }

  // Start playing slot n; the group shown before is restored and released.
  function Handoff(c: Config, s: State, n: nat): (t: State)
    requires Shaped(c, s) && n < SLOTS
    ensures Shaped(c, t)
  {
    var s1 := ShowPlane(c, s, n, OnePlane(0), Basis(s.queue.slots[n].ordinal, 0)).(reserved := None);
    var s2 := if s.playback.group.Some? && s.playback.active then
                SetState(c, SetCorrection(c, s1, s.playback.group.value, false), s.playback.group.value, Free)
              else s1;
    var s3 := SetState(c, s2, n, Playing);
    s3.(queue := s3.queue.(ready := s3.queue.ready - 1), playback := Playback(Some(n), 0, true))
  }

  function Tick(c: Config, s: State, due: bool, eof: bool): (r: Ticked)
    requires Shaped(c, s) && GoodPlan(c.plan)
    ensures r.Ticked? ==> Shaped(c, r.state)
  {
    if !s.playback.active then
      if s.queue.ready == 0 then Ticked(s, false)
      else
        var e := BestReady(s.queue.slots, -1, SLOTS);
        if e.None? then Failed else Ticked(Handoff(c, s, e.value), false)
    else if !due then Ticked(s, false)
    else if s.playback.symbol < c.plan.width then Ticked(NextSymbol(c, s), false)
    else
      var n := BestReady(s.queue.slots, s.queue.slots[s.playback.group.value].ordinal, SLOTS);
      if n.None? then
        if eof && s.queue.preparing.None? then Ticked(s.(playback := s.playback.(active := false)), true)
        else Ticked(s, false)
      else Ticked(Handoff(c, s, n.value), false)
  }

  // ----- DATA tails

  // choose_tail_slot among slots i and up.
  function TailSlot(s: State, i: nat): (r: Option<nat>)
    requires ShapedQueue(s.queue) && i <= SLOTS
    ensures r.Some? ==> r.value < SLOTS && s.queue.slots[r.value].state == Free && s.playback.group != Some(r.value)
    decreases SLOTS - i
  {
    if i == SLOTS then None
    else if s.queue.slots[i].state != Free || s.reserved == Some(i) || s.playback.group == Some(i) then TailSlot(s, i + 1)
    else Some(i)
  }

  // The frame of one tail record.
  function TailFrame(c: Config, i: nat): Frame
    requires GoodPlan(c.plan) && |c.records| == c.plan.total && i < c.plan.total && |c.records[i]| == PAYLOAD
  {
    var r := c.records[i];
    var named := Val(r[5]) == FILE_BEGIN || Val(r[5]) == FILE_DATA || Val(r[5]) == FILE_END;
    var stream := if named then Get32(r[12..16]) else 0;
    var offset := if Val(r[5]) == FILE_DATA then Get32(r[24..28]) else 0;
    Frame(DATA, FLAG_WHITENED, c.session, WindowOf(c.plan, i), i, Place(c.plan, i), WindowCount(c.plan, i), stream, offset, r)
  }

  // qr_render.
  function Rendered(c: Config, w: Work, input: Bytes): (t: Work)
    requires ShapedTable(c.printer.table) && ShapedMap(c.printer.map32) && |c.printer.template| == RASTER
    requires ShapedWork(w) && |input| == DATA_CODEWORDS
    ensures ShapedWork(t)
  {
    var w1 := w.(input := input, codewords := Codewords(c.printer.table, input));
    if w.rasterReady then
      w1.(previous := w1.codewords, raster := Xor(w.raster, Scatter(c.printer.map32, Xor(w.previous, w1.codewords))))
    else
      w1.(previous := w1.codewords, raster := Canonical(c.printer.template, c.printer.map32, w1.codewords), rasterReady := true)
  }

  // show_tail, then the main loop's release of the hidden PLANE slot.
  ghost function ShowTail(c: Config, s: State, slot: nat): (r: Option<State>)
    requires GoodConfig(c) && Shaped(c, s) && slot < SLOTS && !s.playback.active
    ensures r.Some? ==> Shaped(c, r.value)
  {
    if s.stream.global >= c.plan.total then None
    else
      var i := s.stream.global;
      var w := Rendered(c, s.work.(record := c.records[i]), Input(Wire(TailFrame(c, i))));
      var s1 := s.(stream := Advanced(c, s.stream), work := w, screen := ShownTail(s.screen, slot, w.raster),
                   reserved := Some(slot), log := s.log + [Tail(i)]);
      Some(Released(c, s1, slot))
  }

  function Released(c: Config, s: State, slot: nat): (t: State)
    requires Shaped(c, s) && !s.playback.active
    ensures Shaped(c, t)
  {
    if s.playback.group.Some? && s.queue.slots[s.playback.group.value].state == Playing then
      var g := s.playback.group.value;
      var s1 := if g != slot then SetCorrection(c, s, g, false)
                else s.(queue := s.queue.(slots := s.queue.slots[g := s.queue.slots[g].(applied := false)]));
      SetState(c, s1, g, Free).(playback := s.playback.(group := None))
    else s
  }

  // ----- the main loop

  datatype Outcome = Aborted | Running(state: State) | Finished(state: State)

  predicate ShapedOutcome(c: Config, r: Outcome) {
    match r
    case Aborted => true
    case Running(s) => Shaped(c, s)
    case Finished(s) => Shaped(c, s)
  }

  function AtEnd(c: Config, s: State): bool {
    s.stream.global >= c.plan.total
  }

  // The claim attempt of an iteration.
  function TryClaim(c: Config, s: State): (r: (State, bool))
    requires GoodPlan(c.plan) && |c.records| == c.plan.total && Shaped(c, s)
    ensures Shaped(c, r.0)
    ensures r.1 ==> r.0.queue.preparing.Some?
  {
    if s.queue.preparing.None? && s.queue.ready < SLOTS && !AtEnd(c, s) then
      var q := Claim(c, s.stream, s.queue, s.reserved);
      if q.Some? then (s.(queue := q.value, work := Claimant(s.work), tailPending := false), true)
      else (s.(tailPending := true), false)
    else (s, false)
  }

  ghost function Iterate(c: Config, s: State, due: bool): (r: Outcome)
    requires GoodConfig(c) && Shaped(c, s)
    ensures ShapedOutcome(c, r)
  {
    var eof := (AtEnd(c, s) || s.tailPending) && s.queue.preparing.None? && s.queue.ready == 0;
    var tick := Tick(c, s, due, eof);
    if tick.Failed? then Aborted
    else if tick.drained && AtEnd(c, tick.state) then Finished(tick.state)
    else
      var (s2, claimed) := TryClaim(c, tick.state);
      var made := if s2.queue.preparing.Some? then Step(c, s2) else Some(s2);
      if made.None? then Aborted
      else AfterStep(c, made.value, claimed)
  }

  ghost function AfterStep(c: Config, s: State, claimed: bool): (r: Outcome)
    requires GoodConfig(c) && Shaped(c, s)
    ensures ShapedOutcome(c, r)
  {
    hide ShowTail, TailSlot, GoodConfig, ShapedWork, ShapedScreen, ShapedStream, ShapedQueue;
    if !s.playback.active && s.queue.ready == 0 && s.queue.preparing.None? && !AtEnd(c, s) && !claimed then
      var slot := TailSlot(s, 0);
      if slot.None? then Aborted
      else
        var t := ShowTail(c, s, slot.value);
        if t.None? then Aborted
        else Closing(c, t.value.(tailPending := false))
    else Closing(c, s)
  }

  function Closing(c: Config, s: State): (r: Outcome)
    ensures !r.Aborted? && r.state == s
  {
    if !s.playback.active && s.queue.ready == 0 && s.queue.preparing.None? && AtEnd(c, s) then Finished(s) else Running(s)
  }

  // Prefill: claim and complete groups until two are ready.  One call makes one
  // producer step; None means prefilling is over.
  datatype Prefilled = PrefillAborted | PrefillMore(state: State) | PrefillDone(state: State)

  ghost function PrefillStep(c: Config, s: State): (r: Prefilled)
    requires GoodConfig(c) && Shaped(c, s)
    ensures r.PrefillMore? || r.PrefillDone? ==> Shaped(c, r.state)
  {
    if s.queue.preparing.Some? then
      var t := Step(c, s);
      if t.None? then PrefillAborted else PrefillMore(t.value)
    else if s.queue.ready >= 2 then PrefillDone(s)
    else
      var q := Claim(c, s.stream, s.queue, s.reserved);
      if q.None? then PrefillDone(s)
      else PrefillMore(s.(queue := q.value, work := Claimant(s.work)))
  }

  function EmptySlot(): Slot {
    Slot(Free, 0, 0, 0, 0, 0, 0, 0, false, [])
  }

  function Initial(): (s: State)
  {
    State(Stream(0, [Zeros(PAYLOAD), Zeros(PAYLOAD), Zeros(PAYLOAD)], [0, 0, 0], 0, 0),
          Queue(seq(SLOTS, _ => EmptySlot()), 0, None, 0, 0),
          Work(Zeros(PAYLOAD), Zeros(PAYLOAD), seq(PLANES, _ => Zeros(HEADER)), None, Zeros(PAYLOAD),
               Zeros(DATA_CODEWORDS), 0, Zeros(CODEWORDS), Zeros(CODEWORDS), Zeros(RASTER), false, Begin, 0, false, Zeros(RASTER)),
          Playback(None, 0, false),
          Screen(seq(SLOTS, _ => seq(PLANES, _ => White())), 0, DARK, Zeros(RASTER), true),
          None, false, [])
  }

  lemma InitialShape(c: Config)
    requires GoodConfig(c)
    ensures Shaped(c, Initial())
  {
    hide Good, WhiteOutside, InsideMap;
  }
}
