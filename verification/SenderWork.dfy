// The producer: what its working memory holds in every phase of a group.

module SenderWork {
  import opened Gf2
  import opened Protocol
  import opened V40L
  import opened Raster
  import opened Correction
  import opened Repair
  import opened Vga
  import opened PlaneParity
  import opened Schedule
  import opened Sender
  import opened SenderGroups

  ghost function RasterOf(c: Config, codewords: Bytes): (r: Bytes)
    requires GoodConfig(c) && |codewords| == CODEWORDS
    ensures |r| == RASTER
  {
    Canonical(c.printer.template, c.printer.map32, codewords)
  }

  ghost function CodewordsOf(c: Config, input: Bytes): (r: Bytes)
    requires GoodConfig(c) && |input| == DATA_CODEWORDS
    ensures |r| == CODEWORDS
  {
    Codewords(c.printer.table, input)
  }

  // The working raster always is the symbol of the remembered codewords.
  ghost predicate WorkOk(c: Config, w: Work): (ok: bool)
    ensures ok ==> GoodConfig(c) && ShapedWork(w)
  {
    hide Good;
    && GoodConfig(c) && ShapedWork(w) && KeyOk(c, w)
    && (w.rasterReady ==> w.raster == RasterOf(c, w.previous))
    && (w.zeroReady ==> w.zeroRaster == ZeroRaster(c.printer))
  }

  // Members taken from the stream or the history so far.
  function Fetched(width: nat, g: Slot, w: Work): nat {
    if g.stage < width && w.phase != Begin then g.stage + 1 else g.stage
  }

  ghost predicate MembersOk(c: Config, k: nat, f: nat, w: Work) {
    hide Good, BasisWire, Cut;
    && GoodConfig(c) && HasGroup(c.plan, k) && f <= c.plan.width && ShapedWork(w)
    && var g := GroupOf(c, k);
    && w.parity == XorAll(g.records[..f], PAYLOAD)
    && forall p :: 0 <= p < f ==> w.headers[p] == BasisWire(g, p)[..HEADER]
  }

  ghost function BasisInput(c: Config, k: nat, p: nat): (r: Bytes)
    requires GoodConfig(c) && HasGroup(c.plan, k) && p < c.plan.width
    ensures |r| == DATA_CODEWORDS
  {
    hide BasisWire, Good;
    Input(BasisWire(GroupOf(c, k), p))
  }

  ghost predicate PhaseOk(c: Config, k: nat, p: nat, w: Work) {
    hide BasisInput, CodewordsOf, Good, Cut;
    && GoodConfig(c) && HasGroup(c.plan, k) && p < c.plan.width && ShapedWork(w)
    && w.input == BasisInput(c, k, p)
    && match w.phase
    case Begin => false
    case Encode => w.block < BLOCKS && w.position == 0
    case Delta => w.rasterReady && w.codewords == CodewordsOf(c, w.input) &&
                  w.position < CODEWORDS && w.previous[..w.position] == w.codewords[..w.position]
    case Matrix => w.codewords == CodewordsOf(c, w.input)
    case Store => w.rasterReady && w.codewords == CodewordsOf(c, w.input) && w.previous == w.codewords
  }

  // The group in preparation: its place in the schedule, how much of the
  // stream it has consumed, and what has been computed of it.
  ghost predicate PrepOk(c: Config, global: nat, g: Slot, w: Work) {
    hide MembersOk, PhaseOk, Good, Cut;
    && GoodConfig(c) && g.ordinal >= 1 && SlotIs(c, g, g.ordinal - 1) && g.stage <= c.plan.width
    && var k, f := g.ordinal - 1, Fetched(c.plan.width, g, w);
    && global == Cut(c.plan, k) + (if f < g.overlap then 0 else f - g.overlap)
    && MembersOk(c, k, f, w)
    && (w.phase != Begin ==> g.stage < c.plan.width && PhaseOk(c, k, g.stage, w))
  }

  lemma ClaimStartsPrep(c: Config, g: Slot, w: Work)
    requires WorkOk(c, w) && g.ordinal >= 1 && SlotIs(c, g, g.ordinal - 1) && g.stage == 0
    ensures WorkOk(c, Claimant(w)) && PrepOk(c, Cut(c.plan, g.ordinal - 1), g, Claimant(w))
  {
    hide Good, WhiteOutside, InsideMap, Place, WindowCount, WindowOf, Cut, RasterOf, ZeroRaster, GroupOf, BasisWire;
    SlotRange(c, g, g.ordinal - 1);
    assert GroupOf(c, g.ordinal - 1).records[..0] == [];
  }

  // What the claimed slot says about the consumed records.
  lemma SlotRange(c: Config, g: Slot, k: nat)
    requires GoodConfig(c) && SlotIs(c, g, k)
    ensures g.overlap < c.plan.width && g.start + g.overlap == Cut(c.plan, k) && g.start + c.plan.width == Cut(c.plan, k + 1) <= c.plan.total
  {
    hide Good, WhiteOutside, InsideMap, Place, WindowCount, WindowOf;
    ClaimRangeExact(c.plan, Cut(c.plan, k));
  }

  lemma MemberSlot(c: Config, g: Slot, k: nat, m: nat)
    requires GoodConfig(c) && SlotIs(c, g, k) && m < c.plan.width && g.start + m < c.plan.total
    ensures Place(c.plan, g.start + m) == g.windowIndex + m && WindowCount(c.plan, g.start + m) == g.windowCount
  {
    hide Good, WhiteOutside, InsideMap, Place, WindowCount, WindowOf, Cut;
    MemberPlace(c.plan, Cut(c.plan, k), 0);
    MemberPlace(c.plan, Cut(c.plan, k), m);
  }

  // ----- one member

  lemma XorNext(list: seq<Bytes>, f: nat, n: nat)
    requires f < |list| && forall i :: 0 <= i < |list| ==> |list[i]| == n
    ensures XorAll(list[..f + 1], n) == Xor(XorAll(list[..f], n), list[f])
  {
    hide Xor;
    assert list[..f + 1][..f] == list[..f];
  }

  ghost function MemberRecord(c: Config, k: nat, p: nat): (r: Bytes)
    requires GoodConfig(c) && HasGroup(c.plan, k) && p < c.plan.width
    ensures |r| == PAYLOAD
  {
    hide Good, WhiteOutside, InsideMap, Cut;
    GroupOf(c, k).records[p]
  }

  ghost function MemberWire(c: Config, k: nat, p: nat): (r: Bytes)
    requires GoodConfig(c) && HasGroup(c.plan, k) && p < c.plan.width
    ensures |r| == HEADER + PAYLOAD
  {
    hide Good, WhiteOutside, InsideMap, Cut, BasisWire;
    BasisWire(GroupOf(c, k), p)
  }

  // Adding one member to the group's sums.
  lemma FilledOk(c: Config, k: nat, p: nat, w: Work)
    requires WorkOk(c, w) && p < c.plan.width && MembersOk(c, k, p, w)
    ensures var t := Filled(w, p, MemberRecord(c, k, p), MemberWire(c, k, p));
            WorkOk(c, t) && MembersOk(c, k, p + 1, t) && PhaseOk(c, k, p, t) && t.phase == Encode && t.zeroReady == w.zeroReady
  {
    hide Good, WhiteOutside, InsideMap, Place, WindowCount, WindowOf, Cut, RasterOf, ZeroRaster, GroupOf, BasisWire,
      KeyOk, Xor, XorAll, Input;
    XorNext(GroupOf(c, k).records, p, PAYLOAD);
    KeyFrame(c, w, Filled(w, p, MemberRecord(c, k, p), MemberWire(c, k, p)));
  }

  // The working memory once the next member of the group is taken.
  ghost predicate Taken(c: Config, g: Slot, w: Work, t: Work) {
    hide Good, WhiteOutside, InsideMap, SlotIs, Cut, Keyed, Filled;
    && GoodConfig(c) && ShapedWork(w) && g.ordinal >= 1 && HasGroup(c.plan, g.ordinal - 1) && g.stage < c.plan.width
    && t == Filled(Keyed(c, w, g.start), g.stage, MemberRecord(c, g.ordinal - 1, g.stage), MemberWire(c, g.ordinal - 1, g.stage))
  }

  lemma BasisWorkIs(c: Config, g: Slot, w: Work, record: Bytes)
    requires WorkOk(c, w) && g.ordinal >= 1 && SlotIs(c, g, g.ordinal - 1) && g.stage < c.plan.width
    requires record == MemberRecord(c, g.ordinal - 1, g.stage)
    ensures Taken(c, g, w, BasisWork(c, g, w, record))
  {
    hide Good, WhiteOutside, InsideMap, Place, WindowCount, WindowOf, Cut, RasterOf, ZeroRaster, GroupOf, BasisWire, KeyedWire,
      Keyed, KeyOk, Filled;
    KeyedOk(c, w, g.start);
    KeyedWireIs(c, g, g.ordinal - 1, g.stage, Keyed(c, w, g.start));
  }

  lemma TakenKeeps(c: Config, g: Slot, w: Work, t: Work)
    requires WorkOk(c, w) && Taken(c, g, w, t) && MembersOk(c, g.ordinal - 1, g.stage, w)
    ensures WorkOk(c, t) && MembersOk(c, g.ordinal - 1, g.stage + 1, t) && PhaseOk(c, g.ordinal - 1, g.stage, t) && t.phase == Encode
    ensures t.zeroReady == w.zeroReady
  {
    hide Good, WhiteOutside, InsideMap, WorkOk, MembersOk, PhaseOk, Cut, Filled, Keyed, MemberWire, MemberRecord, ShapedWork, HasGroup;
    KeyedKeepsWork(c, g.ordinal - 1, g.stage, w, g.start);
    FilledOk(c, g.ordinal - 1, g.stage, Keyed(c, w, g.start));
  }

  lemma KeyedKeepsWork(c: Config, k: nat, f: nat, w: Work, start: nat)
    requires WorkOk(c, w) && MembersOk(c, k, f, w)
    ensures WorkOk(c, Keyed(c, w, start)) && MembersOk(c, k, f, Keyed(c, w, start)) && Keyed(c, w, start).zeroReady == w.zeroReady
  {
    hide Good, WhiteOutside, InsideMap, Cut, RasterOf, ZeroRaster, GroupOf, BasisWire, Keyed, KeyOk, XorAll;
    KeyedOk(c, w, start);
    KeyedKeeps(c, w, start);
  }

  lemma SlotHasGroup(c: Config, g: Slot, k: nat)
    requires GoodConfig(c) && SlotIs(c, g, k)
    ensures HasGroup(c.plan, k) && g.start == GroupOf(c, k).start
  {
    hide Good, WhiteOutside, InsideMap, Cut;
  }

  lemma KeyedKeeps(c: Config, w: Work, start: nat)
    requires ShapedWork(w)
    ensures Keyed(c, w, start) == w.(keyIndex := Keyed(c, w, start).keyIndex, key := Keyed(c, w, start).key)
  {
    hide Whitening.Stream, Whitening.Seed, ToWord;
  }

  lemma KeyFrame(c: Config, a: Work, b: Work)
    requires KeyOk(c, a) && b.keyIndex == a.keyIndex && b.key == a.key
    ensures KeyOk(c, b)
  {
    hide Whitening.Stream, Whitening.Seed, ToWord;
  }

  // A member always arrives with the expected place in its window, from the
  // history while the group overlaps and from the stream afterwards: the
  // producer's consistency checks never fail.
  lemma BeginTakes(c: Config, st: Stream, g: Slot, w: Work) returns (b: Begun)
    requires StreamOk(c, st) && WorkOk(c, w) && PrepOk(c, st.global, g, w)
    requires w.phase == Begin && g.stage < c.plan.width
    ensures BeginBasis(c, st, g, w) == Some(b) && StreamOk(c, b.stream)
    ensures Taken(c, g, w, b.work)
    ensures b.stream.global == st.global + if g.stage < g.overlap then 0 else 1
  {
    hide Good, WhiteOutside, InsideMap, WorkOk, StreamOk, MembersOk, PhaseOk, Place, WindowCount, WindowOf, Cut, BasisWork, Taken,
      Advanced, HistoryIndex;
    var k, p := g.ordinal - 1, g.stage;
    SlotRange(c, g, k);
    MemberSlot(c, g, k, p);
    SlotHasGroup(c, g, k);
    assert MemberRecord(c, k, p) == c.records[g.start + p];
    BasisWorkIs(c, g, w, MemberRecord(c, k, p));
    if p < g.overlap {
      CountEnough(c, st, g.overlap);
      HistoryEntry(c, st, st.count - g.overlap + p);
    } else {
      assert st.global == g.start + p;
      AdvanceKeepsStream(c, st);
      AdvancedGlobal(c, st);
    }
    b := BeginBasis(c, st, g, w).value;
  }

  lemma BeginKeeps(c: Config, st: Stream, g: Slot, w: Work) returns (b: Begun)
    requires StreamOk(c, st) && WorkOk(c, w) && PrepOk(c, st.global, g, w)
    requires w.phase == Begin && g.stage < c.plan.width
    ensures BeginBasis(c, st, g, w) == Some(b)
    ensures StreamOk(c, b.stream) && WorkOk(c, b.work) && PrepOk(c, b.stream.global, g, b.work)
    ensures b.work.zeroReady == w.zeroReady
  {
    hide Good, WhiteOutside, InsideMap, WorkOk, StreamOk, MembersOk, PhaseOk, SlotIs, Cut, BeginBasis, Taken;
    b := BeginTakes(c, st, g, w);
    SlotHasGroup(c, g, g.ordinal - 1);
    TakenKeeps(c, g, w, b.work);
  }

  lemma AdvancedGlobal(c: Config, st: Stream)
    requires ShapedStream(c, st) && st.global < |c.records| && |c.records[st.global]| == PAYLOAD
    ensures Advanced(c, st).global == st.global + 1
  {}

  lemma CountEnough(c: Config, st: Stream, n: nat)
    requires StreamOk(c, st) && n <= 3 && n <= st.global
    ensures n <= st.count
  {}

  // ----- encoding and rendering

  predicate SameMembers(w: Work, t: Work) {
    t.parity == w.parity && t.headers == w.headers && t.zeroReady == w.zeroReady
  }

  // Encoding and rendering leave the group's sums alone.
  lemma PhaseKeeps(c: Config, global: nat, g: Slot, w: Work, t: Work)
    requires PrepOk(c, global, g, w) && w.phase != Begin && t.phase != Begin && SameMembers(w, t)
    requires WorkOk(c, t) && g.ordinal >= 1 && PhaseOk(c, g.ordinal - 1, g.stage, t)
    ensures PrepOk(c, global, g, t)
  {
    hide Good, WhiteOutside, InsideMap, Cut, SlotIs, WorkOk, PhaseOk, GroupOf, BasisWire;
    WorkShape(c, t);
  }

  lemma WorkShape(c: Config, w: Work)
    requires WorkOk(c, w)
    ensures ShapedWork(w)
  {}

  lemma EncodeKeeps(c: Config, k: nat, p: nat, w: Work)
    requires WorkOk(c, w) && PhaseOk(c, k, p, w) && w.phase == Encode
    ensures var t := EncodeWork(c, w);
            WorkOk(c, t) && PhaseOk(c, k, p, t) && SameMembers(w, t) && t.phase != Begin
  {
    hide Good, WhiteOutside, InsideMap, RasterOf, ZeroRaster, Codewords, BasisInput, KeyOk, Cut, ShapedTable;
    GoodTable(c);
    KeyFrame(c, w, EncodeWork(c, w));
  }

  lemma DeltaKeeps(c: Config, k: nat, p: nat, w: Work)
    requires WorkOk(c, w) && PhaseOk(c, k, p, w) && w.phase == Delta
    ensures var t := DeltaWork(c, w);
            WorkOk(c, t) && PhaseOk(c, k, p, t) && SameMembers(w, t) && t.phase != Begin
  {
    hide Good, WhiteOutside, InsideMap, ZeroRaster, CodewordsOf, BasisInput, KeyOk, Cut, ShapedMap, Scatter, Xor;
    GoodTable(c);
    var t := DeltaWork(c, w);
    KeyFrame(c, w, t);
    DeltaKeepsCanonical(c.printer.template, c.printer.map32, w.previous, t.previous);
  }

  lemma MatrixKeeps(c: Config, k: nat, p: nat, w: Work)
    requires WorkOk(c, w) && PhaseOk(c, k, p, w) && w.phase == Matrix
    ensures var t := MatrixWork(c, w);
            WorkOk(c, t) && PhaseOk(c, k, p, t) && SameMembers(w, t) && t.phase != Begin
  {
    hide Good, WhiteOutside, InsideMap, ZeroRaster, CodewordsOf, BasisInput, KeyOk, Cut, ShapedMap, Canonical;
    GoodTable(c);
    KeyFrame(c, w, MatrixWork(c, w));
  }

  // When a plane is stored, the raster is the symbol of that basis frame.
  lemma StoredRaster(c: Config, k: nat, p: nat, w: Work)
    requires WorkOk(c, w) && PhaseOk(c, k, p, w) && w.phase == Store
    ensures w.raster == BasisImage(c.printer, GroupOf(c, k), p)
  {
    hide Good, WhiteOutside, InsideMap, ZeroRaster, KeyOk, Cut, BasisWire, Canonical, Codewords;
  }

  lemma StoreKeeps(c: Config, global: nat, g: Slot, w: Work)
    requires WorkOk(c, w) && PrepOk(c, global, g, w) && w.phase == Store
    ensures WorkOk(c, w.(phase := Begin)) && PrepOk(c, global, g.(stage := g.stage + 1), w.(phase := Begin))
  {
    hide Good, WhiteOutside, InsideMap, ZeroRaster, RasterOf, KeyOk, Cut, PhaseOk, GroupOf, BasisWire;
    KeyFrame(c, w, w.(phase := Begin));
    SlotFrameSame(c, g, g.(stage := g.stage + 1), g.ordinal - 1);
  }

  lemma SlotFrameSame(c: Config, a: Slot, b: Slot, k: nat)
    requires GoodPlan(c.plan) && SlotIs(c, a, k)
    requires a.start == b.start && a.window == b.window && a.windowIndex == b.windowIndex && a.windowCount == b.windowCount && a.overlap == b.overlap
    ensures SlotIs(c, b, k)
  {
    hide Place, WindowCount, WindowOf, Cut;
  }

  // ----- the correction

  lemma HeadersAll(c: Config, k: nat, w: Work)
    requires MembersOk(c, k, c.plan.width, w)
    ensures var g := GroupOf(c, k);
            w.parity == XorAll(g.records, PAYLOAD) && w.headers[..c.plan.width] == Headers(BasisWires(g, c.plan.width))
  {
    hide Good, WhiteOutside, InsideMap, Cut, BasisWire, GroupOf, XorAll;
    var g := GroupOf(c, k);
    assert g.records[..c.plan.width] == g.records;
  }

  // The patch list is that of the group and always fits.
  lemma PatchesReady(c: Config, g: Slot, w: Work)
    requires WorkOk(c, w) && g.ordinal >= 1 && MembersOk(c, g.ordinal - 1, c.plan.width, w) && SlotIs(c, g, g.ordinal - 1)
    ensures SlotPatches(c, g, w) == Some(GroupPatches(c.printer, GroupOf(c, g.ordinal - 1)))
  {
    hide WhiteOutside, InsideMap, Cut, BasisWire, GroupOf, XorAll, Xor, Wire, LinearTable, ShapedMap, Codewords, HeaderData,
      PatchesUpTo, NonZero, ScatterUpTo, Scatter, Zeros, SlotIs, MembersOk, WorkOk;
    var k := g.ordinal - 1;
    SlotHasGroup(c, g, k);
    var gr := GroupOf(c, k);
    HeadersAll(c, k, w);
    SlotFrameIs(c, g, k, if c.plan.width == 3 then 7 else 15, w.parity);
    assert SlotHeaderDelta(c, g, w) == HeaderDelta(gr);
    PatchesFit(c.printer.table, c.printer.map32, HeaderDelta(gr), Zeros(HEADER));
  }

  lemma CorrectionWorkOk(c: Config, w: Work)
    requires WorkOk(c, w)
    ensures var t := CorrectionWork(c, w).(phase := Begin); WorkOk(c, t) && t.zeroReady
  {
    hide Good, WhiteOutside, InsideMap, ZeroRaster, RasterOf, KeyOk;
    KeyFrame(c, w, CorrectionWork(c, w).(phase := Begin));
  }
}
