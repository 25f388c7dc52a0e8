// What the sender's slots hold and what its screen shows.

module SenderScreen {
  import opened Gf2
  import opened V40L
  import opened Raster
  import opened Correction
  import opened Repair
  import opened Vga
  import opened PlaneParity
  import opened Schedule
  import opened Sender
  import opened SenderGroups
  import opened SenderWork

  // ----- the picture of each scheduled symbol

  ghost function MemberImage(c: Config, k: nat, p: nat): (r: Bytes)
    ensures |r| == RASTER
  {
    hide Good, BasisImage, Cut;
    if GoodConfig(c) && HasGroup(c.plan, k) && p < c.plan.width then BasisImage(c.printer, GroupOf(c, k), p) else White()
  }

  ghost function GroupParity(c: Config, k: nat): (r: Bytes)
    ensures |r| == RASTER
  {
    hide Good, ParityImage, Cut;
    if GoodConfig(c) && HasGroup(c.plan, k) then ParityImage(c.printer, GroupOf(c, k)) else White()
  }

  ghost function TailImage(c: Config, i: nat): (r: Bytes)
    ensures |r| == RASTER
  {
    hide Good, Image, Wire;
    if GoodConfig(c) && i < c.plan.total then Image(c.printer, Input(Wire(TailFrame(c, i)))) else White()
  }

  ghost function ImageOf(c: Config, shown: Shown): (r: Bytes)
    ensures |r| == RASTER
  {
    match shown
    case Basis(o, p) => if o >= 1 then MemberImage(c, o - 1, p) else White()
    case Parity(o) => if o >= 1 then GroupParity(c, o - 1) else White()
    case Tail(i) => TailImage(c, i)
  }

  // Symbol number `symbol` of the group with the given ordinal.
  function Symbol(width: nat, o: nat, symbol: nat): Shown {
    if symbol == width then Parity(o) else Basis(o, symbol)
  }

  function MaskOf(width: nat, symbol: nat): (r: seq<bool>)
    ensures |r| == PLANES
  {
    if symbol == width then FirstPlanes(width) else OnePlane(symbol)
  }

  // ----- symbols stay inside the QR rectangle

  lemma {:induction false} SpotsInside(m: seq<Entry>, i: nat, v: Byte, n: nat, at: nat)
    requires ShapedMap(m) && InsideMap(m) && i < CODEWORDS && n <= 8 && at < RASTER && !Inside(QR, at)
    ensures SpotsUpTo(m, i, v, n)[at] == 0
    decreases n
  {
    hide Inside, Add, BitOn;
    if n > 0 {
      SpotsInside(m, i, v, n - 1, at);
      EntryBound(m, i * 8 + n - 1);
      AddZero();
    }
  }

  lemma {:induction false} ScatterInside(m: seq<Entry>, cw: Bytes, n: nat, at: nat)
    requires ShapedMap(m) && InsideMap(m) && |cw| == CODEWORDS && n <= CODEWORDS && at < RASTER && !Inside(QR, at)
    ensures ScatterUpTo(m, cw, n)[at] == 0
    decreases n
  {
    hide Inside, Add, SpotsUpTo, ShapedMap, InsideMap;
    if n > 0 {
      ScatterInside(m, cw, n - 1, at);
      SpotsInside(m, n - 1, cw[n - 1], 8, at);
      AddZero();
    }
  }

  lemma RasterWhite(c: Config, codewords: Bytes)
    requires GoodConfig(c) && |codewords| == CODEWORDS
    ensures WhiteOutside(QR, RasterOf(c, codewords))
  {
    hide Inside, Add, ScatterUpTo, InsideMap, LinearTable;
    var r := RasterOf(c, codewords);
    forall i | 0 <= i < RASTER && !Inside(QR, i) ensures r[i] == 0xFF {
      ScatterInside(c.printer.map32, codewords, CODEWORDS, i);
      AddZero();
    }
  }

  lemma MemberWhite(c: Config, k: nat, p: nat)
    requires GoodConfig(c) && HasGroup(c.plan, k) && p < c.plan.width
    ensures WhiteOutside(QR, MemberImage(c, k, p))
  {
    hide Inside, Codewords, BasisWire, Canonical, Cut, InsideMap, LinearTable, ShapedMap, GroupOf, WhiteOutside;
    RasterWhite(c, CodewordsOf(c, BasisInput(c, k, p)));
  }

  // ----- slots

  ghost predicate BasisHeld(c: Config, k: nat, n: nat, planes: seq<Bytes>) {
    && GoodConfig(c) && HasGroup(c.plan, k) && n <= c.plan.width && ShapedPlanes(planes)
    && forall p :: 0 <= p < n ==> planes[p] == MemberImage(c, k, p)
  }

  ghost function FirstPlane(c: Config, k: nat, applied: bool): (r: Bytes)
    ensures |r| == RASTER
  {
    hide Good, CorrectedFirst, Cut;
    if applied && GoodConfig(c) && HasGroup(c.plan, k) then CorrectedFirst(c.printer, GroupOf(c, k)) else MemberImage(c, k, 0)
  }

  ghost predicate PatchesOk(c: Config, k: nat, patches: seq<Patch>) {
    hide Good, GroupPatches, Cut;
    GoodConfig(c) && HasGroup(c.plan, k) && patches == GroupPatches(c.printer, GroupOf(c, k))
  }

  // A complete group: every basis plane, plane 0 with or without correction.
  ghost predicate GroupHeld(c: Config, g: Slot, planes: seq<Bytes>) {
    && GoodConfig(c) && g.ordinal >= 1 && HasGroup(c.plan, g.ordinal - 1) && ShapedPlanes(planes)
    && PatchesOk(c, g.ordinal - 1, g.patches)
    && planes[0] == FirstPlane(c, g.ordinal - 1, g.applied)
    && forall p :: 1 <= p < c.plan.width ==> planes[p] == MemberImage(c, g.ordinal - 1, p)
  }

  ghost predicate WhiteRest(applied: bool, planes: seq<Bytes>) {
    ShapedPlanes(planes) && forall p :: 0 <= p < PLANES ==> (p == 0 && applied) || WhiteOutside(QR, planes[p])
  }

  ghost predicate SlotOk(c: Config, g: Slot, planes: seq<Bytes>) {
    && WhiteRest(g.applied, planes)
    && (g.state == Filling ==> g.ordinal >= 1 && BasisHeld(c, g.ordinal - 1, g.stage, planes))
    && (g.state == Ready || g.state == Playing ==> GroupHeld(c, g, planes))
    && (g.state != Playing ==> !g.applied)
  }

  ghost predicate SlotsOk(c: Config, slots: seq<Slot>, planes: seq<seq<Bytes>>) {
    && |slots| == |planes| == SLOTS
    && forall i :: 0 <= i < SLOTS ==> SlotOk(c, slots[i], planes[i])
  }

  // One slot changes, the others stay.
  lemma SlotChanged(c: Config, slots: seq<Slot>, planes: seq<seq<Bytes>>, i: nat, g: Slot, r: seq<Bytes>)
    requires SlotsOk(c, slots, planes) && i < SLOTS && SlotOk(c, g, r)
    ensures SlotsOk(c, slots[i := g], planes[i := r])
  {
    hide SlotOk;
  }

  // A partial or full upload of a basis raster into the slot being filled.
  lemma StoreKeepsSlot(c: Config, g: Slot, planes: seq<Bytes>, r: Bytes)
    requires GoodConfig(c) && SlotOk(c, g, planes) && g.state == Filling && g.stage < c.plan.width
    requires r == MemberImage(c, g.ordinal - 1, g.stage)
    ensures ShapedPlanes(planes)
    ensures var stored := if c.partialVga then Upload(QR, planes[g.stage], r) else r;
            stored == r && SlotOk(c, g.(stage := g.stage + 1), planes[g.stage := stored])
  {
    hide Inside, MemberImage, InsideMap, Good, Upload, Cut;
    MemberWhite(c, g.ordinal - 1, g.stage);
    PartialIsFull(QR, planes[g.stage], r);
  }

  // Filling turns into ready with the group's patches.
  lemma ReadyKeepsSlot(c: Config, g: Slot, planes: seq<Bytes>, patches: seq<Patch>)
    requires SlotOk(c, g, planes) && g.state == Filling && g.stage == c.plan.width && PatchesOk(c, g.ordinal - 1, patches)
    ensures SlotOk(c, g.(state := Ready, patches := patches), planes)
  {
    hide WhiteOutside, MemberImage, InsideMap, Good, Cut, PatchesOk, FirstPlane;
    PlainFirst(c, g.ordinal - 1);
  }

  // ----- the correction in a playing slot

  ghost function ZeroFor(c: Config, w: Work): (z: Option<Bytes>)
    requires ShapedWork(w)
    ensures z.Some? ==> |z.value| == RASTER
  {
    if c.plan.width == 4 then Some(w.zeroRaster) else None
  }

  ghost predicate Corrects(c: Config, k: nat, w: Work, patches: seq<Patch>, applied: bool) {
    hide Corrected, FirstPlane;
    && ShapedWork(w) && ShapedPatches(patches)
    && Corrected(FirstPlane(c, k, applied), ZeroFor(c, w), patches) == FirstPlane(c, k, !applied)
  }

  // The toggle takes plane 0 from plain to corrected and back.
  lemma CorrectionToggles(c: Config, k: nat, w: Work, patches: seq<Patch>, applied: bool)
    requires WorkOk(c, w) && w.zeroReady && PatchesOk(c, k, patches)
    ensures Corrects(c, k, w, patches, applied)
  {
    hide Corrected, Image, Difference, BasisWire, GroupOf, WhiteOutside, InsideMap, Good, KeyOk, RasterOf, Cut, PatchesUpTo;
    var gr := GroupOf(c, k);
    assert ZeroFor(c, w) == ZeroIf(c.printer, gr);
    assert GroupPatches(c.printer, gr) == patches;
    if applied {
      CorrectedTwice(BasisImage(c.printer, gr, 0), ZeroIf(c.printer, gr), Difference(c.printer, gr));
    }
  }

  lemma ToggleKeepsSlot(c: Config, g: Slot, planes: seq<Bytes>, w: Work, applied: bool)
    requires WorkOk(c, w) && w.zeroReady && SlotOk(c, g, planes) && g.state == Playing && g.applied != applied
    ensures ShapedPlanes(planes) && ShapedPatches(g.patches)
    ensures SlotOk(c, g.(applied := applied), planes[0 := Corrected(planes[0], ZeroFor(c, w), g.patches)])
  {
    hide Corrected, MemberImage, FirstPlane, InsideMap, Good, WorkOk, WhiteOutside, Cut, PatchesOk;
    var k := g.ordinal - 1;
    CorrectionToggles(c, k, w, g.patches, g.applied);
    if !applied {
      MemberWhite(c, k, 0);
      assert FirstPlane(c, k, false) == MemberImage(c, k, 0) by { PlainFirst(c, k); }
    }
  }

  lemma PlainFirst(c: Config, k: nat)
    ensures FirstPlane(c, k, false) == MemberImage(c, k, 0)
  {}

  // Released: a restored group leaves a white slot.
  lemma ReleaseKeepsSlot(c: Config, g: Slot, planes: seq<Bytes>)
    requires SlotOk(c, g, planes) && !g.applied
    ensures SlotOk(c, g.(state := Free), planes)
  {
    hide WhiteOutside;
  }

  lemma StartKeepsSlot(c: Config, g: Slot, planes: seq<Bytes>)
    requires SlotOk(c, g, planes) && g.state == Ready
    ensures SlotOk(c, g.(state := Playing), planes)
  {
    hide WhiteOutside, MemberImage, FirstPlane, PatchesOk;
  }

  lemma AllWhite(r: Bytes)
    requires WhiteOutside(QR, r)
    ensures WhiteRest(false, [r, r, r, r])
  {
    hide Inside;
  }

  lemma FreeKeepsSlot(c: Config, g: Slot, planes: seq<Bytes>, r: Bytes)
    requires SlotOk(c, g, planes) && g.state == Free && WhiteOutside(QR, r)
    ensures SlotOk(c, g, [r, r, r, r])
  {
    hide WhiteOutside, WhiteRest, BasisHeld, GroupHeld;
    AllWhite(r);
  }

  // Every symbol of a held group is the scheduled picture: basis planes one at
  // a time, and all planes once the correction is in place.
  lemma HeldSymbol(c: Config, g: Slot, planes: seq<Bytes>, symbol: nat)
    requires GroupHeld(c, g, planes) && symbol <= c.plan.width
    requires symbol == 0 ==> !g.applied
    requires symbol == c.plan.width ==> g.applied
    ensures ShapedPlanes(planes) && Compose(planes, MaskOf(c.plan.width, symbol)) == ImageOf(c, Symbol(c.plan.width, g.ordinal, symbol))
  {
    hide Compose, InsideMap, WhiteOutside, Cut, CorrectedFirst, BasisImage, ParityImage, PatchesOk, Good, FirstPlanes, OnePlane, GroupOf;
    if symbol == c.plan.width {
      ParitySymbol(c.printer, GroupOf(c, g.ordinal - 1), planes);
    } else {
      BasisSymbol(planes, symbol);
    }
  }

  // ----- the screen

  const ALL: seq<bool> := [true, true, true, true]

  // What a selection must show.  PLANE symbols are composed by XOR; a tail is
  // the same picture in all four planes, under the plain palette.
  ghost predicate Pictured(c: Config, planes: seq<Bytes>, mask: seq<bool>, shown: Shown) {
    && ShapedPlanes(planes) && |mask| == PLANES
    && match shown
       case Tail(i) => mask == ALL && forall p :: 0 <= p < PLANES ==> planes[p] == TailImage(c, i)
       case _ => Compose(planes, mask) == ImageOf(c, shown)
  }

  // The screen shows the last scheduled symbol, and nothing was ever changed
  // under a selection.
  ghost predicate ScreenOk(c: Config, sc: Screen, log: seq<Shown>) {
    && ShapedScreen(sc) && sc.integrity
    && (log == [] ==> sc.mask == DARK)
    && (log != [] ==> Compose(sc.planes[sc.slot], sc.mask) == sc.expected
                      && Pictured(c, sc.planes[sc.slot], sc.mask, log[|log| - 1]))
  }

  // A write is hidden when its slot is not selected or its plane is disabled.
  lemma HiddenWrite(c: Config, sc: Screen, log: seq<Shown>, s: nat, p: nat, r: Bytes)
    requires ScreenOk(c, sc, log) && s < SLOTS && p < PLANES && |r| == RASTER
    requires s != sc.slot || !sc.mask[p]
    ensures ScreenOk(c, Written(sc, s, p, r), log)
  {
    hide ImageOf, TailImage;
    var t := Written(sc, s, p, r);
    if s == sc.slot {
      ComposeSame(sc.planes[s], t.planes[s], sc.mask, PLANES);
    }
    hide ComposeUpTo;
  }

  lemma SelectionShows(c: Config, sc: Screen, log: seq<Shown>, s: nat, mask: seq<bool>, shown: Shown)
    requires ShapedScreen(sc) && sc.integrity && s < SLOTS && Pictured(c, sc.planes[s], mask, shown)
    ensures ScreenOk(c, Selected(sc, s, mask), log + [shown])
  {
    hide ImageOf, Compose, Pictured;
    assert |mask| == PLANES by { PicturedShape(c, sc.planes[s], mask, shown); }
  }

  lemma PicturedShape(c: Config, planes: seq<Bytes>, mask: seq<bool>, shown: Shown)
    requires Pictured(c, planes, mask, shown)
    ensures |mask| == PLANES
  {}
}
