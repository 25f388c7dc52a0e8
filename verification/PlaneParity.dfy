// main.c: the parity symbol of a PLANE group.  Three or four basis rasters are
// resident in one slot; XORing a short header correction into plane 0 makes the
// composition of all of them the raster of the separately encoded parity frame.

module PlaneParity {
  import opened Gf2
  import opened Protocol
  import opened Whitening
  import opened V40L
  import opened Raster
  import opened Correction
  import opened Repair
  import opened Vga

  // The symbol printer: the step table of the encoder, the placement map and
  // the function modules under the fixed mask.
  datatype Printer = Printer(table: seq<Bytes>, map32: seq<Entry>, template: Bytes)

  ghost predicate Good(q: Printer)
    ensures Good(q) ==> ShapedTable(q.table) && ShapedMap(q.map32) && |q.template| == RASTER
  {
    TableShapeIf(q.table);
    LinearTable(q.table) && ShapedMap(q.map32) && |q.template| == RASTER
  }

  lemma TableShapeIf(t: seq<Bytes>)
    ensures LinearTable(t) ==> ShapedTable(t)
  {
    if LinearTable(t) { TableShape(t); }
  }

  // The data modules of a symbol, and the whole symbol.
  ghost function Ink(q: Printer, data: Bytes): (r: Bytes)
    requires Good(q) && |data| == DATA_CODEWORDS
    ensures |r| == RASTER
  {
    Scatter(q.map32, Codewords(q.table, data))
  }

  ghost function Image(q: Printer, data: Bytes): (r: Bytes)
    requires Good(q) && |data| == DATA_CODEWORDS
    ensures |r| == RASTER
  {
    Canonical(q.template, q.map32, Codewords(q.table, data))
  }

  lemma ImageIs(q: Printer, data: Bytes)
    requires Good(q) && |data| == DATA_CODEWORDS
    ensures Image(q, data) == Xor(q.template, Ink(q, data))
  {}

  lemma InkXor(q: Printer, a: Bytes, b: Bytes)
    requires Good(q) && |a| == |b| == DATA_CODEWORDS
    ensures Ink(q, Xor(a, b)) == Xor(Ink(q, a), Ink(q, b))
  {
    hide Xor, Codewords, Scatter, LinearTable, ShapedMap;
    EncodeXor(q.table, a, b);
    ScatterXor(q.map32, Codewords(q.table, a), Codewords(q.table, b));
  }

  lemma InkNone(q: Printer)
    requires Good(q)
    ensures Ink(q, Zeros(DATA_CODEWORDS)) == Zeros(RASTER)
  {
    hide Xor, Ink, Good;
    var z := Zeros(DATA_CODEWORDS);
    InkXor(q, z, z);
    XorSelf(z);
    XorSelf(Ink(q, z));
  }

  predicate DataBlocks(list: seq<Bytes>) {
    forall i :: 0 <= i < |list| ==> |list[i]| == DATA_CODEWORDS
  }

  ghost function Inks(q: Printer, list: seq<Bytes>): (r: seq<Bytes>)
    requires Good(q) && DataBlocks(list)
    ensures |r| == |list| && forall i :: 0 <= i < |r| ==> |r[i]| == RASTER && r[i] == Ink(q, list[i])
  {
    seq(|list|, i requires 0 <= i < |list| => Ink(q, list[i]))
  }

  ghost function Images(q: Printer, list: seq<Bytes>): (r: seq<Bytes>)
    requires Good(q) && DataBlocks(list)
    ensures |r| == |list| && forall i :: 0 <= i < |r| ==> |r[i]| == RASTER && r[i] == Image(q, list[i])
  {
    seq(|list|, i requires 0 <= i < |list| => Image(q, list[i]))
  }

  lemma {:induction false} InksXorAll(q: Printer, list: seq<Bytes>)
    requires Good(q) && DataBlocks(list)
    ensures XorAll(Inks(q, list), RASTER) == Ink(q, XorAll(list, DATA_CODEWORDS))
  {
    hide Xor, Ink, Good;
    if list == [] {
      InkNone(q);
    } else {
      var k := |list| - 1;
      InksXorAll(q, list[..k]);
      assert Inks(q, list)[..k] == Inks(q, list[..k]);
      InkXor(q, XorAll(list[..k], DATA_CODEWORDS), list[k]);
    }
  }

  // XORing whole symbols: an odd number of templates survives, an even number
  // cancels, and the ink is that of the XORed data.
  lemma ImagesXorAll(q: Printer, list: seq<Bytes>)
    requires Good(q) && DataBlocks(list)
    ensures XorAll(Images(q, list), RASTER)
         == if |list| % 2 == 1 then Image(q, XorAll(list, DATA_CODEWORDS)) else Ink(q, XorAll(list, DATA_CODEWORDS))
  {
    hide Xor, Ink, Image, Canonical, XorAll, Zeros;
    var templates := seq(|list|, _ => q.template);
    var ink := Ink(q, XorAll(list, DATA_CODEWORDS));
    assert |q.template| == RASTER by { GoodShape(q); }
    hide Good;
    forall i | 0 <= i < |list| ensures Images(q, list)[i] == Xor(templates[i], Inks(q, list)[i]) {
      ImageIs(q, list[i]);
    }
    XorAllZip(templates, Inks(q, list), RASTER, Images(q, list));
    InksXorAll(q, list);
    XorAllSame(templates, q.template);
    ImageIs(q, XorAll(list, DATA_CODEWORDS));
    XorComm(Zeros(RASTER), ink);
    XorZero(ink);
  }

  lemma GoodShape(q: Printer)
    requires Good(q)
    ensures |q.template| == RASTER
  {}

  // ----- the frames of a group

  datatype Group = Group(session: U32, window: U32, start: U32, windowIndex: U16, windowCount: U16,
                         records: seq<Bytes>)

  predicate GoodGroup(g: Group) {
    (|g.records| == 3 || |g.records| == 4) && forall i :: 0 <= i < |g.records| ==> |g.records[i]| == PAYLOAD
  }

  const COEFFICIENTS: seq<U8> := [1, 2, 4, 8]

  // dos32_plane_frame.
  function PlaneFrame(g: Group, coefficient: U8, payload: Bytes): Frame
    requires GoodGroup(g)
  {
    var flags := if |g.records| == 4 && coefficient == 15 then 0 else FLAG_PLANE_WHITENED;
    Frame(PLANE_CODED, flags, g.session, g.window, coefficient, g.windowIndex, g.windowCount,
          g.start, |g.records|, payload)
  }

  // dos32_frame.
  function Wire(f: Frame): (r: Bytes)
    requires |f.payload| == PAYLOAD
    ensures |r| == HEADER + PAYLOAD
  {
    Sealed(f, Whiten(f.payload, Seeds(f)))
  }

  function Input(wire: Bytes): (r: Bytes)
    requires |wire| == HEADER + PAYLOAD
    ensures |r| == DATA_CODEWORDS
  {
    PREFIX + wire
  }

  function BasisWire(g: Group, i: nat): (r: Bytes)
    requires GoodGroup(g) && i < |g.records|
    ensures |r| == HEADER + PAYLOAD
  {
    Wire(PlaneFrame(g, COEFFICIENTS[i], g.records[i]))
  }

  function ParityWire(g: Group): (r: Bytes)
    requires GoodGroup(g)
    ensures |r| == HEADER + PAYLOAD
  {
    Wire(PlaneFrame(g, if |g.records| == 3 then 7 else 15, XorAll(g.records, PAYLOAD)))
  }

  function BasisWires(g: Group, n: nat): (r: seq<Bytes>)
    requires GoodGroup(g) && n <= |g.records|
    ensures |r| == n && forall i :: 0 <= i < n ==> |r[i]| == HEADER + PAYLOAD && r[i] == BasisWire(g, i)
  {
    seq(n, i requires 0 <= i < n => BasisWire(g, i))
  }

  function BasisInputs(g: Group): (r: seq<Bytes>)
    requires GoodGroup(g)
    ensures |r| == |g.records| && DataBlocks(r)
    ensures forall i :: 0 <= i < |r| ==> r[i] == Input(BasisWire(g, i))
  {
    seq(|g.records|, i requires 0 <= i < |g.records| => Input(BasisWire(g, i)))
  }

  // The seed shared by every whitened frame of the group.
  function GroupSeed(g: Group): Word {
    Seed(ToWord(g.session), ToWord(g.start))
  }

  lemma WhitenedFrame(g: Group, coefficient: U8, payload: Bytes)
    requires GoodGroup(g) && |payload| == PAYLOAD
    ensures var f := PlaneFrame(g, coefficient, payload);
            Wire(f)[HEADER..] == Whiten(payload, if f.flags == 0 then [] else [GroupSeed(g)])
  {
    hide Whiten, ToWord, Seed;
    var f := PlaneFrame(g, coefficient, payload);
    FlagBits();
    assert Seeds(f) == if f.flags == 0 then [] else [GroupSeed(g)];
  }

  lemma FlagBits()
    ensures Has(FLAG_PLANE_WHITENED, FLAG_PLANE_WHITENED) && !Has(FLAG_PLANE_WHITENED, FLAG_GROUP_XOR_WHITENED)
    ensures !Has(0, FLAG_PLANE_WHITENED) && !Has(0, FLAG_GROUP_XOR_WHITENED) && !Has(0, FLAG_PAIR_WHITENED) && !Has(0, FLAG_WHITENED)
  {}

  lemma WhitenNone(data: Bytes)
    ensures Whiten(data, []) == data
  {
    hide Xor, Stream;
    StreamNone(|data|);
    XorZero(data);
  }

  function Payloads(wires: seq<Bytes>): (r: seq<Bytes>)
    requires forall i :: 0 <= i < |wires| ==> |wires[i]| == HEADER + PAYLOAD
    ensures |r| == |wires| && forall i :: 0 <= i < |r| ==> |r[i]| == PAYLOAD && r[i] == wires[i][HEADER..]
  {
    seq(|wires|, i requires 0 <= i < |wires| => wires[i][HEADER..])
  }

  function Headers(wires: seq<Bytes>): (r: seq<Bytes>)
    requires forall i :: 0 <= i < |wires| ==> |wires[i]| == HEADER + PAYLOAD
    ensures |r| == |wires| && forall i :: 0 <= i < |r| ==> |r[i]| == HEADER && r[i] == wires[i][..HEADER]
  {
    seq(|wires|, i requires 0 <= i < |wires| => wires[i][..HEADER])
  }

  lemma {:induction false} WiresXorAll(wires: seq<Bytes>)
    requires forall i :: 0 <= i < |wires| ==> |wires[i]| == HEADER + PAYLOAD
    ensures XorAll(wires, HEADER + PAYLOAD) == XorAll(Headers(wires), HEADER) + XorAll(Payloads(wires), PAYLOAD)
  {
    hide Xor;
    if wires != [] {
      var k := |wires| - 1;
      WiresXorAll(wires[..k]);
      assert Headers(wires)[..k] == Headers(wires[..k]);
      assert Payloads(wires)[..k] == Payloads(wires[..k]);
      assert wires[k] == wires[k][..HEADER] + wires[k][HEADER..];
      XorConcat(XorAll(Headers(wires[..k]), HEADER), XorAll(Payloads(wires[..k]), PAYLOAD), wires[k][..HEADER], wires[k][HEADER..]);
    }
  }

  // The parity frame carries exactly the XOR of the members' wire payloads.
  lemma ParityPayload(g: Group)
    requires GoodGroup(g)
    ensures ParityWire(g)[HEADER..] == XorAll(Payloads(BasisWires(g, |g.records|)), PAYLOAD)
  {
    hide Wire, Whiten, GroupSeed, XorAll, FLAG_PLANE_WHITENED;
    var n := |g.records|;
    var all := XorAll(g.records, PAYLOAD);
    var coefficient: U8 := if n == 3 then 7 else 15;
    WhitenedFrame(g, coefficient, all);
    PlaneParityPayload(g.records, GroupSeed(g), PAYLOAD);
    var each := WhitenEach(g.records, seq(n, _ => GroupSeed(g)));
    forall i | 0 <= i < n ensures Payloads(BasisWires(g, n))[i] == each[i] {
      WhitenedFrame(g, COEFFICIENTS[i], g.records[i]);
      NonZeroFlag();
    }
    assert Payloads(BasisWires(g, n)) == each;
    NonZeroFlag();
    WhitenNone(all);
  }

  lemma NonZeroFlag()
    ensures FLAG_PLANE_WHITENED != 0
  {}

  // The header bytes in which the parity frame differs from the members' XOR.
  function HeaderDelta(g: Group): (r: Bytes)
    requires GoodGroup(g)
    ensures |r| == HEADER
  {
    hide ParityWire, BasisWire, Xor, XorAll;
    Xor(ParityWire(g)[..HEADER], XorAll(Headers(BasisWires(g, |g.records|)), HEADER))
  }

  // Encoder input of the parity frame = XOR of the members' inputs, plus the
  // header difference, plus the symbol prefix when it cancelled.
  lemma ParityInput(g: Group)
    requires GoodGroup(g)
    ensures var members := XorAll(BasisInputs(g), DATA_CODEWORDS);
            var delta := if |g.records| == 3 then Zeros(4) + HeaderDelta(g) + Zeros(PAYLOAD) else HeaderData(HeaderDelta(g));
            Input(ParityWire(g)) == Xor(members, delta)
  {
    hide Wire, XorAll, Zeros, Xor, PREFIX, BasisWire, ParityWire;
    var n := |g.records|;
    var wires := BasisWires(g, n);
    var h, p := XorAll(Headers(wires), HEADER), XorAll(Payloads(wires), PAYLOAD);
    forall i | 0 <= i < n ensures BasisInputs(g)[i] == PREFIX + wires[i] {}
    InputsXorAll(wires, BasisInputs(g));
    WiresXorAll(wires);
    ParityPayload(g);
    var hp := ParityWire(g)[..HEADER];
    assert ParityWire(g) == hp + p;
    PartsXor(n % 2 == 1, h, p, hp, HeaderDelta(g));
  }

  lemma PartsXor(odd: bool, h: Bytes, p: Bytes, hp: Bytes, d: Bytes)
    requires |h| == |hp| == HEADER && |p| == PAYLOAD && d == Xor(hp, h)
    ensures |PREFIX| == 4
    ensures Xor((if odd then PREFIX else Zeros(4)) + (h + p), (if odd then Zeros(4) else PREFIX) + d + Zeros(PAYLOAD)) == PREFIX + (hp + p)
  {
    hide Zeros, Xor, PREFIX;
    PrefixLength();
    var a, b := if odd then PREFIX else Zeros(4), if odd then Zeros(4) else PREFIX;
    XorConcat(a, h + p, b, d + Zeros(PAYLOAD));
    XorConcat(h, p, d, Zeros(PAYLOAD));
    XorZero(p);
    XorComm(h, d);
    XorCancel(hp, h);
    XorZero(PREFIX);
    XorComm(Zeros(4), PREFIX);
    assert b + d + Zeros(PAYLOAD) == b + (d + Zeros(PAYLOAD));
  }

  lemma PrefixLength()
    ensures |PREFIX| == 4
  {}

  lemma {:induction false} InputsXorAll(wires: seq<Bytes>, inputs: seq<Bytes>)
    requires |inputs| == |wires|
    requires forall i :: 0 <= i < |wires| ==> |wires[i]| == HEADER + PAYLOAD && inputs[i] == PREFIX + wires[i]
    ensures DataBlocks(inputs)
    ensures XorAll(inputs, DATA_CODEWORDS)
         == (if |wires| % 2 == 1 then PREFIX else Zeros(4)) + XorAll(wires, HEADER + PAYLOAD)
  {
    hide Xor, PREFIX;
    PrefixLength();
    if wires == [] {
      assert Zeros(DATA_CODEWORDS) == Zeros(4) + Zeros(HEADER + PAYLOAD);
    } else {
      var k := |wires| - 1;
      InputsXorAll(wires[..k], inputs[..k]);
      var a := if k % 2 == 1 then PREFIX else Zeros(4);
      XorConcat(a, XorAll(wires[..k], HEADER + PAYLOAD), PREFIX, wires[k]);
      XorSelf(PREFIX);
      XorZero(PREFIX);
      XorComm(PREFIX, Zeros(4));
    }
  }

  // ----- the correction

  // What is XORed into plane 0, without the zero raster.
  ghost function Difference(q: Printer, g: Group): (r: Bytes)
    requires Good(q) && GoodGroup(g)
    ensures |r| == RASTER
  {
    Scatter(q.map32, Xor(Codewords(q.table, HeaderData(HeaderDelta(g))), Codewords(q.table, HeaderData(Zeros(HEADER)))))
  }

  ghost function ZeroRaster(q: Printer): (r: Bytes)
    requires Good(q)
    ensures |r| == RASTER
  {
    Image(q, HeaderData(Zeros(HEADER)))
  }

  lemma DifferenceIsInk(q: Printer, g: Group)
    requires Good(q) && GoodGroup(g)
    ensures Difference(q, g) == Xor(Ink(q, HeaderData(HeaderDelta(g))), Ink(q, HeaderData(Zeros(HEADER))))
  {
    hide Xor, Codewords, HeaderData, Zeros, HeaderDelta, LinearTable, ShapedMap, ScatterUpTo;
    ScatterXor(q.map32, Codewords(q.table, HeaderData(HeaderDelta(g))), Codewords(q.table, HeaderData(Zeros(HEADER))));
  }

  lemma HeaderDataXor(h: Bytes)
    requires |h| == HEADER
    ensures Xor(HeaderData(h), HeaderData(Zeros(HEADER))) == Zeros(4) + h + Zeros(PAYLOAD)
  {
    hide Xor, PREFIX;
    PrefixLength();
    XorConcat(PREFIX + h, Zeros(PAYLOAD), PREFIX + Zeros(HEADER), Zeros(PAYLOAD));
    XorConcat(PREFIX, h, PREFIX, Zeros(HEADER));
    XorSelf(PREFIX);
    XorZero(h);
    XorZero(Zeros(PAYLOAD));
  }

  // The whole claim on rasters: the members' XOR, the difference, and for an
  // even width the zero raster, make the parity symbol.
  lemma CorrectionIsExact(q: Printer, g: Group)
    requires Good(q) && GoodGroup(g)
    ensures var members := XorAll(Images(q, BasisInputs(g)), RASTER);
            var base := if |g.records| == 4 then Xor(members, ZeroRaster(q)) else members;
            Xor(base, Difference(q, g)) == Image(q, Input(ParityWire(g)))
  {
    hide Good, GoodGroup, Xor, XorAll, Ink, Image, Images, Difference, HeaderData, ParityWire, HeaderDelta, Zeros;
    GroupWidth(g);
    GoodShape(q);
    var inputs := BasisInputs(g);
    var sum := XorAll(inputs, DATA_CODEWORDS);
    var hd, zero := HeaderData(HeaderDelta(g)), HeaderData(Zeros(HEADER));
    ImagesXorAll(q, inputs);
    ParityInput(g);
    DifferenceIsInk(q, g);
    ImageIs(q, Input(ParityWire(g)));
    if |g.records| == 3 {
      HeaderDataXor(HeaderDelta(g));
      InkXor(q, hd, zero);
      SurvivingTemplate(q, sum, Xor(hd, zero));
    } else {
      InkXor(q, sum, hd);
      ImageIs(q, zero);
      TemplateBack(q.template, Ink(q, sum), Ink(q, zero), Ink(q, hd));
    }
  }

  // A surviving template only needs the ink of the difference.
  lemma SurvivingTemplate(q: Printer, a: Bytes, d: Bytes)
    requires Good(q) && |a| == |d| == DATA_CODEWORDS
    ensures Xor(Image(q, a), Ink(q, d)) == Image(q, Xor(a, d))
  {
    hide Good, Xor, Ink, Image;
    GoodShape(q);
    InkXor(q, a, d);
    ImageIs(q, a);
    ImageIs(q, Xor(a, d));
    XorAssoc(q.template, Ink(q, a), Ink(q, d));
  }

  // The zero raster brings back the template and the zero ink cancels.
  lemma TemplateBack(t: Bytes, s: Bytes, z: Bytes, h: Bytes)
    requires |t| == |s| == |z| == |h|
    ensures Xor(Xor(s, Xor(t, z)), Xor(h, z)) == Xor(t, Xor(s, h))
  {
    hide Xor;
    XorComm(s, Xor(t, z));
    XorAssoc(t, z, s);
    XorComm(z, s);
    XorAssoc(t, Xor(s, z), Xor(h, z));
    XorCross(s, z, h, z);
    XorSelf(z);
    XorZero(Xor(s, h));
  }

  lemma GroupWidth(g: Group)
    requires GoodGroup(g)
    ensures |g.records| == 3 || |g.records| == 4
  {}

  // ----- composition of a slot

  function FirstPlanes(w: nat): (r: seq<bool>)
    ensures |r| == PLANES
  {
    seq(PLANES, i => i < w)
  }

  lemma {:induction false} ComposeFirst(planes: seq<Bytes>, w: nat, n: nat)
    requires |planes| == PLANES && (forall p :: 0 <= p < PLANES ==> |planes[p]| == RASTER) && w <= PLANES && n <= PLANES
    ensures ComposeUpTo(planes, FirstPlanes(w), n) == XorAll(planes[..if n < w then n else w], RASTER)
    decreases n
  {
    hide Xor;
    if n > 0 {
      ComposeFirst(planes, w, n - 1);
      if n <= w {
        assert planes[..n][..n - 1] == planes[..n - 1];
      }
    }
  }

  // Changing one summand by d changes the sum by d.
  lemma {:induction false} XorAllChange(list: seq<Bytes>, d: Bytes)
    requires |list| > 0 && forall i :: 0 <= i < |list| ==> |list[i]| == |d|
    ensures XorAll(list[0 := Xor(list[0], d)], |d|) == Xor(XorAll(list, |d|), d)
  {
    hide Xor;
    var k := |list| - 1;
    var changed := list[0 := Xor(list[0], d)];
    if k == 0 {
      XorAllOne(list, |d|);
      XorAllOne(changed, |d|);
    } else {
      XorAllChange(list[..k], d);
      assert changed[..k] == list[..k][0 := Xor(list[0], d)];
      var rest := XorAll(list[..k], |d|);
      XorAssoc(rest, d, list[k]);
      XorComm(d, list[k]);
      XorAssoc(rest, list[k], d);
    }
  }

  lemma XorAllOne(list: seq<Bytes>, n: nat)
    requires |list| == 1 && |list[0]| == n
    ensures XorAll(list, n) == list[0]
  {
    hide Xor;
    assert XorAll(list[..0], n) == Zeros(n);
    XorComm(Zeros(n), list[0]);
    XorZero(list[0]);
  }

  ghost function BasisImage(q: Printer, g: Group, i: nat): (r: Bytes)
    requires Good(q) && GoodGroup(g) && i < |g.records|
    ensures |r| == RASTER
  {
    Image(q, Input(BasisWire(g, i)))
  }

  ghost function ParityImage(q: Printer, g: Group): (r: Bytes)
    requires Good(q) && GoodGroup(g)
    ensures |r| == RASTER
  {
    Image(q, Input(ParityWire(g)))
  }

  ghost function ZeroIf(q: Printer, g: Group): (z: Option<Bytes>)
    requires Good(q)
    ensures z.Some? ==> |z.value| == RASTER
  {
    if |g.records| == 4 then Some(ZeroRaster(q)) else None
  }

  ghost function GroupPatches(q: Printer, g: Group): (p: seq<Patch>)
    requires Good(q) && GoodGroup(g)
    ensures ShapedPatches(p)
  {
    PatchesUpTo(Difference(q, g), RASTER)
  }

  ghost function CorrectedFirst(q: Printer, g: Group): (r: Bytes)
    requires Good(q) && GoodGroup(g)
    ensures |r| == RASTER
  {
    hide *;
    GroupWidth(g);
    Corrected(BasisImage(q, g, 0), ZeroIf(q, g), GroupPatches(q, g))
  }

  // At the parity symbol a slot that holds the basis rasters, with the
  // correction applied to plane 0, shows exactly the raster of the parity frame.
  lemma ParitySymbol(q: Printer, g: Group, planes: seq<Bytes>)
    requires Good(q) && GoodGroup(g)
    requires |planes| == PLANES && forall p :: 0 <= p < PLANES ==> |planes[p]| == RASTER
    requires planes[0] == CorrectedFirst(q, g)
    requires forall p :: 1 <= p < |g.records| ==> planes[p] == BasisImage(q, g, p)
    ensures Compose(planes, FirstPlanes(|g.records|)) == ParityImage(q, g)
  {
    hide Good, Xor, XorAll, Image, Difference, Applied, PatchesUpTo, BasisWire, ParityWire, Input, Zeros;
    var n := |g.records|;
    var images := Images(q, BasisInputs(g));
    var z := ZeroIf(q, g);
    var d := Difference(q, g);
    var base := if z.Some? then Xor(images[0], z.value) else images[0];
    AppliedIsXor(d, base);
    assert planes[0] == Xor(base, d);
    ComposeFirst(planes, n, PLANES);
    assert planes[..n] == images[0 := planes[0]];
    if z.Some? {
      XorAllChange(images, z.value);
      var mid := images[0 := base];
      XorAllChange(mid, d);
      assert mid[0 := Xor(base, d)] == images[0 := planes[0]];
    } else {
      XorAllChange(images, d);
    }
    CorrectionIsExact(q, g);
  }

  // One enabled plane shows that plane.
  lemma BasisSymbol(planes: seq<Bytes>, p: nat)
    requires |planes| == PLANES && (forall i :: 0 <= i < PLANES ==> |planes[i]| == RASTER) && p < PLANES
    ensures Compose(planes, OnePlane(p)) == planes[p]
  {
    hide Xor;
    var m := OnePlane(p);
    XorComm(Zeros(RASTER), planes[p]);
    XorZero(planes[p]);
    assert ComposeUpTo(planes, m, 0) == Zeros(RASTER);
    assert ComposeUpTo(planes, m, 1) == if p == 0 then planes[p] else Zeros(RASTER);
    assert ComposeUpTo(planes, m, 2) == if p <= 1 then planes[p] else Zeros(RASTER);
    assert ComposeUpTo(planes, m, 3) == if p <= 2 then planes[p] else Zeros(RASTER);
  }

  function OnePlane(p: nat): (r: seq<bool>)
    ensures |r| == PLANES
  {
    seq(PLANES, i => i == p)
  }
}
