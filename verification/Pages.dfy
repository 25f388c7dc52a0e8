// vga.c of dos_sender_legacy: the RAM shadow, the two display pages and the
// uploads between them.  A recurring upload copies only the QR strip, and the
// status rows when their contents changed.

module Pages {
  import opened Gf2
  import opened Protocol
  import opened V40L
  import opened Raster
  import opened Repair
  import opened StripeScatter

  const STRIP_ROWS: nat := 185
  const STATUS_ROW: nat := 192
  const CHARS: nat := 40

  // Rows 0..184, bytes 8..31.
  predicate InStrip(i: nat) {
    i / 40 < STRIP_ROWS && 8 <= i % 40 < 32
  }

  predicate InStatus(i: nat) {
    i >= STATUS_ROW * 40
  }

  function Background(inverted: bool): Byte {
    if inverted then 0x00 else 0xFF
  }

  function Flip(b: Byte): Byte { !b }

  predicate StripMap(m: seq<Entry>) {
    ShapedMap(m) && forall i :: 0 <= i < |m| ==> InStrip(m[i].offset)
  }

  // A status line: nothing, or a text drawn with the 8x8 font when there is one.
  type Font = seq<Byte>

  function StatusByte(font: Font, text: Option<Bytes>, inverted: bool, i: nat): Byte
    requires |font| == 2048 && STATUS_ROW * 40 <= i < RASTER
  {
    var x, y := i % 40, i / 40 - STATUS_ROW;
    if text.Some? && x < |text.value| then
      var glyph := font[Val(text.value[x]) * 8 + y];
      if inverted then glyph else Flip(glyph)
    else Background(inverted)
  }

  // The whole raster a status line leaves.
  ghost predicate StatusDrawn(before: Bytes, after: Bytes, font: Font, text: Option<Bytes>, inverted: bool) {
    && |font| == 2048 && |before| == |after| == RASTER
    && forall i :: 0 <= i < RASTER ==> after[i] == if InStatus(i) then StatusByte(font, text, inverted, i) else before[i]
  }

  // status_text_buffer.
  method DrawStatus(screen: array<Byte>, font: Font, text: Option<Bytes>, inverted: bool)
    requires screen.Length == RASTER && |font| == 2048
    modifies screen
    ensures StatusDrawn(old(screen[..]), screen[..], font, text, inverted)
  {
    hide Flip, Val;
    for i := STATUS_ROW * 40 to RASTER
      invariant forall k :: 0 <= k < RASTER ==> screen[k] == if STATUS_ROW * 40 <= k < i then Background(inverted) else old(screen[k])
    {
      screen[i] := Background(inverted);
    }
    if text.None? { return; }
    var x := 0;
    while x < |text.value| && x < CHARS
      invariant x <= |text.value| && x <= CHARS
      invariant forall k :: 0 <= k < RASTER ==>
                  screen[k] == if !InStatus(k) then old(screen[k])
                               else if k % 40 < x then StatusByte(font, text, inverted, k) else Background(inverted)
    {
      for y := 0 to 8
        invariant forall k :: 0 <= k < RASTER ==>
                    screen[k] == if !InStatus(k) then old(screen[k])
                                 else if k % 40 < x || (k % 40 == x && k / 40 < STATUS_ROW + y) then StatusByte(font, text, inverted, k)
                                 else Background(inverted)
      {
        var at := (STATUS_ROW + y) * 40 + x;
        RowColumn(STATUS_ROW + y, x);
        var glyph := font[Val(text.value[x]) * 8 + y];
        screen[at] := if inverted then glyph else Flip(glyph);
      }
      x := x + 1;
    }
  }

  lemma RowColumn(row: nat, col: nat)
    requires col < 40
    ensures (row * 40 + col) / 40 == row && (row * 40 + col) % 40 == col
  {}

  const BW_MASK: seq<bool> := [true, true, true, true]
  const SPARE_MASK: seq<bool> := [false, false, false, true]

  // Map mask of a colour channel: red in plane 2, green in 1, blue in 0.
  function ChannelMask(ch: nat): (r: seq<bool>)
    ensures |r| == 4
  {
    [ch == 2, ch == 1, ch == 0, false]
  }

  lemma StatusOutside(i: nat)
    ensures InStatus(i) ==> !InStrip(i)
  {}

  function Blank(inverted: bool): (r: Bytes)
    ensures |r| == RASTER && forall i :: 0 <= i < RASTER ==> r[i] == Background(inverted)
  {
    seq(RASTER, _ => Background(inverted))
  }

  // A strip copy over `before`, and a status copy.
  function StripOver(before: Bytes, src: Bytes): (r: Bytes)
    requires |before| == |src| == RASTER
    ensures |r| == RASTER && forall i :: 0 <= i < RASTER ==> r[i] == if InStrip(i) then src[i] else before[i]
  {
    seq(RASTER, i requires 0 <= i < RASTER => if InStrip(i) then src[i] else before[i])
  }

  function StatusOver(before: Bytes, src: Bytes): (r: Bytes)
    requires |before| == |src| == RASTER
    ensures |r| == RASTER && forall i :: 0 <= i < RASTER ==> r[i] == if InStatus(i) then src[i] else before[i]
  {
    seq(RASTER, i requires 0 <= i < RASTER => if InStatus(i) then src[i] else before[i])
  }

  // Blank outside strip and status rows.
  predicate BlankRest(r: Bytes, inverted: bool) {
    |r| == RASTER && forall i :: 0 <= i < RASTER && !InStrip(i) && !InStatus(i) ==> r[i] == Background(inverted)
  }

  predicate BlankStatus(r: Bytes, inverted: bool) {
    |r| == RASTER && forall i :: 0 <= i < RASTER && InStatus(i) ==> r[i] == Background(inverted)
  }

  predicate SameStatus(a: Bytes, b: Bytes) {
    |a| == |b| == RASTER && forall i :: 0 <= i < RASTER && InStatus(i) ==> a[i] == b[i]
  }

  predicate SameStrip(a: Bytes, b: Bytes) {
    |a| == |b| == RASTER && forall i :: 0 <= i < RASTER && InStrip(i) ==> a[i] == b[i]
  }

  // The shadow: blank rest, and blank status rows while no status is up.
  predicate ShadowOk(r: Bytes, inverted: bool, active: bool) {
    BlankRest(r, inverted) && (!active ==> BlankStatus(r, inverted))
  }

  // A plane of an initialized page.  `fresh` says its generation is current.
  predicate PlaneOk(r: Bytes, shadow: Bytes, pageInverted: bool, current: bool, inverted: bool, active: bool) {
    && BlankRest(r, pageInverted)
    && (current && !active ==> BlankStatus(r, pageInverted))
    && (current && active && pageInverted == inverted ==> SameStatus(r, shadow))
  }

  lemma ShadowIsPlane(shadow: Bytes, inverted: bool, active: bool)
    requires ShadowOk(shadow, inverted, active)
    ensures PlaneOk(shadow, shadow, inverted, true, inverted, active)
  {
    hide Background, InStrip, InStatus;
  }

  // Where page and shadow agree outside what is copied, the strip is enough.
  lemma StripSuffices(r: Bytes, shadow: Bytes, inverted: bool, active: bool)
    requires ShadowOk(shadow, inverted, active) && PlaneOk(r, shadow, inverted, true, inverted, active)
    ensures StripOver(r, shadow) == shadow
  {
    hide Background, InStrip, InStatus;
    forall i | 0 <= i < RASTER ensures StripOver(r, shadow)[i] == shadow[i] {
      StatusOutside(i);
    }
  }

  lemma StripAndStatusSuffice(r: Bytes, shadow: Bytes, inverted: bool, active: bool, current: bool)
    requires ShadowOk(shadow, inverted, active) && PlaneOk(r, shadow, inverted, current, inverted, active)
    ensures StatusOver(StripOver(r, shadow), shadow) == shadow
  {
    hide Background, InStrip, InStatus;
  }

  lemma FromBlank(shadow: Bytes, inverted: bool, active: bool)
    requires ShadowOk(shadow, inverted, active)
    ensures StatusOver(StripOver(Blank(inverted), shadow), shadow) == shadow
  {
    hide Background, InStrip, InStatus;
  }

  // A status line replaces the status rows and nothing else.
  lemma StatusShadow(before: Bytes, after: Bytes, font: Font, text: Option<Bytes>, inverted: bool, active: bool)
    requires StatusDrawn(before, after, font, text, inverted) && ShadowOk(before, inverted, active)
    ensures ShadowOk(after, inverted, text.Some?) && SameStrip(after, before)
  {
    hide InStrip, Background, Flip;
    forall i | 0 <= i < RASTER ensures InStatus(i) ==> !InStrip(i) {
      StatusOutside(i);
    }
  }

  lemma QuietPlane(r: Bytes, shadow: Bytes, pageInverted: bool, current: bool, inverted: bool)
    requires BlankRest(r, pageInverted) && (current ==> BlankStatus(r, pageInverted))
    ensures PlaneOk(r, shadow, pageInverted, current, inverted, false)
  {}

  // A page of an older generation owes nothing to the status rows.
  lemma StalePlane(r: Bytes, shadow: Bytes, pageInverted: bool, inverted: bool, active: bool)
    requires BlankRest(r, pageInverted)
    ensures PlaneOk(r, shadow, pageInverted, false, inverted, active)
  {}

  lemma BuiltShadow(m: seq<Entry>, f: Bytes, cw: Bytes, inverted: bool, active: bool)
    requires StripMap(m) && |cw| == CODEWORDS && BlankRest(f, inverted) && BlankStatus(f, inverted)
    ensures ShapedMap(m) && ShadowOk(Canonical(f, m, cw), inverted, active)
  {
    hide StripMap, BlankRest, BlankStatus, Xor, Scatter;
    assert |f| == RASTER by { BlankSize(f, inverted); }
    ToggledShadow(m, f, cw, inverted, active);
  }

  lemma BlankSize(r: Bytes, inverted: bool)
    requires BlankRest(r, inverted)
    ensures |r| == RASTER
  {}

  // Pages look at the shadow's status rows only.
  lemma ShadowChange(r: Bytes, shadow: Bytes, other: Bytes, pageInverted: bool, current: bool, inverted: bool, active: bool)
    requires PlaneOk(r, shadow, pageInverted, current, inverted, active) && SameStatus(other, shadow)
    ensures PlaneOk(r, other, pageInverted, current, inverted, active)
  {}

  // The strip after restoring the template and scattering.
  lemma DirectStrip(m: seq<Entry>, r: Bytes, f: Bytes, cw: Bytes, inverted: bool, active: bool)
    requires StripMap(m) && |r| == |f| == RASTER && |cw| == CODEWORDS && ShadowOk(r, inverted, active)
    ensures ShapedMap(m)
    ensures var t := Xor(StripOver(r, f), Scatter(m, cw));
            SameStrip(t, Xor(f, Scatter(m, cw))) && SameStatus(t, r) && ShadowOk(t, inverted, active)
  {
    hide StripMap, InStrip, InStatus, Background, ScatterUpTo, Add;
    StripShape(m);
    var b := StripOver(r, f);
    forall i | 0 <= i < RASTER ensures InStatus(i) ==> !InStrip(i) {
      StatusOutside(i);
    }
    ToggledShadow(m, b, cw, inverted, active);
  }

  // The strip after a delta.
  lemma DeltaStrip(m: seq<Entry>, r: Bytes, f: Bytes, before: Bytes, after: Bytes, inverted: bool, active: bool)
    requires StripMap(m) && ShapedMap(m) && |r| == |f| == RASTER && |before| == |after| == CODEWORDS && ShadowOk(r, inverted, active)
    requires SameStrip(r, Xor(f, Scatter(m, before)))
    ensures var t := Xor(r, Scatter(m, Xor(before, after)));
            SameStrip(t, Xor(f, Scatter(m, after))) && SameStatus(t, r) && ShadowOk(t, inverted, active)
  {
    hide StripMap, ShapedMap, InStrip, InStatus, Background, ScatterUpTo, Add, ShadowOk;
    ToggledShadow(m, r, Xor(before, after), inverted, active);
    DeltaKeepsCanonical(f, m, before, after);
  }

  // ----- the scatter touches the strip only

  lemma {:induction false} SpotsInStrip(m: seq<Entry>, i: nat, v: Byte, n: nat, at: nat)
    requires StripMap(m) && i < CODEWORDS && n <= 8 && at < RASTER && !InStrip(at)
    ensures SpotsUpTo(m, i, v, n)[at] == 0
    decreases n
  {
    hide InStrip, Add, BitOn;
    if n > 0 {
      SpotsInStrip(m, i, v, n - 1, at);
      EntryBound(m, i * 8 + n - 1);
      AddZero();
    }
  }

  lemma {:induction false} ScatterInStrip(m: seq<Entry>, cw: Bytes, n: nat, at: nat)
    requires StripMap(m) && |cw| == CODEWORDS && n <= CODEWORDS && at < RASTER && !InStrip(at)
    ensures ScatterUpTo(m, cw, n)[at] == 0
    decreases n
  {
    hide InStrip, Add, SpotsUpTo;
    if n > 0 {
      ScatterInStrip(m, cw, n - 1, at);
      SpotsInStrip(m, n - 1, cw[n - 1], 8, at);
      AddZero();
    }
  }

  lemma StripOnly(m: seq<Entry>, r: Bytes, cw: Bytes)
    requires StripMap(m) && |r| == RASTER && |cw| == CODEWORDS
    ensures forall i :: 0 <= i < RASTER && !InStrip(i) ==> Xor(r, Scatter(m, cw))[i] == r[i]
  {
    hide InStrip, Add, ScatterUpTo, StripMap;
    StripShape(m);
    AddZero();
    forall i | 0 <= i < RASTER && !InStrip(i) ensures Xor(r, Scatter(m, cw))[i] == r[i] {
      ScatterInStrip(m, cw, CODEWORDS, i);
    }
  }

  lemma StripShape(m: seq<Entry>)
    requires StripMap(m)
    ensures ShapedMap(m)
  {}

  // Toggling inside the strip keeps the blank rest and the status rows.
  lemma ToggledShadow(m: seq<Entry>, r: Bytes, cw: Bytes, inverted: bool, active: bool)
    requires StripMap(m) && |cw| == CODEWORDS && |r| == RASTER
    ensures ShapedMap(m)
    ensures ShadowOk(r, inverted, active) ==> ShadowOk(Xor(r, Scatter(m, cw)), inverted, active)
    ensures SameStatus(Xor(r, Scatter(m, cw)), r)
  {
    hide InStrip, InStatus, Background, Xor, ScatterUpTo, StripMap;
    StripShape(m);
    StripOnly(m, r, cw);
    var t := Xor(r, Scatter(m, cw));
    forall i | 0 <= i < RASTER && InStatus(i) ensures t[i] == r[i] {
      StatusOutside(i);
    }
  }

  // direct_scatter_bw, and each plane of direct_scatter_rgb3: the whole map.
  method DirectScatter(m: seq<Entry>, cw: Bytes, screen: array<Byte>)
    requires ShapedMap(m) && |cw| == CODEWORDS && screen.Length == RASTER
    modifies screen
    ensures screen[..] == Xor(old(screen[..]), Scatter(m, cw))
  {
    hide Add, SpotsUpTo, ShapedMap, ScatterUpTo;
    ScatterRange(m, cw, 0, CODEWORDS, screen);
    forall d | 0 <= d < RASTER ensures screen[d] == Add(old(screen[d]), Scatter(m, cw)[d]) {
      WholeRange(m, cw, d);
    }
  }

  lemma WholeRange(m: seq<Entry>, cw: Bytes, d: nat)
    requires ShapedMap(m) && |cw| == CODEWORDS && d < RASTER
    ensures RangeAt(m, cw, 0, CODEWORDS, d) == Scatter(m, cw)[d]
  {
    hide Add, SpotsUpTo, ShapedMap;
    AddZero();
    assert ScatterUpTo(m, cw, 0) == Zeros(RASTER);
  }

  class Display {
    const rgb: bool
    const map32: seq<Entry>
    const font: Font
    const red: array<Byte>
    const green: array<Byte>
    const blue: array<Byte>
    // Page, plane, byte.
    const vram: array3<Byte>
    var template: Bytes
    var templateReady: bool
    // The function modules of the symbol on screen.
    ghost var functions: Bytes
    var started: bool
    var inverted: bool
    var writePage: nat
    var displayPage: nat
    var pageInitialized: seq<bool>
    var pageInverted: seq<bool>
    var pageGeneration: seq<nat>
    var generation: nat
    var statusActive: bool

    ghost predicate Valid()
      reads this
    {
      && Shaped() && |font| == 2048 && StripMap(map32)
      && |template| == |functions| == RASTER && (templateReady ==> template == functions) && writePage < 2 && displayPage < 2
      && |pageInitialized| == |pageInverted| == |pageGeneration| == 2
      && pageGeneration[0] <= generation && pageGeneration[1] <= generation
    }

    predicate Shaped() {
      && red.Length == green.Length == blue.Length == RASTER && red != green && green != blue && red != blue
      && vram.Length0 == 2 && vram.Length1 == 4 && vram.Length2 == RASTER
    }

    // Memory as it is before a first symbol.
    constructor (colour: bool, m: seq<Entry>, glyphs: Font)
      requires StripMap(m) && |glyphs| == 2048
      ensures Valid() && Clean() && rgb == colour && map32 == m && font == glyphs && !started
      ensures fresh(red) && fresh(green) && fresh(blue) && fresh(vram)
    {
      rgb, map32, font := colour, m, glyphs;
      red, green, blue := new Byte[RASTER], new Byte[RASTER], new Byte[RASTER];
      vram := new Byte[2, 4, RASTER];
      template, functions, templateReady, started, inverted := Zeros(RASTER), Zeros(RASTER), false, false, false;
      writePage, displayPage := 1, 0;
      pageInitialized, pageInverted, pageGeneration := [false, false], [false, false], [0, 0];
      generation, statusActive := 1, false;
    }

    function Plane(p: nat, plane: nat): (r: Bytes)
      requires Shaped() && p < 2 && plane < 4
      reads vram
      ensures |r| == RASTER
    {
      seq(RASTER, i requires 0 <= i < RASTER reads vram => vram[p, plane, i])
    }

    // The shadow that a plane repeats: every plane the only one in
    // monochrome; red, green and blue in planes 2, 1 and 0 in colour, where
    // plane 3 stays clear.
    function ShadowOf(plane: nat): (r: Bytes)
      requires Shaped() && plane < 4
      reads red, green, blue
      ensures |r| == RASTER
    {
      if !rgb || plane == 2 then red[..] else if plane == 1 then green[..] else if plane == 0 then blue[..] else Zeros(RASTER)
    }

    predicate Spare(plane: nat) {
      rgb && plane == 3
    }

    ghost predicate PageOk(p: nat, plane: nat)
      requires Valid() && p < 2 && plane < 4
      reads this, red, green, blue, vram
    {
      if Spare(plane) then Plane(p, plane) == Zeros(RASTER)
      else PlaneOk(Plane(p, plane), ShadowOf(plane), pageInverted[p], pageGeneration[p] == generation, inverted, statusActive)
    }

    ghost predicate Clean()
      requires Valid()
      reads this, red, green, blue, vram
    {
      && (started ==> forall plane :: 0 <= plane < 4 && !Spare(plane) ==> ShadowOk(ShadowOf(plane), inverted, statusActive))
      && (forall p, plane :: 0 <= p < 2 && 0 <= plane < 4 && pageInitialized[p] ==> PageOk(p, plane))
      && (pageInitialized[0] || pageInitialized[1] ==> started)
    }

    // The page shows exactly the shadow.
    ghost predicate Shows(p: nat)
      requires Valid() && p < 2
      reads this, red, green, blue, vram
    {
      forall plane :: 0 <= plane < 4 ==> Plane(p, plane) == ShadowOf(plane)
    }

    // ----- copies to video memory

    // One latch write: the byte reaches every enabled plane.
    method StoreByte(p: nat, mask: seq<bool>, i: nat, b: Byte)
      requires Shaped() && p < 2 && |mask| == 4 && i < RASTER
      modifies vram
      ensures forall q, plane, k :: 0 <= q < 2 && 0 <= plane < 4 && 0 <= k < RASTER ==>
                vram[q, plane, k] == if q == p && mask[plane] && k == i then b else old(vram[q, plane, k])
    {
      for n := 0 to 4
        invariant forall q, plane, k :: 0 <= q < 2 && 0 <= plane < 4 && 0 <= k < RASTER ==>
                    vram[q, plane, k] == if q == p && plane < n && mask[plane] && k == i then b else old(vram[q, plane, k])
      {
        if mask[n] { vram[p, n, i] := b; }
      }
    }

    // dosferCopyFull320.
    method CopyFull(p: nat, mask: seq<bool>, screen: array<Byte>)
      requires Shaped() && p < 2 && |mask| == 4 && screen.Length == RASTER
      modifies vram
      ensures forall q, plane :: 0 <= q < 2 && 0 <= plane < 4 ==>
                Plane(q, plane) == if q == p && mask[plane] then screen[..] else old(Plane(q, plane))
    {
      for i := 0 to RASTER
        invariant forall q, plane, k :: 0 <= q < 2 && 0 <= plane < 4 && 0 <= k < RASTER ==>
                    vram[q, plane, k] == if q == p && mask[plane] && k < i then screen[k] else old(vram[q, plane, k])
      {
        StoreByte(p, mask, i, screen[i]);
      }
    }

    // dosferCopyQr320.
    method CopyQr(p: nat, mask: seq<bool>, screen: array<Byte>)
      requires Shaped() && p < 2 && |mask| == 4 && screen.Length == RASTER
      modifies vram
      ensures forall q, plane :: 0 <= q < 2 && 0 <= plane < 4 ==>
                Plane(q, plane) == if q == p && mask[plane] then StripOver(old(Plane(q, plane)), screen[..]) else old(Plane(q, plane))
    {
      for row := 0 to STRIP_ROWS
        invariant forall q, plane, k :: 0 <= q < 2 && 0 <= plane < 4 && 0 <= k < RASTER ==>
                    vram[q, plane, k] == if q == p && mask[plane] && InStrip(k) && k / 40 < row then screen[k] else old(vram[q, plane, k])
      {
        for col := 8 to 32
          invariant forall q, plane, k :: 0 <= q < 2 && 0 <= plane < 4 && 0 <= k < RASTER ==>
                      vram[q, plane, k] == if q == p && mask[plane] && InStrip(k) && (k / 40 < row || (k / 40 == row && k % 40 < col))
                                           then screen[k] else old(vram[q, plane, k])
        {
          RowColumn(row, col);
          StoreByte(p, mask, row * 40 + col, screen[row * 40 + col]);
        }
      }
    }

    // dosferCopyStatus320.
    method CopyStatus(p: nat, mask: seq<bool>, screen: array<Byte>)
      requires Shaped() && p < 2 && |mask| == 4 && screen.Length == RASTER
      modifies vram
      ensures forall q, plane :: 0 <= q < 2 && 0 <= plane < 4 ==>
                Plane(q, plane) == if q == p && mask[plane] then StatusOver(old(Plane(q, plane)), screen[..]) else old(Plane(q, plane))
    {
      for i := STATUS_ROW * 40 to RASTER
        invariant forall q, plane, k :: 0 <= q < 2 && 0 <= plane < 4 && 0 <= k < RASTER ==>
                    vram[q, plane, k] == if q == p && mask[plane] && STATUS_ROW * 40 <= k < i then screen[k] else old(vram[q, plane, k])
      {
        StoreByte(p, mask, i, screen[i]);
      }
    }

    // _fmemset and dosferClearFull320.
    method Fill(p: nat, mask: seq<bool>, b: Byte)
      requires Shaped() && p < 2 && |mask| == 4
      modifies vram
      ensures forall q, plane :: 0 <= q < 2 && 0 <= plane < 4 ==>
                Plane(q, plane) == if q == p && mask[plane] then seq(RASTER, _ => b) else old(Plane(q, plane))
    {
      for i := 0 to RASTER
        invariant forall q, plane, k :: 0 <= q < 2 && 0 <= plane < 4 && 0 <= k < RASTER ==>
                    vram[q, plane, k] == if q == p && mask[plane] && k < i then b else old(vram[q, plane, k])
      {
        StoreByte(p, mask, i, b);
      }
    }

    // ----- flips

    // The upload of copy_320_flip: all four planes alike.
    method UploadBw(p: nat)
      requires Valid() && Clean() && started && !rgb && p < 2
      modifies this`pageGeneration, vram
      ensures Valid() && pageGeneration == old(pageGeneration)[p := generation]
      ensures forall q, plane :: 0 <= q < 2 && 0 <= plane < 4 ==> Plane(q, plane) == if q == p then red[..] else old(Plane(q, plane))
    {
      hide StripMap, PlaneOk, ShadowOk;
      if !pageInitialized[p] || pageInverted[p] != inverted {
        CopyFull(p, BW_MASK, red);
        pageGeneration := pageGeneration[p := generation];
      } else {
        StripPage(p);
        CopyQr(p, BW_MASK, red);
        if pageGeneration[p] != generation {
          CopyStatus(p, BW_MASK, red);
          pageGeneration := pageGeneration[p := generation];
        }
      }
    }

    // The upload of copy_rgb3_flip, one plane per channel.
    method UploadRgb3(p: nat)
      requires Valid() && Clean() && started && rgb && p < 2
      modifies vram
      ensures Valid()
      ensures forall q, plane :: 0 <= q < 2 && 0 <= plane < 4 ==> Plane(q, plane) == if q == p then ShadowOf(plane) else old(Plane(q, plane))
    {
      hide StripMap, PlaneOk, ShadowOk;
      var reset := !pageInitialized[p] || pageInverted[p] != inverted;
      var changed := pageGeneration[p] != generation;
      ghost var spare := Plane(p, 3);
      if !reset {
        StripPage(p);
        assert PageOk(p, 3);
      }
      FromBlanks();
      if reset {
        Fill(p, SPARE_MASK, 0);
      }
      UploadChannel(p, 0, red, reset, reset || changed);
      UploadChannel(p, 1, green, reset, reset || changed);
      UploadChannel(p, 2, blue, reset, reset || changed);
      assert Plane(p, 3) == Zeros(RASTER);
    }

    lemma FromBlanks()
      requires Valid() && Clean() && started
      ensures forall plane :: 0 <= plane < 4 && !Spare(plane) ==>
                StatusOver(StripOver(Blank(inverted), ShadowOf(plane)), ShadowOf(plane)) == ShadowOf(plane)
    {
      hide StripMap, ShadowOk;
      forall plane | 0 <= plane < 4 && !Spare(plane)
        ensures StatusOver(StripOver(Blank(inverted), ShadowOf(plane)), ShadowOf(plane)) == ShadowOf(plane) {
        FromBlank(ShadowOf(plane), inverted, statusActive);
      }
    }

    // One channel: background on a reset, the strip, and the status rows.
    method UploadChannel(p: nat, ch: nat, screen: array<Byte>, reset: bool, status: bool)
      requires Shaped() && p < 2 && ch < 3 && screen.Length == RASTER
      modifies vram
      ensures var plane := 2 - ch;
              var base := if reset then Blank(inverted) else old(Plane(p, plane));
              Plane(p, plane) == if status then StatusOver(StripOver(base, screen[..]), screen[..]) else StripOver(base, screen[..])
      ensures forall q, plane :: 0 <= q < 2 && 0 <= plane < 4 && (q != p || plane != 2 - ch) ==> Plane(q, plane) == old(Plane(q, plane))
    {
      hide StripOver, StatusOver;
      var mask := ChannelMask(ch);
      if reset {
        Fill(p, mask, Background(inverted));
        assert Plane(p, 2 - ch) == Blank(inverted);
      }
      CopyQr(p, mask, screen);
      if status {
        CopyStatus(p, mask, screen);
      }
    }

    // The page bookkeeping of a flip.
    method FinishFlip()
      requires Valid() && started
      requires forall plane :: 0 <= plane < 4 ==> Plane(writePage, plane) == ShadowOf(plane)
      requires forall plane :: 0 <= plane < 4 && !Spare(plane) ==> ShadowOk(ShadowOf(plane), inverted, statusActive)
      requires forall q, plane :: 0 <= q < 2 && 0 <= plane < 4 && q != writePage && pageInitialized[q] ==> PageOk(q, plane)
      modifies this`pageInitialized, this`pageInverted, this`pageGeneration, this`writePage, this`displayPage
      ensures Valid() && Clean() && displayPage == old(writePage) && writePage == 1 - old(writePage) && Shows(displayPage)
    {
      hide StripMap, PlaneOk, ShadowOk, Shaped;
      var p := writePage;
      pageInitialized, pageInverted, pageGeneration := pageInitialized[p := true], pageInverted[p := inverted], pageGeneration[p := generation];
      displayPage := p;
      writePage := 1 - p;
      forall q, plane | 0 <= q < 2 && 0 <= plane < 4 && pageInitialized[q] ensures PageOk(q, plane) {
        if q == p {
          if !Spare(plane) { ShadowIsPlane(ShadowOf(plane), inverted, statusActive); }
        } else {
          assert old(PageOk(q, plane));
        }
      }
    }

    // copy_320_flip and copy_rgb3_flip: the page brought up to date is shown,
    // and it shows exactly the shadow.
    method Flip()
      requires Valid() && Clean() && started
      modifies this`pageInitialized, this`pageInverted, this`pageGeneration, this`writePage, this`displayPage, vram
      ensures Valid() && Clean() && displayPage == old(writePage) && writePage == 1 - old(writePage) && Shows(displayPage)
    {
      hide StripMap, PlaneOk, ShadowOk;
      var p := writePage;
      if rgb {
        UploadRgb3(p);
      } else {
        UploadBw(p);
      }
      forall q, plane | 0 <= q < 2 && 0 <= plane < 4 && q != p && pageInitialized[q] ensures PageOk(q, plane) {
        assert old(PageOk(q, plane));
        assert Plane(q, plane) == old(Plane(q, plane));
      }
      FinishFlip();
    }

    // The copies that complete an initialized page of the same polarity.
    lemma StripPage(p: nat)
      requires Valid() && Clean() && started && p < 2 && pageInitialized[p] && pageInverted[p] == inverted
      ensures forall plane :: 0 <= plane < 4 && !Spare(plane) ==>
                && (pageGeneration[p] == generation ==> StripOver(Plane(p, plane), ShadowOf(plane)) == ShadowOf(plane))
                && StatusOver(StripOver(Plane(p, plane), ShadowOf(plane)), ShadowOf(plane)) == ShadowOf(plane)
    {
      hide StripMap, PlaneOk, ShadowOk;
      forall plane | 0 <= plane < 4 && !Spare(plane)
        ensures pageGeneration[p] == generation ==> StripOver(Plane(p, plane), ShadowOf(plane)) == ShadowOf(plane)
        ensures StatusOver(StripOver(Plane(p, plane), ShadowOf(plane)), ShadowOf(plane)) == ShadowOf(plane) {
        assert PageOk(p, plane);
        if pageGeneration[p] == generation {
          StripSuffices(Plane(p, plane), ShadowOf(plane), inverted, statusActive);
        }
        StripAndStatusSuffice(Plane(p, plane), ShadowOf(plane), inverted, statusActive, pageGeneration[p] == generation);
      }
    }

    // ----- rendering

    // The strip of a screen is the function modules XOR the scatter of the
    // codewords.
    ghost predicate Holds(screen: array<Byte>, cw: Bytes)
      requires Valid() && screen.Length == RASTER && |cw| == CODEWORDS
      reads this, screen
    {
      ShapedMap(map32) && SameStrip(screen[..], Xor(functions, Scatter(map32, cw)))
    }

    ghost predicate AllHold(codewords: seq<Bytes>)
      requires Valid() && |codewords| == 3 && forall ch :: 0 <= ch < 3 ==> |codewords[ch]| == CODEWORDS
      reads this, red, green, blue
    {
      Holds(red, codewords[0]) && (rgb ==> Holds(green, codewords[1]) && Holds(blue, codewords[2]))
    }

    // The status line on every channel.
    method DrawStatusLines(text: Option<Bytes>)
      requires Valid() && forall plane :: 0 <= plane < 4 && !Spare(plane) ==> ShadowOk(ShadowOf(plane), inverted, statusActive)
      modifies red, green, blue
      ensures forall plane :: 0 <= plane < 4 && !Spare(plane) ==> ShadowOk(ShadowOf(plane), inverted, text.Some?)
      ensures SameStrip(red[..], old(red[..])) && SameStrip(green[..], old(green[..])) && SameStrip(blue[..], old(blue[..]))
    {
      hide StripMap, ShadowOk, StatusDrawn;
      assert ShadowOk(ShadowOf(2), inverted, statusActive) && ShadowOk(ShadowOf(1), inverted, statusActive) && ShadowOk(ShadowOf(0), inverted, statusActive);
      DrawStatus(red, font, text, inverted);
      StatusShadow(old(red[..]), red[..], font, text, inverted, statusActive);
      if rgb {
        DrawStatus(green, font, text, inverted);
        StatusShadow(old(green[..]), green[..], font, text, inverted, statusActive);
        DrawStatus(blue, font, text, inverted);
        StatusShadow(old(blue[..]), blue[..], font, text, inverted, statusActive);
      }
    }

    // What pages owe without looking at the shadow: a status on screen is
    // settled by the next status call, which then starts a new generation.
    ghost predicate PagesReady()
      requires Shaped() && |pageInitialized| == |pageInverted| == |pageGeneration| == 2
      reads this`pageInitialized, this`pageInverted, this`pageGeneration, this`generation, this`statusActive, vram
    {
      forall p, plane :: 0 <= p < 2 && 0 <= plane < 4 && pageInitialized[p] ==> PageReady(p, plane)
    }

    ghost predicate PageReady(p: nat, plane: nat)
      requires Shaped() && |pageInverted| == |pageGeneration| == 2 && p < 2 && plane < 4
      reads this`pageInverted, this`pageGeneration, this`generation, this`statusActive, vram
    {
      if Spare(plane) then Plane(p, plane) == Zeros(RASTER)
      else BlankRest(Plane(p, plane), pageInverted[p]) &&
           (!statusActive && pageGeneration[p] == generation ==> BlankStatus(Plane(p, plane), pageInverted[p]))
    }

    ghost predicate ShadowsOk()
      requires Valid()
      reads this, red, green, blue
    {
      forall plane :: 0 <= plane < 4 && !Spare(plane) ==> ShadowOk(ShadowOf(plane), inverted, statusActive)
    }

    lemma CleanIsReady()
      requires Valid() && Clean()
      ensures PagesReady() && (started ==> ShadowsOk())
    {
      hide StripMap, ShadowOk, ShadowOf, BlankRest, BlankStatus, SameStatus;
      forall p, plane | 0 <= p < 2 && 0 <= plane < 4 && pageInitialized[p] ensures PageReady(p, plane) {
        assert PageOk(p, plane);
      }
    }

    // status_text_320 and status_text_rgb3.
    method StatusText(text: Option<Bytes>)
      requires Valid() && ShadowsOk() && PagesReady() && started
      modifies this`statusActive, this`generation, red, green, blue
      ensures Valid() && Clean() && started
      ensures SameStrip(red[..], old(red[..])) && SameStrip(green[..], old(green[..])) && SameStrip(blue[..], old(blue[..]))
    {
      hide StripMap, PlaneOk, ShadowOk, ShadowOf, BlankRest, BlankStatus;
      if text.None? && !statusActive {
        forall p, plane | 0 <= p < 2 && 0 <= plane < 4 && pageInitialized[p] ensures PageOk(p, plane) {
          assert PageReady(p, plane);
          if !Spare(plane) {
            QuietPlane(Plane(p, plane), ShadowOf(plane), pageInverted[p], pageGeneration[p] == generation, inverted);
          }
        }
        return;
      }
      DrawStatusLines(text);
      statusActive := text.Some?;
      generation := generation + 1;
      forall p, plane | 0 <= p < 2 && 0 <= plane < 4 && pageInitialized[p] ensures PageOk(p, plane) {
        assert old(PageReady(p, plane));
        if !Spare(plane) {
          StalePlane(Plane(p, plane), ShadowOf(plane), pageInverted[p], inverted, statusActive);
        }
      }
    }

    // build_qr_image_buffer: the canonical raster of a symbol.
    method Build(screen: array<Byte>, image: Bytes)
      requires screen.Length == |image| == RASTER
      modifies screen
      ensures screen[..] == image
    {
      for i := 0 to RASTER
        invariant forall k :: 0 <= k < i ==> screen[k] == image[k]
      {
        screen[i] := image[i];
      }
    }

    predicate Symbols(codewords: seq<Bytes>) {
      |codewords| == 3 && forall ch :: 0 <= ch < 3 ==> |codewords[ch]| == CODEWORDS
    }

    method BuildAll(f: Bytes, codewords: seq<Bytes>, invert: bool)
      requires Valid() && Symbols(codewords) && BlankRest(f, invert) && BlankStatus(f, invert) && ShapedMap(map32)
      modifies this`inverted, this`started, this`functions, this`templateReady, red, green, blue
      ensures Valid() && ShadowsOk() && started && inverted == invert && functions == f && !templateReady
      ensures red[..] == Canonical(f, map32, codewords[0])
      ensures rgb ==> green[..] == Canonical(f, map32, codewords[1]) && blue[..] == Canonical(f, map32, codewords[2])
    {
      hide StripMap, ShapedMap, ShadowOk, BlankRest, BlankStatus, Xor, Scatter, PlaneOk;
      BuiltShadow(map32, f, codewords[0], invert, statusActive);
      BuiltShadow(map32, f, codewords[1], invert, statusActive);
      BuiltShadow(map32, f, codewords[2], invert, statusActive);
      inverted, started, functions, templateReady := invert, true, f, false;
      Build(red, Canonical(f, map32, codewords[0]));
      if rgb {
        Build(green, Canonical(f, map32, codewords[1]));
        Build(blue, Canonical(f, map32, codewords[2]));
      }
    }

    // capture_bw_template and capture_rgb3_template: toggling the data modules
    // out leaves the function modules; toggling them in restores the symbol.
    method Capture(codewords: seq<Bytes>)
      requires Valid() && Symbols(codewords) && ShapedMap(map32)
      requires red[..] == Canonical(functions, map32, codewords[0])
      requires rgb ==> green[..] == Canonical(functions, map32, codewords[1]) && blue[..] == Canonical(functions, map32, codewords[2])
      modifies this`template, this`templateReady, red, green, blue
      ensures Valid() && templateReady && template == functions
      ensures red[..] == old(red[..]) && green[..] == old(green[..]) && blue[..] == old(blue[..])
    {
      hide StripMap, ShapedMap, Xor, Scatter;
      ghost var f := functions;
      XorCancel(f, Scatter(map32, codewords[0]));
      XorCancel(f, Scatter(map32, codewords[1]));
      XorCancel(f, Scatter(map32, codewords[2]));
      DirectScatter(map32, codewords[0], red);
      if rgb {
        DirectScatter(map32, codewords[1], green);
        DirectScatter(map32, codewords[2], blue);
      }
      template := red[..];
      DirectScatter(map32, codewords[0], red);
      if rgb {
        DirectScatter(map32, codewords[1], green);
        DirectScatter(map32, codewords[2], blue);
      }
      templateReady := true;
    }

    // vga_show_full_qr_at and vga_show_full_qr3_at: a whole new symbol.
    method ShowFull(f: Bytes, codewords: seq<Bytes>, invert: bool, text: Option<Bytes>, memory: bool)
      requires Valid() && Clean() && Symbols(codewords) && BlankRest(f, invert) && BlankStatus(f, invert)
      modifies this, red, green, blue, vram
      ensures Valid() && Clean() && started && inverted == invert && functions == f && templateReady == memory
      ensures Shows(displayPage) && displayPage == old(writePage) && AllHold(codewords)
    {
      hide StripMap, ShapedMap, ShadowOk, BlankRest, BlankStatus, PlaneOk, SameStrip, Xor, Scatter;
      StripShape(map32);
      CleanIsReady();
      BuildAll(f, codewords, invert);
      if memory {
        Capture(codewords);
      }
      StatusText(text);
      Flip();
    }

    // dosferCopyQr320 from the template into a shadow.
    method RestoreStrip(screen: array<Byte>)
      requires screen.Length == |template| == RASTER
      modifies screen
      ensures screen[..] == StripOver(old(screen[..]), template)
    {
      for row := 0 to STRIP_ROWS
        invariant forall k :: 0 <= k < RASTER ==> screen[k] == if InStrip(k) && k / 40 < row then template[k] else old(screen[k])
      {
        for col := 8 to 32
          invariant forall k :: 0 <= k < RASTER ==>
                      screen[k] == if InStrip(k) && (k / 40 < row || (k / 40 == row && k % 40 < col)) then template[k] else old(screen[k])
        {
          RowColumn(row, col);
          screen[row * 40 + col] := template[row * 40 + col];
        }
      }
    }

    // One channel of a direct render.
    method DirectChannel(screen: array<Byte>, cw: Bytes)
      requires Valid() && templateReady && screen.Length == RASTER && |cw| == CODEWORDS && ShapedMap(map32)
      requires ShadowOk(screen[..], inverted, statusActive)
      modifies screen
      ensures ShadowOk(screen[..], inverted, statusActive) && SameStatus(screen[..], old(screen[..]))
      ensures SameStrip(screen[..], Xor(functions, Scatter(map32, cw)))
    {
      hide StripMap, ShapedMap, ShadowOk, Xor, Scatter, StripOver, SameStrip, SameStatus;
      DirectStrip(map32, screen[..], functions, cw, inverted, statusActive);
      RestoreStrip(screen);
      DirectScatter(map32, cw, screen);
    }

    // One channel of a delta render, with the caller's codewords kept up.
    method DeltaChannel(screen: array<Byte>, next: Bytes, current: array<Byte>)
      requires Valid() && screen.Length == RASTER && |next| == current.Length == CODEWORDS && ShapedMap(map32) && screen != current
      requires ShadowOk(screen[..], inverted, statusActive) && Holds(screen, current[..])
      modifies screen, current
      ensures current[..] == next && ShadowOk(screen[..], inverted, statusActive) && SameStatus(screen[..], old(screen[..]))
      ensures SameStrip(screen[..], Xor(functions, Scatter(map32, next)))
    {
      hide StripMap, ShapedMap, ShadowOk, Xor, Scatter, SameStrip, SameStatus;
      DeltaStrip(map32, screen[..], functions, current[..], next, inverted, statusActive);
      DeltaRange(map32, next, current, screen, 0, CODEWORDS);
      assert current[..] == next;
    }

    // vga_apply_codewords_direct and vga_apply_codewords3_direct.
    method ApplyDirect(codewords: seq<Bytes>) returns (ok: bool)
      requires Valid() && Clean() && Symbols(codewords) && started
      modifies red, green, blue
      ensures Valid() && Clean() && (ok <==> templateReady) && (ok ==> AllHold(codewords))
      ensures !ok ==> red[..] == old(red[..]) && green[..] == old(green[..]) && blue[..] == old(blue[..])
    {
      hide StripMap, ShapedMap, ShadowOk, PlaneOk, SameStrip, SameStatus, Xor, Scatter;
      if !templateReady { return false; }
      StripShape(map32);
      assert ShadowOk(ShadowOf(2), inverted, statusActive) && ShadowOk(ShadowOf(1), inverted, statusActive) && ShadowOk(ShadowOf(0), inverted, statusActive);
      DirectChannel(red, codewords[0]);
      if rgb {
        DirectChannel(green, codewords[1]);
        DirectChannel(blue, codewords[2]);
      }
      forall p, plane | 0 <= p < 2 && 0 <= plane < 4 && pageInitialized[p] ensures PageOk(p, plane) {
        assert old(PageOk(p, plane));
        if !Spare(plane) {
          ShadowChange(Plane(p, plane), old(ShadowOf(plane)), ShadowOf(plane), pageInverted[p], pageGeneration[p] == generation, inverted, statusActive);
        }
      }
      ok := true;
    }

    // vga_apply_codeword_delta and vga_apply_codeword_delta3.
    method ApplyDelta(next: seq<Bytes>, current: seq<array<Byte>>)
      requires Valid() && Clean() && Symbols(next) && started && CallerArrays(current)
      requires AllHold([current[0][..], current[1][..], current[2][..]])
      modifies red, green, blue, current[0], current[1], current[2]
      ensures Valid() && Clean() && AllHold(next) && current[0][..] == next[0] && (rgb ==> current[1][..] == next[1] && current[2][..] == next[2])
    {
      hide StripMap, ShapedMap, ShadowOk, PlaneOk, SameStrip, SameStatus, Xor, Scatter;
      StripShape(map32);
      assert ShadowOk(ShadowOf(2), inverted, statusActive) && ShadowOk(ShadowOf(1), inverted, statusActive) && ShadowOk(ShadowOf(0), inverted, statusActive);
      DeltaChannel(red, next[0], current[0]);
      if rgb {
        DeltaChannel(green, next[1], current[1]);
        DeltaChannel(blue, next[2], current[2]);
      }
      forall p, plane | 0 <= p < 2 && 0 <= plane < 4 && pageInitialized[p] ensures PageOk(p, plane) {
        assert old(PageOk(p, plane));
        if !Spare(plane) {
          ShadowChange(Plane(p, plane), old(ShadowOf(plane)), ShadowOf(plane), pageInverted[p], pageGeneration[p] == generation, inverted, statusActive);
        }
      }
    }

    // The caller's codeword streams are its own arrays.
    predicate CallerArrays(current: seq<array<Byte>>) {
      && |current| == 3 && current[0] != current[1] && current[1] != current[2] && current[0] != current[2]
      && forall ch :: 0 <= ch < 3 ==> current[ch].Length == CODEWORDS
    }

    // vga_show_prepared_at and vga_show_prepared3_at.
    method ShowPrepared(invert: bool, text: Option<Bytes>) returns (ok: bool)
      requires Valid() && Clean()
      modifies this, red, green, blue, vram
      ensures Valid() && Clean() && (ok <==> old(started) && old(inverted) == invert)
      ensures ok ==> Shows(displayPage) && displayPage == old(writePage) && inverted == invert
      ensures started == old(started) && inverted == old(inverted) && functions == old(functions) && templateReady == old(templateReady)
      ensures !ok ==> unchanged(this, red, green, blue, vram)
      ensures SameStrip(red[..], old(red[..])) && SameStrip(green[..], old(green[..])) && SameStrip(blue[..], old(blue[..]))
    {
      hide StripMap;
      if !started || inverted != invert { return false; }
      CleanIsReady();
      StatusText(text);
      Flip();
      ok := true;
    }
  }
}
