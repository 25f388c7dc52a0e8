// Where the modules of a symbol sit on the screen: the placement map of the
// protected-mode sender (qr_prepare_delta_map), the rectangles that uploads
// copy, and the pixels of a status line.

module Placement {
  import opened Gf2
  import opened Protocol
  import opened Raster
  import opened Repair
  import opened V40L
  import opened Vga
  import Pages
  import Sender

  const MODULES: nat := 177

  // The byte and the bit of the pixel at (px, py), forty bytes to a row, the
  // leftmost pixel in the highest bit.
  function PixelEntry(px: nat, py: nat): Entry {
    Entry(py * 40 + px / 8, 0x80 >> (px % 8))
  }

  // A symbol whose modules start at (x0, y0).
  function ModuleEntry(x0: nat, y0: nat, linear: nat): Entry {
    PixelEntry(x0 + linear % MODULES, y0 + linear / MODULES)
  }

  // The protected-mode sender centres the symbol with its quiet zone of four
  // modules; the legacy sender puts it at the top.
  const X0: nat := (320 - 185) / 2 + 4
  const Y0: nat := (200 - 185) / 2 + 4
  const LEGACY_Y0: nat := 4

  lemma RowAndColumn(px: nat, py: nat)
    requires px < 320
    ensures PixelEntry(px, py).offset / 40 == py && PixelEntry(px, py).offset % 40 == px / 8
  {}

  lemma InSymbolSquare(linear: nat)
    requires linear < MODULES * MODULES
    ensures linear % MODULES < MODULES && linear / MODULES < MODULES
  {}

  // The rectangle that is uploaded holds a byte of the raster exactly when one
  // of its pixels belongs to the symbol or its quiet zone.
  lemma RectangleIs(row: nat, b: nat)
    requires row < 200 && b < 40
    ensures Inside(Sender.QR, row * 40 + b) <==> 7 <= row < 192 && exists px :: 67 <= px < 252 && px / 8 == b
  {
    if 8 <= b < 32 {
      assert 67 <= (if b == 8 then 67 else 8 * b) < 252 && (if b == 8 then 67 else 8 * b) / 8 == b;
    }
  }

  lemma ModuleInside(linear: nat)
    requires linear < MODULES * MODULES
    ensures Inside(Sender.QR, ModuleEntry(X0, Y0, linear).offset) && ModuleEntry(X0, Y0, linear).offset < RASTER
  {
    InSymbolSquare(linear);
    RowAndColumn(X0 + linear % MODULES, Y0 + linear / MODULES);
  }

  // The same for the strip of the legacy sender, which lies above its status
  // rows.
  lemma StripIs(row: nat, b: nat)
    requires row < 200 && b < 40
    ensures Pages.InStrip(row * 40 + b) <==> row < 185 && exists px :: 67 <= px < 252 && px / 8 == b
    ensures Pages.InStatus(row * 40 + b) <==> 192 <= row
  {
    if 8 <= b < 32 {
      assert 67 <= (if b == 8 then 67 else 8 * b) < 252 && (if b == 8 then 67 else 8 * b) / 8 == b;
    }
  }

  lemma ModuleInStrip(linear: nat)
    requires linear < MODULES * MODULES
    ensures Pages.InStrip(ModuleEntry(X0, LEGACY_Y0, linear).offset) && ModuleEntry(X0, LEGACY_Y0, linear).offset < RASTER
  {
    InSymbolSquare(linear);
    RowAndColumn(X0 + linear % MODULES, LEGACY_Y0 + linear / MODULES);
  }

  // No two modules share a pixel.
  lemma ModulesApart(x0: nat, y0: nat, a: nat, b: nat)
    requires a < MODULES * MODULES && b < MODULES * MODULES && x0 + MODULES <= 320
    ensures ModuleEntry(x0, y0, a) == ModuleEntry(x0, y0, b) ==> a == b
  {
    InSymbolSquare(a);
    InSymbolSquare(b);
    RowAndColumn(x0 + a % MODULES, y0 + a / MODULES);
    RowAndColumn(x0 + b % MODULES, y0 + b / MODULES);
    MasksApart((x0 + a % MODULES) % 8, (x0 + b % MODULES) % 8);
  }

  lemma MasksApart(i: nat, j: nat)
    requires i < 8 && j < 8
    ensures (0x80 as bv8) >> i == (0x80 as bv8) >> j ==> i == j
  {}

  // ----- the map

  // The module a placement entry names: its byte of the module bitmap, counted
  // from one, and the bit its mask has.
  function Linear(b: nat, bit: nat): nat
    requires b > 0
  {
    (b - 1) * 8 + bit
  }

  predicate IsBit(m: Byte, bit: nat) {
    bit < 8 && m == 1 << bit
  }

  ghost predicate OneBit(m: Byte) {
    exists bit :: IsBit(m, bit)
  }

  // The loop that looks for the bit of a mask.
  method FindBit(m: Byte) returns (bit: nat)
    ensures bit <= 8 && (bit < 8 ==> IsBit(m, bit)) && (bit == 8 ==> !OneBit(m))
  {
    bit := 0;
    while bit < 8 && m != 1 << bit
      invariant bit <= 8 && forall k :: 0 <= k < bit ==> !IsBit(m, k)
    {
      bit := bit + 1;
    }
  }

  // A placement that names modules of the symbol.
  predicate InSymbol(bytes: seq<nat>, masks: seq<Byte>) {
    |bytes| == |masks| && forall i :: 0 <= i < |bytes| ==> 1 <= bytes[i] && ModuleBound(bytes[i], masks[i])
  }

  predicate ModuleBound(b: nat, m: Byte)
    requires b > 0
  {
    forall bit :: 0 <= bit < 8 && IsBit(m, bit) ==> Linear(b, bit) < MODULES * MODULES
  }

  ghost predicate Entered(e: Entry, b: nat, m: Byte) {
    b > 0 && exists bit :: IsBit(m, bit) && e == ModuleEntry(X0, Y0, Linear(b, bit))
  }

  // qr_prepare_delta_map: it refuses a placement of another size or with a mask
  // that is not a single bit; otherwise every entry is the pixel of its module.
  method PrepareDelta(bytes: seq<nat>, masks: seq<Byte>) returns (ok: bool, map32: seq<Entry>)
    requires InSymbol(bytes, masks)
    ensures ok <==> |bytes| == 8 * CODEWORDS && forall i :: 0 <= i < |masks| ==> OneBit(masks[i])
    ensures ok ==> ShapedMap(map32) && Sender.InsideMap(map32) && forall i :: 0 <= i < |map32| ==> Entered(map32[i], bytes[i], masks[i])
  {
    hide ModuleEntry, IsBit, Inside, Entered, OneBit;
    map32 := [];
    if |bytes| != 8 * CODEWORDS {
      return false, [];
    }
    for i := 0 to |bytes|
      invariant |map32| == i
      invariant forall k :: 0 <= k < i ==> OneBit(masks[k])
      invariant forall k :: 0 <= k < i ==> Entered(map32[k], bytes[k], masks[k])
      invariant forall k :: 0 <= k < i ==> map32[k].offset < RASTER && Inside(Sender.QR, map32[k].offset)
    {
      var bit := FindBit(masks[i]);
      if bit >= 8 {
        return false, [];
      }
      assert ModuleBound(bytes[i], masks[i]);
      BitSmall(masks[i], bit);
      ModuleInside(Linear(bytes[i], bit));
      EnteredBit(bytes[i], masks[i], bit);
      map32 := map32 + [ModuleEntry(X0, Y0, Linear(bytes[i], bit))];
    }
    ok := true;
  }

  lemma EnteredBit(b: nat, m: Byte, bit: nat)
    requires b > 0 && IsBit(m, bit)
    ensures OneBit(m) && Entered(ModuleEntry(X0, Y0, Linear(b, bit)), b, m)
  {
    hide ModuleEntry, IsBit;
  }

  lemma BitSmall(m: Byte, bit: nat)
    requires IsBit(m, bit)
    ensures bit < 8
  {}

  // Entries for different modules are different pixels.
  lemma EntriesApart(map32: seq<Entry>, bytes: seq<nat>, masks: seq<Byte>, i: nat, j: nat)
    requires InSymbol(bytes, masks) && |map32| == |bytes| && i < |bytes| && j < |bytes|
    requires Entered(map32[i], bytes[i], masks[i]) && Entered(map32[j], bytes[j], masks[j])
    requires bytes[i] != bytes[j] || masks[i] != masks[j]
    ensures map32[i] != map32[j]
  {
    hide ModuleEntry, IsBit;
    var a :| IsBit(masks[i], a) && map32[i] == ModuleEntry(X0, Y0, Linear(bytes[i], a));
    var b :| IsBit(masks[j], b) && map32[j] == ModuleEntry(X0, Y0, Linear(bytes[j], b));
    BitSmall(masks[i], a);
    BitSmall(masks[j], b);
    assert ModuleBound(bytes[i], masks[i]) && ModuleBound(bytes[j], masks[j]);
    ModulesApart(X0, Y0, Linear(bytes[i], a), Linear(bytes[j], b));
    if a == b && masks[i] != masks[j] {
      SameBit(masks[i], masks[j], a);
    }
  }

  lemma SameBit(m: Byte, n: Byte, bit: nat)
    requires IsBit(m, bit) && IsBit(n, bit)
    ensures m == n
  {}

  // ----- the slots

  // Slot s of a plane begins at 2000 (hexadecimal) times s, and eight slots fill
  // the plane.
  lemma SlotAddress(vga: Vga, s: nat, p: nat, i: nat)
    requires vga.memory.Length0 == PLANES && vga.memory.Length1 == PLANE_BYTES && p < PLANES && s < SLOTS && i < RASTER
    ensures 0x2000 * s + i < 0x1_0000 && vga.Plane(s, p)[i] == vga.memory[p, 0x2000 * s + i]
    ensures PLANES == 4 && 0x2000 * SLOTS == PLANE_BYTES == 0x1_0000
  {}

  // ----- the status line

  // A pixel of a status line differs from its background exactly where the
  // glyph has a bit, and the background is white unless inverted.
  lemma StatusPixel(font: Pages.Font, text: Bytes, inverted: bool, x: nat, y: nat, k: nat)
    requires |font| == 2048 && x < |text| && x < 40 && y < 8 && k < 8
    ensures var at := (192 + y) * 40 + x;
            var pixel := BitOn(Pages.StatusByte(font, Some(text), inverted, at), k);
            pixel == ((!inverted) != BitOn(font[Val(text[x]) * 8 + y], k))
    ensures BitOn(Pages.Background(inverted), k) == !inverted
  {
    hide Val;
    Pages.RowColumn(192 + y, x);
    var glyph := font[Val(text[x]) * 8 + y];
    assert Pages.StatusByte(font, Some(text), inverted, (192 + y) * 40 + x) == if inverted then glyph else Pages.Flip(glyph);
    Flipped(glyph, k);
  }

  lemma Flipped(b: Byte, k: nat)
    requires k < 8
    ensures BitOn(Pages.Flip(b), k) == !BitOn(b, k)
    ensures BitOn(0xFF, k) && !BitOn(0x00, k)
  {}
}
