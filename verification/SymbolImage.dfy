// The picture of a symbol from its modules (build_qr_image_buffer,
// qr_raster_from_matrix), and why it may be had from another one by scattering
// codewords: template XOR scatter is the picture.

module SymbolImage {
  import opened Gf2
  import opened Raster
  import opened V40L
  import opened Placement

  // ----- pixels

  // Module `linear` stands at bit k of byte d.
  predicate AtPixel(x0: nat, y0: nat, linear: nat, d: nat, k: nat) {
    (y0 + linear / 177) * 40 + (x0 + linear % 177) / 8 == d && (x0 + linear % 177) % 8 == k
  }

  predicate InSquare(x0: nat, y0: nat, d: nat, k: nat) {
    x0 <= d % 40 * 8 + k < x0 + 177 && y0 <= d / 40 < y0 + 177
  }

  // The module of a pixel.
  function ModuleOf(x0: nat, y0: nat, d: nat, k: nat): (linear: nat)
    requires InSquare(x0, y0, d, k)
    ensures linear < 177 * 177
  {
    (d / 40 - y0) * 177 + (d % 40 * 8 + k - x0)
  }

  lemma PixelOfModule(x0: nat, y0: nat, linear: nat, d: nat, k: nat)
    requires linear < 177 * 177 && x0 + 177 <= 320 && k < 8
    ensures AtPixel(x0, y0, linear, d, k) <==> InSquare(x0, y0, d, k) && ModuleOf(x0, y0, d, k) == linear
  {
    var x, y := linear % 177, linear / 177;
    assert x < 177 && y < 177 && linear == y * 177 + x;
    if InSquare(x0, y0, d, k) {
      RowColumn177(d / 40 - y0, d % 40 * 8 + k - x0);
    }
    RowColumn40(y0 + y, (x0 + x) / 8);
  }

  lemma RowColumn177(row: nat, col: nat)
    requires col < 177
    ensures (row * 177 + col) / 177 == row && (row * 177 + col) % 177 == col
  {}

  lemma RowColumn40(row: nat, col: nat)
    requires col < 40
    ensures (row * 40 + col) / 40 == row && (row * 40 + col) % 40 == col
  {}

  function Mask(k: nat): Byte
    requires k < 8
  {
    0x80 >> k
  }

  lemma MaskBits(j: nat, k: nat)
    requires j < 8 && k < 8
    ensures BitOn(Mask(j), k) <==> j == k
    ensures !BitOn(0, k) && BitOn(0xFF, k)
  {
    if k == 0 {} else if k == 1 {} else if k == 2 {} else if k == 3 {} else if k == 4 {} else if k == 5 {} else if k == 6 {} else {}
  }

  function Or(b: Byte, m: Byte): Byte { b | m }
  function AndNot(b: Byte, m: Byte): Byte { b & !m }
  predicate Test(b: Byte, m: Byte) { b & m != 0 }

  function With(b: Byte, j: nat): Byte
    requires j < 8
  {
    Or(b, Mask(j))
  }

  function Without(b: Byte, j: nat): Byte
    requires j < 8
  {
    AndNot(b, Mask(j))
  }

  predicate OneMask(m: Byte) {
    m == 0x80 || m == 0x40 || m == 0x20 || m == 0x10 || m == 0x08 || m == 0x04 || m == 0x02 || m == 0x01
  }

  lemma OneBit(b: Byte, m: Byte)
    requires OneMask(m)
    ensures Or(b, m) == if Test(b, m) then b else Add(b, m)
    ensures AndNot(b, m) == if Test(b, m) then Add(b, m) else b
  {}

  lemma MaskIsOne(j: nat)
    requires j < 8
    ensures OneMask(Mask(j))
  {
    if j == 0 {} else if j == 1 {} else if j == 2 {} else if j == 3 {} else if j == 4 {} else if j == 5 {} else if j == 6 {} else {}
  }

  lemma TestIs(b: Byte, j: nat)
    requires j < 8
    ensures Test(b, Mask(j)) == BitOn(b, j)
  {}

  lemma MaskToggles(b: Byte, j: nat)
    requires j < 8
    ensures With(b, j) == if BitOn(b, j) then b else Add(b, Mask(j))
    ensures Without(b, j) == if BitOn(b, j) then Add(b, Mask(j)) else b
  {
    hide Or, AndNot, Test, Mask, Add, BitOn, OneMask;
    MaskIsOne(j);
    TestIs(b, j);
    OneBit(b, Mask(j));
  }

  lemma Masked(b: Byte, j: nat, k: nat)
    requires j < 8 && k < 8
    ensures BitOn(With(b, j), k) <==> BitOn(b, k) || j == k
    ensures BitOn(Without(b, j), k) <==> BitOn(b, k) && j != k
  {
    hide BitOn, With, Without, Mask, Add;
    MaskToggles(b, j);
    BitOnAdd(b, Mask(j), k);
    MaskBits(j, k);
  }

  lemma ByteOfBits(a: Byte, b: Byte)
    requires forall k :: 0 <= k < 8 ==> BitOn(a, k) == BitOn(b, k)
    ensures a == b
  {
    assert BitOn(a, 0) == BitOn(b, 0) && BitOn(a, 1) == BitOn(b, 1) && BitOn(a, 2) == BitOn(b, 2) && BitOn(a, 3) == BitOn(b, 3);
    assert BitOn(a, 4) == BitOn(b, 4) && BitOn(a, 5) == BitOn(b, 5) && BitOn(a, 6) == BitOn(b, 6) && BitOn(a, 7) == BitOn(b, 7);
  }

  // ----- the picture

  predicate Dark(x0: nat, y0: nat, dark: seq<bool>, n: nat, d: nat, k: nat)
    requires |dark| == 177 * 177
  {
    InSquare(x0, y0, d, k) && ModuleOf(x0, y0, d, k) < n && dark[ModuleOf(x0, y0, d, k)]
  }

  // The first n modules are drawn: dark ones black on white, or white on black.
  ghost predicate Drawn(r: Bytes, x0: nat, y0: nat, dark: seq<bool>, inverted: bool, n: nat)
    requires |dark| == 177 * 177
  {
    |r| == RASTER && forall d, k :: 0 <= d < RASTER && 0 <= k < 8 ==> DrawnAt(r, x0, y0, dark, inverted, n, d, k)
  }

  predicate DrawnAt(r: Bytes, x0: nat, y0: nat, dark: seq<bool>, inverted: bool, n: nat, d: nat, k: nat)
    requires |dark| == 177 * 177 && d < |r| && k < 8
  {
    BitOn(r[d], k) <==> (Dark(x0, y0, dark, n, d, k) == inverted)
  }

  // build_qr_image_buffer: all modules, row by row.
  method BuildImage(dark: seq<bool>, x0: nat, y0: nat, inverted: bool, screen: array<Byte>)
    requires |dark| == 177 * 177 && x0 + 177 <= 320 && y0 + 177 <= 200 && screen.Length == RASTER
    modifies screen
    ensures Drawn(screen[..], x0, y0, dark, inverted, 177 * 177)
  {
    hide Drawn;
    for i := 0 to RASTER
      invariant forall k :: 0 <= k < i ==> screen[k] == if inverted then 0x00 else 0xFF
    {
      screen[i] := if inverted then 0x00 else 0xFF;
    }
    NothingDrawn(screen[..], x0, y0, dark, inverted);
    for my := 0 to 177
      invariant Drawn(screen[..], x0, y0, dark, inverted, my * 177)
    {
      BuildRow(dark, x0, y0, inverted, screen, my);
    }
  }

  method BuildRow(dark: seq<bool>, x0: nat, y0: nat, inverted: bool, screen: array<Byte>, my: nat)
    requires |dark| == 177 * 177 && x0 + 177 <= 320 && y0 + 177 <= 200 && screen.Length == RASTER && my < 177
    requires Drawn(screen[..], x0, y0, dark, inverted, my * 177)
    modifies screen
    ensures Drawn(screen[..], x0, y0, dark, inverted, (my + 1) * 177)
  {
    hide Drawn, BitOn, ByteAt, PixelBit, Toggled;
    for mx := 0 to 177
      invariant Drawn(screen[..], x0, y0, dark, inverted, my * 177 + mx)
    {
      ghost var before := screen[..];
      var n := my * 177 + mx;
      DrawModule(screen, x0, y0, my, mx, dark[n], inverted);
      ModuleDrawn(before, screen[..], x0, y0, dark, inverted, n, n + 1);
    }
  }

  // Byte and bit of module n.
  function ByteAt(x0: nat, y0: nat, n: nat): nat {
    (y0 + n / 177) * 40 + (x0 + n % 177) / 8
  }

  function PixelBit(x0: nat, n: nat): (k: nat)
    ensures k < 8
  {
    (x0 + n % 177) % 8
  }

  function Toggled(b: Byte, k: nat, inverted: bool): Byte
    requires k < 8
  {
    if inverted then With(b, k) else Without(b, k)
  }

  method DrawModule(screen: array<Byte>, x0: nat, y0: nat, my: nat, mx: nat, dark: bool, inverted: bool)
    requires my < 177 && mx < 177 && x0 + 177 <= 320 && y0 + 177 <= 200 && screen.Length == RASTER
    modifies screen
    ensures var n := my * 177 + mx;
            var at := ByteAt(x0, y0, n);
            at < RASTER && screen[..] == if !dark then old(screen[..])
                                         else old(screen[..])[at := Toggled(old(screen[at]), PixelBit(x0, n), inverted)]
  {
    hide With, Without;
    RowColumn177(my, mx);
    var px := x0 + mx;
    var at := (y0 + my) * 40 + px / 8;
    if dark {
      screen[at] := if inverted then With(screen[at], px % 8) else Without(screen[at], px % 8);
    }
  }

  lemma NothingDrawn(r: Bytes, x0: nat, y0: nat, dark: seq<bool>, inverted: bool)
    requires |dark| == 177 * 177 && |r| == RASTER && forall i :: 0 <= i < RASTER ==> r[i] == if inverted then 0x00 else 0xFF
    ensures Drawn(r, x0, y0, dark, inverted, 0)
  {
    hide BitOn;
    forall d, k | 0 <= d < RASTER && 0 <= k < 8 ensures DrawnAt(r, x0, y0, dark, inverted, 0, d, k) {
      MaskBits(k, k);
    }
  }

  lemma ModuleDrawn(before: Bytes, after: Bytes, x0: nat, y0: nat, dark: seq<bool>, inverted: bool, n: nat, next: nat)
    requires |dark| == 177 * 177 && x0 + 177 <= 320 && next == n + 1 <= 177 * 177 && Drawn(before, x0, y0, dark, inverted, n)
    requires ByteAt(x0, y0, n) < RASTER
    requires after == if !dark[n] then before
                      else before[ByteAt(x0, y0, n) := Toggled(before[ByteAt(x0, y0, n)], PixelBit(x0, n), inverted)]
    ensures Drawn(after, x0, y0, dark, inverted, next)
  {
    hide BitOn, InSquare, ModuleOf, With, Without, ByteAt, PixelBit;
    var at, j := ByteAt(x0, y0, n), PixelBit(x0, n);
    forall d, k | 0 <= d < RASTER && 0 <= k < 8 ensures DrawnAt(after, x0, y0, dark, inverted, next, d, k) {
      assert DrawnAt(before, x0, y0, dark, inverted, n, d, k);
      PixelOfModule(x0, y0, n, d, k);
      assert AtPixel(x0, y0, n, d, k) <==> at == d && j == k by { PixelIs(x0, y0, n, d, k); }
      Masked(before[d], j, k);
    }
  }

  lemma PixelIs(x0: nat, y0: nat, n: nat, d: nat, k: nat)
    ensures AtPixel(x0, y0, n, d, k) <==> ByteAt(x0, y0, n) == d && PixelBit(x0, n) == k
  {}

  // ----- two pictures

  predicate On(cw: Bytes, i: nat)
    requires i < 8 * |cw|
  {
    BitOn(cw[i / 8], i % 8)
  }

  // The map sends bit i of the codewords to the pixel of module mods[i], and no
  // two bits to the same module.
  ghost predicate MapOf(m: seq<Entry>, mods: seq<nat>, x0: nat, y0: nat) {
    && ShapedMap(m) && |mods| == |m| && x0 + 177 <= 320
    && (forall i :: 0 <= i < |m| ==> mods[i] < 177 * 177 && m[i] == ModuleEntry(x0, y0, mods[i]))
    && forall i, j :: 0 <= i < |mods| && 0 <= j < |mods| && i != j ==> mods[i] != mods[j]
  }

  predicate HitAt(mods: seq<nat>, cw: Bytes, x0: nat, y0: nat, d: nat, k: nat, i: nat)
    requires i < |mods| == 8 * |cw|
  {
    On(cw, i) && AtPixel(x0, y0, mods[i], d, k)
  }

  // Some bit that is on, from lo up to hi, has its module at the pixel.
  predicate Hit(mods: seq<nat>, cw: Bytes, x0: nat, y0: nat, d: nat, k: nat, lo: nat, hi: nat)
    requires hi <= |mods| == 8 * |cw|
  {
    exists i :: lo <= i < hi && HitAt(mods, cw, x0, y0, d, k, i)
  }

  lemma OnlyOneHit(m: seq<Entry>, mods: seq<nat>, cw: Bytes, x0: nat, y0: nat, d: nat, k: nat, i: nat, j: nat)
    requires MapOf(m, mods, x0, y0) && i < |mods| == 8 * |cw| && j < |mods| && k < 8
    requires HitAt(mods, cw, x0, y0, d, k, i) && HitAt(mods, cw, x0, y0, d, k, j)
    ensures i == j
  {
    hide On, ModuleEntry, AtPixel;
    PixelOfModule(x0, y0, mods[i], d, k);
    PixelOfModule(x0, y0, mods[j], d, k);
  }

  lemma SpotBit(x0: nat, y0: nat, linear: nat, on: bool, d: nat, k: nat)
    requires ModuleEntry(x0, y0, linear).offset < RASTER && d < RASTER && k < 8
    ensures BitOn(Spot(ModuleEntry(x0, y0, linear), on)[d], k) <==> on && AtPixel(x0, y0, linear, d, k)
  {
    hide BitOn;
    MaskBits((x0 + linear % 177) % 8, k);
  }

  lemma {:induction false} SpotsBits(m: seq<Entry>, mods: seq<nat>, cw: Bytes, x0: nat, y0: nat, d: nat, k: nat, c: nat, n: nat)
    requires MapOf(m, mods, x0, y0) && |cw| == CODEWORDS && d < RASTER && k < 8 && c < CODEWORDS && n <= 8
    ensures BitOn(SpotsUpTo(m, c, cw[c], n)[d], k) <==> Hit(mods, cw, x0, y0, d, k, 8 * c, 8 * c + n)
    decreases n
  {
    hide BitOn, Spot, ModuleEntry, AtPixel, Add;
    if n == 0 {
      MaskBits(k, k);
    } else {
      SpotsBits(m, mods, cw, x0, y0, d, k, c, n - 1);
      var i := 8 * c + n - 1;
      assert i / 8 == c && i % 8 == n - 1;
      SpotBit(x0, y0, mods[i], BitOn(cw[c], n - 1), d, k);
      BitOnAdd(SpotsUpTo(m, c, cw[c], n - 1)[d], Spot(m[i], BitOn(cw[c], n - 1))[d], k);
      HitNext(m, mods, cw, x0, y0, d, k, 8 * c, i);
    }
  }

  lemma HitNext(m: seq<Entry>, mods: seq<nat>, cw: Bytes, x0: nat, y0: nat, d: nat, k: nat, lo: nat, i: nat)
    requires MapOf(m, mods, x0, y0) && lo <= i < |mods| == 8 * |cw| && k < 8
    ensures Hit(mods, cw, x0, y0, d, k, lo, i + 1) <==> Hit(mods, cw, x0, y0, d, k, lo, i) != HitAt(mods, cw, x0, y0, d, k, i)
  {
    hide HitAt;
    if Hit(mods, cw, x0, y0, d, k, lo, i) && HitAt(mods, cw, x0, y0, d, k, i) {
      var j :| lo <= j < i && HitAt(mods, cw, x0, y0, d, k, j);
      OnlyOneHit(m, mods, cw, x0, y0, d, k, i, j);
    }
  }

  // A bit of the scatter is set exactly where a module of a set bit stands.
  lemma {:induction false} ScatterBits(m: seq<Entry>, mods: seq<nat>, cw: Bytes, x0: nat, y0: nat, d: nat, k: nat, n: nat)
    requires MapOf(m, mods, x0, y0) && |cw| == CODEWORDS && d < RASTER && k < 8 && n <= CODEWORDS
    ensures BitOn(ScatterUpTo(m, cw, n)[d], k) <==> Hit(mods, cw, x0, y0, d, k, 0, 8 * n)
    decreases n
  {
    hide BitOn, Spot, ModuleEntry, HitAt, Add, SpotsUpTo;
    if n == 0 {
      MaskBits(k, k);
    } else {
      ScatterBits(m, mods, cw, x0, y0, d, k, n - 1);
      SpotsBits(m, mods, cw, x0, y0, d, k, n - 1, 8);
      BitOnAdd(ScatterUpTo(m, cw, n - 1)[d], SpotsUpTo(m, n - 1, cw[n - 1], 8)[d], k);
      HitJoins(m, mods, cw, x0, y0, d, k, 8 * (n - 1), 8 * n);
    }
  }

  lemma HitJoins(m: seq<Entry>, mods: seq<nat>, cw: Bytes, x0: nat, y0: nat, d: nat, k: nat, mid: nat, hi: nat)
    requires MapOf(m, mods, x0, y0) && mid <= hi <= |mods| == 8 * |cw| && k < 8
    ensures Hit(mods, cw, x0, y0, d, k, 0, hi) <==> Hit(mods, cw, x0, y0, d, k, 0, mid) != Hit(mods, cw, x0, y0, d, k, mid, hi)
  {
    hide HitAt;
    if Hit(mods, cw, x0, y0, d, k, 0, mid) && Hit(mods, cw, x0, y0, d, k, mid, hi) {
      var i :| 0 <= i < mid && HitAt(mods, cw, x0, y0, d, k, i);
      var j :| mid <= j < hi && HitAt(mods, cw, x0, y0, d, k, j);
      OnlyOneHit(m, mods, cw, x0, y0, d, k, i, j);
    }
  }

  predicate Toggles(mods: seq<nat>, cw: Bytes, linear: nat)
    requires |mods| == 8 * |cw|
  {
    exists i :: 0 <= i < |mods| && On(cw, i) && mods[i] == linear
  }

  // The modules of one symbol differ from those of another exactly where the
  // codewords differ: the data module of every set bit of `cw` is the other way.
  predicate Differ(dark: seq<bool>, other: seq<bool>, mods: seq<nat>, cw: Bytes)
    requires |dark| == |other| == 177 * 177 && |mods| == 8 * |cw|
  {
    forall l :: 0 <= l < 177 * 177 ==> other[l] == (dark[l] != Toggles(mods, cw, l))
  }

  // Then the pictures differ by the scatter of those codewords.
  lemma PicturesDiffer(m: seq<Entry>, mods: seq<nat>, cw: Bytes, x0: nat, y0: nat, dark: seq<bool>, other: seq<bool>, inverted: bool,
                       r: Bytes, s: Bytes)
    requires MapOf(m, mods, x0, y0) && |cw| == CODEWORDS && |dark| == |other| == 177 * 177 && Differ(dark, other, mods, cw)
    requires Drawn(r, x0, y0, dark, inverted, 177 * 177) && Drawn(s, x0, y0, other, inverted, 177 * 177)
    ensures s == Canonical(r, m, cw)
  {
    hide BitOn, Add, ScatterUpTo, ModuleEntry, Differ, Drawn;
    assert |r| == |s| == RASTER by { DrawnSize(r, x0, y0, dark, inverted); DrawnSize(s, x0, y0, other, inverted); }
    var c := Canonical(r, m, cw);
    forall d | 0 <= d < RASTER ensures s[d] == c[d] {
      forall k | 0 <= k < 8 ensures BitOn(s[d], k) == BitOn(c[d], k) {
        PixelsDiffer(m, mods, cw, x0, y0, dark, other, inverted, r, s, d, k);
      }
      ByteOfBits(s[d], c[d]);
    }
  }

  lemma DrawnSize(r: Bytes, x0: nat, y0: nat, dark: seq<bool>, inverted: bool)
    requires |dark| == 177 * 177 && Drawn(r, x0, y0, dark, inverted, 177 * 177)
    ensures |r| == RASTER
  {}

  lemma PixelsDiffer(m: seq<Entry>, mods: seq<nat>, cw: Bytes, x0: nat, y0: nat, dark: seq<bool>, other: seq<bool>, inverted: bool,
                     r: Bytes, s: Bytes, d: nat, k: nat)
    requires MapOf(m, mods, x0, y0) && |cw| == CODEWORDS && |dark| == |other| == 177 * 177 && Differ(dark, other, mods, cw)
    requires Drawn(r, x0, y0, dark, inverted, 177 * 177) && Drawn(s, x0, y0, other, inverted, 177 * 177) && d < RASTER && k < 8
    ensures BitOn(s[d], k) == BitOn(Canonical(r, m, cw)[d], k)
  {
    hide BitOn, Add, ScatterUpTo, InSquare, ModuleOf, Hit, Toggles, ModuleEntry;
    assert DrawnAt(r, x0, y0, dark, inverted, 177 * 177, d, k) && DrawnAt(s, x0, y0, other, inverted, 177 * 177, d, k);
    ScatterBits(m, mods, cw, x0, y0, d, k, CODEWORDS);
    BitOnAdd(r[d], Scatter(m, cw)[d], k);
    HitIsToggle(m, mods, cw, x0, y0, d, k);
  }

  lemma HitIsToggle(m: seq<Entry>, mods: seq<nat>, cw: Bytes, x0: nat, y0: nat, d: nat, k: nat)
    requires MapOf(m, mods, x0, y0) && |cw| == CODEWORDS && k < 8
    ensures Hit(mods, cw, x0, y0, d, k, 0, 8 * CODEWORDS) <==>
              InSquare(x0, y0, d, k) && Toggles(mods, cw, ModuleOf(x0, y0, d, k))
  {
    hide On, ModuleEntry, AtPixel, InSquare, ModuleOf;
    if Hit(mods, cw, x0, y0, d, k, 0, 8 * CODEWORDS) {
      var i :| 0 <= i < 8 * CODEWORDS && HitAt(mods, cw, x0, y0, d, k, i);
      PixelOfModule(x0, y0, mods[i], d, k);
    }
    if InSquare(x0, y0, d, k) && Toggles(mods, cw, ModuleOf(x0, y0, d, k)) {
      var i :| 0 <= i < |mods| && On(cw, i) && mods[i] == ModuleOf(x0, y0, d, k);
      PixelOfModule(x0, y0, mods[i], d, k);
      assert HitAt(mods, cw, x0, y0, d, k, i);
    }
  }

  // ----- the map of the protected-mode sender is such a map

  // When no two entries of the placement name the same module.
  lemma PreparedMap(bytes: seq<nat>, masks: seq<Byte>, map32: seq<Entry>) returns (mods: seq<nat>)
    requires InSymbol(bytes, masks) && ShapedMap(map32) && |map32| == |bytes|
    requires forall i :: 0 <= i < |map32| ==> Entered(map32[i], bytes[i], masks[i])
    requires forall i, j :: 0 <= i < |bytes| && 0 <= j < |bytes| && i != j ==> bytes[i] != bytes[j] || masks[i] != masks[j]
    ensures MapOf(map32, mods, X0, Y0)
  {
    hide IsBit, ModuleEntry;
    mods := [];
    var n := 0;
    while n < |bytes|
      invariant n == |mods| <= |bytes|
      invariant forall i :: 0 <= i < n ==> mods[i] < 177 * 177 && map32[i] == ModuleEntry(X0, Y0, mods[i])
    {
      var l := EntryModule(bytes[n], masks[n], map32[n]);
      mods := mods + [l];
      n := n + 1;
    }
    forall i, j | 0 <= i < |mods| && 0 <= j < |mods| && i != j ensures mods[i] != mods[j] {
      EntriesApart(map32, bytes, masks, i, j);
    }
  }

  lemma EntryModule(b: nat, m: Byte, e: Entry) returns (l: nat)
    requires b > 0 && ModuleBound(b, m) && Entered(e, b, m)
    ensures l < 177 * 177 && e == ModuleEntry(X0, Y0, l)
  {
    hide IsBit, ModuleEntry;
    var bit :| IsBit(m, bit) && e == ModuleEntry(X0, Y0, Linear(b, bit));
    BitSmall(m, bit);
    l := Linear(b, bit);
  }
}
