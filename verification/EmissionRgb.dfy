// vga.c: the difference renders of three colour planes at once.  One map entry
// serves the three planes, which are toggled module by module in turn.

module EmissionRgb {
  import opened Gf2
  import opened V40L
  import opened Raster
  import opened Emission

  // One array a plane.
  datatype Planes = Planes(red: array<Byte>, green: array<Byte>, blue: array<Byte>)

  predicate Sized(p: Planes, n: nat) {
    && p.red.Length == p.green.Length == p.blue.Length == n
    && p.red != p.green && p.green != p.blue && p.red != p.blue
  }

  function Or(a: Byte, b: Byte): Byte {
    a | b
  }

  lemma BitOnOr(a: Byte, b: Byte, k: nat)
    requires k < 8
    ensures BitOn(Or(a, b), k) == (BitOn(a, k) || BitOn(b, k))
  {
    if k == 0 { Or7(a, b); } else if k == 1 { Or6(a, b); } else if k == 2 { Or5(a, b); }
    else if k == 3 { Or4(a, b); } else if k == 4 { Or3(a, b); } else if k == 5 { Or2(a, b); }
    else if k == 6 { Or1(a, b); } else { Or0(a, b); }
  }

  lemma Or7(a: Byte, b: Byte) ensures BitOn(Or(a, b), 0) == (BitOn(a, 0) || BitOn(b, 0)) {}
  lemma Or6(a: Byte, b: Byte) ensures BitOn(Or(a, b), 1) == (BitOn(a, 1) || BitOn(b, 1)) {}
  lemma Or5(a: Byte, b: Byte) ensures BitOn(Or(a, b), 2) == (BitOn(a, 2) || BitOn(b, 2)) {}
  lemma Or4(a: Byte, b: Byte) ensures BitOn(Or(a, b), 3) == (BitOn(a, 3) || BitOn(b, 3)) {}
  lemma Or3(a: Byte, b: Byte) ensures BitOn(Or(a, b), 4) == (BitOn(a, 4) || BitOn(b, 4)) {}
  lemma Or2(a: Byte, b: Byte) ensures BitOn(Or(a, b), 5) == (BitOn(a, 5) || BitOn(b, 5)) {}
  lemma Or1(a: Byte, b: Byte) ensures BitOn(Or(a, b), 6) == (BitOn(a, 6) || BitOn(b, 6)) {}
  lemma Or0(a: Byte, b: Byte) ensures BitOn(Or(a, b), 7) == (BitOn(a, 7) || BitOn(b, 7)) {}

  lemma NoneChanged(r: Byte, g: Byte, b: Byte)
    ensures Or(Or(r, g), b) == 0 ==> r == 0 && g == 0 && b == 0
  {}

  // The toggles of one module in one plane.
  function Toggled(before: Bytes, e: Entry, on: bool): Bytes
    requires |before| == RASTER && e.offset < RASTER
  {
    if on then before[e.offset := Add(before[e.offset], e.mask)] else before
  }

  // APPLY_RGB_MODULE.
  method ToggleModule(e: Entry, r: Byte, g: Byte, b: Byte, k: nat, screen: Planes)
    requires Sized(screen, RASTER) && e.offset < RASTER && k < 8
    modifies screen.red, screen.green, screen.blue
    ensures screen.red[..] == Toggled(old(screen.red[..]), e, BitOn(r, k))
    ensures screen.green[..] == Toggled(old(screen.green[..]), e, BitOn(g, k))
    ensures screen.blue[..] == Toggled(old(screen.blue[..]), e, BitOn(b, k))
  {
    hide BitOn, Or, Add;
    BitOnOr(r, g, k);
    BitOnOr(Or(r, g), b, k);
    if BitOn(Or(Or(r, g), b), k) {
      if BitOn(r, k) { screen.red[e.offset] := Add(screen.red[e.offset], e.mask); }
      if BitOn(g, k) { screen.green[e.offset] := Add(screen.green[e.offset], e.mask); }
      if BitOn(b, k) { screen.blue[e.offset] := Add(screen.blue[e.offset], e.mask); }
    }
  }

  lemma NextSpot(m: seq<Entry>, i: nat, v: Byte, n: nat, start: Bytes, before: Bytes, after: Bytes)
    requires ShapedMap(m) && i < CODEWORDS && n < 8 && |start| == RASTER && m[i * 8 + n].offset < RASTER
    requires before == Xor(start, SpotsUpTo(m, i, v, n)) && after == Toggled(before, m[i * 8 + n], BitOn(v, n))
    ensures after == Xor(start, SpotsUpTo(m, i, v, n + 1))
  {
    hide Xor, Add, BitOn, Spot, ShapedMap;
    EntryBound(m, i * 8 + n);
    var e := m[i * 8 + n];
    SpotToggles(before, e, BitOn(v, n));
    XorAssoc(start, SpotsUpTo(m, i, v, n), Spot(e, BitOn(v, n)));
  }

  // APPLY_CHANGED_BYTE3.
  method ToggleCodeword3(m: seq<Entry>, i: nat, r: Byte, g: Byte, b: Byte, screen: Planes)
    requires ShapedMap(m) && i < CODEWORDS && Sized(screen, RASTER)
    modifies screen.red, screen.green, screen.blue
    ensures screen.red[..] == Xor(old(screen.red[..]), Spots(m, i, r))
    ensures screen.green[..] == Xor(old(screen.green[..]), Spots(m, i, g))
    ensures screen.blue[..] == Xor(old(screen.blue[..]), Spots(m, i, b))
  {
    hide Xor, BitOn, ShapedMap, Toggled, SpotsUpTo, Sized;
    ghost var red, green, blue := screen.red[..], screen.green[..], screen.blue[..];
    SizedLengths(screen);
    Unspotted(m, i, r, red);
    Unspotted(m, i, g, green);
    Unspotted(m, i, b, blue);
    for bit := 0 to 8
      invariant screen.red[..] == Xor(red, SpotsUpTo(m, i, r, bit))
      invariant screen.green[..] == Xor(green, SpotsUpTo(m, i, g, bit))
      invariant screen.blue[..] == Xor(blue, SpotsUpTo(m, i, b, bit))
    {
      EntryBound(m, i * 8 + bit);
      ghost var r0, g0, b0 := screen.red[..], screen.green[..], screen.blue[..];
      ToggleModule(m[i * 8 + bit], r, g, b, bit, screen);
      NextSpot(m, i, r, bit, red, r0, screen.red[..]);
      NextSpot(m, i, g, bit, green, g0, screen.green[..]);
      NextSpot(m, i, b, bit, blue, b0, screen.blue[..]);
    }
  }

  lemma SizedLengths(p: Planes)
    requires Sized(p, RASTER)
    ensures p.red.Length == p.green.Length == p.blue.Length == RASTER
  {}

  lemma Unspotted(m: seq<Entry>, i: nat, v: Byte, start: Bytes)
    requires ShapedMap(m) && i < CODEWORDS && |start| == RASTER
    ensures start == Xor(start, SpotsUpTo(m, i, v, 0))
  {
    hide Xor, ShapedMap;
    XorZero(start);
  }

  // Where one plane started and what it is to become.
  datatype Course = Course(stream: Bytes, before: Bytes, was: Bytes)

  ghost predicate Emitted3(m: seq<Entry>, r: Course, g: Course, b: Course, current: Planes, screen: Planes, cw: nat)
    reads current.red, current.green, current.blue, screen.red, screen.green, screen.blue
  {
    && Apart(current, screen)
    && Emitted(m, r.stream, r.before, r.was, current.red, screen.red, cw)
    && Emitted(m, g.stream, g.before, g.was, current.green, screen.green, cw)
    && Emitted(m, b.stream, b.before, b.was, current.blue, screen.blue, cw)
  }

  predicate Apart(current: Planes, screen: Planes) {
    && Sized(current, CODEWORDS) && Sized(screen, RASTER)
    && current.red != screen.red && current.red != screen.green && current.red != screen.blue
    && current.green != screen.red && current.green != screen.green && current.green != screen.blue
    && current.blue != screen.red && current.blue != screen.green && current.blue != screen.blue
  }

  // One plane after a codeword.
  lemma EmittedNext(m: seq<Entry>, c: Course, p: Bytes, s: Bytes, current: array<Byte>, screen: array<Byte>, cw: nat, value: Byte)
    requires ShapedMap(m) && |c.stream| == |c.before| == |p| == current.Length == CODEWORDS && |c.was| == |s| == screen.Length == RASTER
    requires current != screen && cw < CODEWORDS && value == c.stream[cw]
    requires p == c.stream[..cw] + c.before[cw..] && s == Xor(c.was, Scatter(m, Xor(c.before, p)))
    requires current[..] == p[cw := value] && screen[..] == Xor(s, Spots(m, cw, Add(value, p[cw])))
    ensures Emitted(m, c.stream, c.before, c.was, current, screen, cw + 1)
  {
    hide ShapedMap, Xor, Scatter, Add, Spots;
    DeltaStep(m, c.was, c.before, p, cw, value);
    assert p[cw := value] == c.stream[..cw + 1] + c.before[cw + 1..];
  }

  lemma EmittedParts(m: seq<Entry>, c: Course, current: array<Byte>, screen: array<Byte>, cw: nat)
    requires Emitted(m, c.stream, c.before, c.was, current, screen, cw)
    ensures ShapedMap(m) && |c.stream| == |c.before| == current.Length == CODEWORDS && |c.was| == screen.Length == RASTER
    ensures current != screen && cw <= CODEWORDS && current[..] == c.stream[..cw] + c.before[cw..]
    ensures screen[..] == Xor(c.was, Scatter(m, Xor(c.before, current[..])))
  {
    hide ShapedMap, Xor, Scatter;
  }

  // EMIT_VALUE3.
  method Emit3(m: seq<Entry>, ghost r: Course, ghost g: Course, ghost b: Course, current: Planes, screen: Planes, cw: nat,
               red: Byte, green: Byte, blue: Byte)
    requires Emitted3(m, r, g, b, current, screen, cw) && cw < CODEWORDS
    requires |r.stream| == |g.stream| == |b.stream| == CODEWORDS && red == r.stream[cw] && green == g.stream[cw] && blue == b.stream[cw]
    modifies current.red, current.green, current.blue, screen.red, screen.green, screen.blue
    ensures Emitted3(m, r, g, b, current, screen, cw + 1)
  {
    hide ShapedMap, Xor, Scatter, Add, Or, Emitted, Spots;
    EmittedParts(m, r, current.red, screen.red, cw);
    EmittedParts(m, g, current.green, screen.green, cw);
    EmittedParts(m, b, current.blue, screen.blue, cw);
    ghost var pr, pg, pb := current.red[..], current.green[..], current.blue[..];
    ghost var sr, sg, sb := screen.red[..], screen.green[..], screen.blue[..];
    var dr, dg, db := Add(red, current.red[cw]), Add(green, current.green[cw]), Add(blue, current.blue[cw]);
    current.red[cw], current.green[cw], current.blue[cw] := red, green, blue;
    NoneChanged(dr, dg, db);
    SpotsNothing(m, cw, sr);
    SpotsNothing(m, cw, sg);
    SpotsNothing(m, cw, sb);
    if Or(Or(dr, dg), db) != 0 {
      ToggleCodeword3(m, cw, dr, dg, db, screen);
    }
    EmittedNext(m, r, pr, sr, current.red, screen.red, cw, red);
    EmittedNext(m, g, pg, sg, current.green, screen.green, cw, green);
    EmittedNext(m, b, pb, sb, current.blue, screen.blue, cw, blue);
  }

  lemma SpotsNothing(m: seq<Entry>, i: nat, s: Bytes)
    requires ShapedMap(m) && i < CODEWORDS && |s| == RASTER
    ensures Xor(s, Spots(m, i, 0)) == s
  {
    hide ShapedMap, Xor, Spots;
    SpotsNone(m, i);
    XorZero(s);
  }

  // What both renders promise of one plane: codewords and raster before and now.
  ghost predicate Redrawn(m: seq<Entry>, stream: Bytes, before: Bytes, was: Bytes, codewords: Bytes, raster: Bytes) {
    && ShapedMap(m) && |stream| == |before| == CODEWORDS && |was| == RASTER
    && codewords == stream && raster == Xor(was, Scatter(m, Xor(before, stream)))
  }

  // vga_apply_codeword_delta3.
  method CodewordDelta3(m: seq<Entry>, red: Bytes, green: Bytes, blue: Bytes, current: Planes, screen: Planes)
    requires ShapedMap(m) && Apart(current, screen) && |red| == |green| == |blue| == CODEWORDS
    modifies current.red, current.green, current.blue, screen.red, screen.green, screen.blue
    ensures Redrawn(m, red, old(current.red[..]), old(screen.red[..]), current.red[..], screen.red[..])
    ensures Redrawn(m, green, old(current.green[..]), old(screen.green[..]), current.green[..], screen.green[..])
    ensures Redrawn(m, blue, old(current.blue[..]), old(screen.blue[..]), current.blue[..], screen.blue[..])
  {
    hide ShapedMap, Emitted, Xor, Scatter;
    ghost var r, g, b := Start(m, red, current.red, screen.red), Start(m, green, current.green, screen.green), Start(m, blue, current.blue, screen.blue);
    for i := 0 to CODEWORDS
      invariant Emitted3(m, r, g, b, current, screen, i)
    {
      Emit3(m, r, g, b, current, screen, i, red[i], green[i], blue[i]);
    }
    AllEmitted(m, red, r.before, r.was, current.red, screen.red);
    AllEmitted(m, green, g.before, g.was, current.green, screen.green);
    AllEmitted(m, blue, b.before, b.was, current.blue, screen.blue);
  }

  ghost function Start(m: seq<Entry>, stream: Bytes, current: array<Byte>, screen: array<Byte>): (c: Course)
    requires ShapedMap(m) && |stream| == current.Length == CODEWORDS && screen.Length == RASTER && current != screen
    reads current, screen
    ensures c == Course(stream, current[..], screen[..]) && Emitted(m, c.stream, c.before, c.was, current, screen, 0)
  {
    hide Emitted;
    NothingEmitted(m, stream, current, screen);
    Course(stream, current[..], screen[..])
  }

  // The data columns, row by row.
  method EmitColumns(m: seq<Entry>, data: seq<Bytes>, ecc: seq<Bytes>, ghost r: Course, ghost g: Course, ghost b: Course,
                     current: Planes, screen: Planes)
    requires Inputs3(data, ecc) && Streams3(data, ecc, r, g, b) && Emitted3(m, r, g, b, current, screen, 0)
    modifies current.red, current.green, current.blue, screen.red, screen.green, screen.blue
    ensures Emitted3(m, r, g, b, current, screen, 2950)
  {
    hide Emitted3, Interleaved;
    var cw := 0;
    for row := 0 to 118
      invariant cw == row * 25 && Emitted3(m, r, g, b, current, screen, cw)
    {
      for block := 0 to 25
        invariant cw == row * 25 + block && Emitted3(m, r, g, b, current, screen, cw)
      {
        DataAt(data[0], ecc[0], block, row);
        DataAt(data[1], ecc[1], block, row);
        DataAt(data[2], ecc[2], block, row);
        var at := OFFSETS[block] + row;
        Emit3(m, r, g, b, current, screen, cw, data[0][at], data[1][at], data[2][at]);
        cw := cw + 1;
      }
    }
  }

  method EmitRest(m: seq<Entry>, data: seq<Bytes>, ecc: seq<Bytes>, ghost r: Course, ghost g: Course, ghost b: Course,
                  current: Planes, screen: Planes)
    requires Inputs3(data, ecc) && Streams3(data, ecc, r, g, b) && Emitted3(m, r, g, b, current, screen, 2950)
    modifies current.red, current.green, current.blue, screen.red, screen.green, screen.blue
    ensures Emitted3(m, r, g, b, current, screen, CODEWORDS)
  {
    hide Emitted3, Interleaved;
    var cw := 2950;
    for block := 19 to 25
      invariant cw == 2950 + block - 19 && Emitted3(m, r, g, b, current, screen, cw)
    {
      DataAt(data[0], ecc[0], block, 118);
      DataAt(data[1], ecc[1], block, 118);
      DataAt(data[2], ecc[2], block, 118);
      var at := OFFSETS[block] + 118;
      Emit3(m, r, g, b, current, screen, cw, data[0][at], data[1][at], data[2][at]);
      cw := cw + 1;
    }
    for row := 0 to 30
      invariant cw == 2956 + row * 25 && Emitted3(m, r, g, b, current, screen, cw)
    {
      for block := 0 to 25
        invariant cw == 2956 + row * 25 + block && Emitted3(m, r, g, b, current, screen, cw)
      {
        EccAt(data[0], ecc[0], block, row);
        EccAt(data[1], ecc[1], block, row);
        EccAt(data[2], ecc[2], block, row);
        var at := block * 30 + row;
        Emit3(m, r, g, b, current, screen, cw, ecc[0][at], ecc[1][at], ecc[2][at]);
        cw := cw + 1;
      }
    }
  }

  predicate Inputs3(data: seq<Bytes>, ecc: seq<Bytes>) {
    && |data| == |ecc| == 3
    && forall k :: 0 <= k < 3 ==> |data[k]| == DATA_CODEWORDS && |ecc[k]| == BLOCKS * ECC
  }

  ghost predicate Streams3(data: seq<Bytes>, ecc: seq<Bytes>, r: Course, g: Course, b: Course)
    requires Inputs3(data, ecc)
  {
    && r.stream == Interleaved(data[0], ecc[0]) && g.stream == Interleaved(data[1], ecc[1]) && b.stream == Interleaved(data[2], ecc[2])
  }

  // vga_apply_v40l_delta3.
  method ApplyDelta3(m: seq<Entry>, data: seq<Bytes>, ecc: seq<Bytes>, current: Planes, screen: Planes) returns (ok: bool)
    requires ShapedMap(m) && Inputs3(data, ecc) && Apart(current, screen)
    modifies current.red, current.green, current.blue, screen.red, screen.green, screen.blue
    ensures ok && Redrawn(m, Interleaved(data[0], ecc[0]), old(current.red[..]), old(screen.red[..]), current.red[..], screen.red[..])
    ensures Redrawn(m, Interleaved(data[1], ecc[1]), old(current.green[..]), old(screen.green[..]), current.green[..], screen.green[..])
    ensures Redrawn(m, Interleaved(data[2], ecc[2]), old(current.blue[..]), old(screen.blue[..]), current.blue[..], screen.blue[..])
  {
    hide ShapedMap, Emitted, Interleaved, Xor, Scatter;
    ghost var red, green, blue := Interleaved(data[0], ecc[0]), Interleaved(data[1], ecc[1]), Interleaved(data[2], ecc[2]);
    ghost var r, g, b := Start(m, red, current.red, screen.red), Start(m, green, current.green, screen.green), Start(m, blue, current.blue, screen.blue);
    EmitColumns(m, data, ecc, r, g, b, current, screen);
    EmitRest(m, data, ecc, r, g, b, current, screen);
    AllEmitted(m, red, r.before, r.was, current.red, screen.red);
    AllEmitted(m, green, g.before, g.was, current.green, screen.green);
    AllEmitted(m, blue, b.before, b.was, current.blue, screen.blue);
    ok := true;
  }
}
