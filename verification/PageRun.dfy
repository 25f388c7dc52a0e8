// vga.c of dos_sender_legacy: any sequence of renders.  Whatever order full,
// direct and delta renders, status lines and flips come in, the visible page
// carries the symbol that was drawn when it was last flipped.

module PageRun {
  import opened Gf2
  import opened V40L
  import opened Raster
  import opened Repair
  import opened Pages

  // A symbol: its function modules and a codeword stream for every channel.
  datatype Picture = Picture(functions: Bytes, codewords: seq<Bytes>)

  datatype Op =
    | Full(picture: Picture, invert: bool, text: Option<Bytes>, memory: bool)
    | Direct(direct: seq<Bytes>)
    | Delta(next: seq<Bytes>)
    | Prepared(invert: bool, text: Option<Bytes>)

  predicate GoodOp(op: Op) {
    match op
    case Full(p, invert, _, _) => Streams(p.codewords) && BlankRest(p.functions, invert) && BlankStatus(p.functions, invert)
    case Direct(cw) => Streams(cw)
    case Delta(cw) => Streams(cw)
    case Prepared(_, _) => true
  }

  predicate Streams(codewords: seq<Bytes>) {
    |codewords| == 3 && forall ch :: 0 <= ch < 3 ==> |codewords[ch]| == CODEWORDS
  }

  // What a user of the renderer knows: the symbol in the shadow and the one on
  // the visible page.
  datatype Scene = Scene(started: bool, inverted: bool, direct: bool, drawn: Picture, visible: Option<Picture>)

  const DARK: Scene := Scene(false, false, false, Picture([], []), None)

  // A full render draws and shows; direct and delta renders draw, the first
  // only with a captured template; a prepared flip shows what is drawn, unless
  // the polarity has changed.
  function After(s: Scene, op: Op): Scene {
    match op
    case Full(p, invert, _, memory) => Scene(true, invert, memory, p, Some(p))
    case Direct(cw) => if s.started && s.direct then s.(drawn := s.drawn.(codewords := cw)) else s
    case Delta(cw) => if s.started then s.(drawn := s.drawn.(codewords := cw)) else s
    case Prepared(invert, _) => if s.started && s.inverted == invert then s.(visible := Some(s.drawn)) else s
  }

  function AfterAll(ops: seq<Op>): Scene {
    if ops == [] then DARK else After(AfterAll(ops[..|ops| - 1]), ops[|ops| - 1])
  }

  // The visible page carries the picture: in every plane in use its strip is
  // the function modules XOR the scatter of that plane's codewords.
  ghost predicate Visible(d: Display, p: Picture)
    reads d, d.vram
  {
    && d.Valid() && Streams(p.codewords) && |p.functions| == RASTER && ShapedMap(d.map32)
    && forall plane :: 0 <= plane < 4 && !d.Spare(plane) ==>
         SameStrip(d.Plane(d.displayPage, plane), Xor(p.functions, Scatter(d.map32, p.codewords[if d.rgb then 2 - plane else 0])))
  }

  ghost predicate Drawn(d: Display, p: Picture)
    reads d, d.red, d.green, d.blue
  {
    d.Valid() && Streams(p.codewords) && d.functions == p.functions && d.AllHold(p.codewords)
  }

  ghost predicate Matches(d: Display, s: Scene)
    reads d, d.red, d.green, d.blue, d.vram
  {
    && d.Valid() && d.Clean() && d.started == s.started
    && (s.started ==> d.inverted == s.inverted && d.templateReady == s.direct && Drawn(d, s.drawn))
    && (s.visible.Some? ==> Visible(d, s.visible.value))
  }

  lemma ShownIsVisible(d: Display, p: Picture)
    requires Drawn(d, p) && d.Shows(d.displayPage)
    ensures Visible(d, p)
  {
    hide Display.Clean, Xor, Scatter, SameStrip, ShapedMap;
    forall plane | 0 <= plane < 4 && !d.Spare(plane)
      ensures ShapedMap(d.map32) && SameStrip(d.Plane(d.displayPage, plane), Xor(p.functions, Scatter(d.map32, p.codewords[if d.rgb then 2 - plane else 0]))) {
      assert d.Plane(d.displayPage, plane) == d.ShadowOf(plane);
    }
  }

  method DoFull(d: Display, p: Picture, invert: bool, text: Option<Bytes>, memory: bool, ghost s: Scene)
    requires Matches(d, s) && GoodOp(Full(p, invert, text, memory))
    modifies d, d.red, d.green, d.blue, d.vram
    ensures Matches(d, After(s, Full(p, invert, text, memory)))
  {
    hide Display.Clean, BlankRest, BlankStatus, Display.AllHold, Display.Shows, Visible;
    d.ShowFull(p.functions, p.codewords, invert, text, memory);
    ShownIsVisible(d, p);
  }

  method DoDirect(d: Display, cw: seq<Bytes>, ghost s: Scene) returns (ok: bool)
    requires Matches(d, s) && Streams(cw)
    modifies d.red, d.green, d.blue
    ensures Matches(d, After(s, Direct(cw)))
    ensures ok <==> s.started && s.direct
    ensures !ok ==> d.red[..] == old(d.red[..]) && d.green[..] == old(d.green[..]) && d.blue[..] == old(d.blue[..])
  {
    hide Display.Clean, Visible, ShapedMap, Xor, Scatter, SameStrip;
    ok := false;
    if d.started {
      ok := d.ApplyDirect(cw);
    }
  }

  // The caller's codewords are those of the shadow.
  ghost predicate Kept(d: Display, current: seq<array<Byte>>, s: Scene)
    requires d.CallerArrays(current)
    reads current[0], current[1], current[2]
  {
    s.started ==>
      && Streams(s.drawn.codewords) && current[0][..] == s.drawn.codewords[0]
      && (d.rgb ==> current[1][..] == s.drawn.codewords[1] && current[2][..] == s.drawn.codewords[2])
  }

  ghost predicate Separate(d: Display, current: seq<array<Byte>>) {
    && d.CallerArrays(current) && d.red !in current && d.green !in current && d.blue !in current
  }

  method DoDelta(d: Display, cw: seq<Bytes>, current: seq<array<Byte>>, ghost s: Scene)
    requires Matches(d, s) && Streams(cw) && Separate(d, current) && Kept(d, current, s)
    modifies d.red, d.green, d.blue, current[0], current[1], current[2]
    ensures Matches(d, After(s, Delta(cw))) && Kept(d, current, After(s, Delta(cw)))
  {
    hide Display.Clean, Visible, ShapedMap, Xor, Scatter, SameStrip;
    if d.started {
      d.ApplyDelta(cw, current);
    }
  }

  // Status rows do not matter to what a screen holds.
  lemma StillHolds(d: Display, p: Picture, red: Bytes, green: Bytes, blue: Bytes)
    requires d.Valid() && Streams(p.codewords) && d.functions == p.functions && ShapedMap(d.map32)
    requires SameStrip(d.red[..], red) && SameStrip(d.green[..], green) && SameStrip(d.blue[..], blue)
    requires SameStrip(red, Xor(p.functions, Scatter(d.map32, p.codewords[0])))
    requires d.rgb ==> SameStrip(green, Xor(p.functions, Scatter(d.map32, p.codewords[1])))
    requires d.rgb ==> SameStrip(blue, Xor(p.functions, Scatter(d.map32, p.codewords[2])))
    ensures Drawn(d, p)
  {
    hide InStrip, Xor, Scatter, ShapedMap;
  }

  method DoPrepared(d: Display, invert: bool, text: Option<Bytes>, ghost s: Scene)
    requires Matches(d, s)
    modifies d, d.red, d.green, d.blue, d.vram
    ensures Matches(d, After(s, Prepared(invert, text)))
  {
    hide Display.Clean, Display.Shows, Visible, ShapedMap, Xor, Scatter, SameStrip, Display.ShadowsOk, Display.PagesReady;
    ghost var red, green, blue := d.red[..], d.green[..], d.blue[..];
    var ok := d.ShowPrepared(invert, text);
    if ok {
      StillHolds(d, s.drawn, red, green, blue);
      ShownIsVisible(d, s.drawn);
    }
  }

  // ----- any sequence

  // The caller's record of the codewords in the shadow.
  method Keep(current: seq<array<Byte>>, cw: seq<Bytes>)
    requires Streams(cw) && |current| == 3 && forall ch :: 0 <= ch < 3 ==> current[ch].Length == CODEWORDS
    requires current[0] != current[1] && current[1] != current[2] && current[0] != current[2]
    modifies current[0], current[1], current[2]
    ensures current[0][..] == cw[0] && current[1][..] == cw[1] && current[2][..] == cw[2]
  {
    KeepOne(current[0], cw[0]);
    KeepOne(current[1], cw[1]);
    KeepOne(current[2], cw[2]);
  }

  method KeepOne(a: array<Byte>, cw: Bytes)
    requires a.Length == |cw|
    modifies a
    ensures a[..] == cw
  {
    for i := 0 to a.Length
      invariant a[..i] == cw[..i]
    {
      a[i] := cw[i];
    }
    assert cw[..|cw|] == cw;
  }

  method Do(d: Display, op: Op, current: seq<array<Byte>>, ghost s: Scene)
    requires Matches(d, s) && GoodOp(op) && Separate(d, current) && Kept(d, current, s)
    modifies d, d.red, d.green, d.blue, d.vram, current[0], current[1], current[2]
    ensures Matches(d, After(s, op)) && Kept(d, current, After(s, op))
  {
    hide Display.Clean, Visible, BlankRest, BlankStatus, Display.AllHold;
    match op
    case Full(p, invert, text, memory) =>
      DoFull(d, p, invert, text, memory, s);
      Keep(current, p.codewords);
    case Direct(cw) =>
      var ok := DoDirect(d, cw, s);
      if ok { Keep(current, cw); }
    case Delta(cw) =>
      DoDelta(d, cw, current, s);
    case Prepared(invert, text) =>
      DoPrepared(d, invert, text, s);
  }

  lemma AfterNext(ops: seq<Op>, k: nat)
    requires k < |ops|
    ensures AfterAll(ops[..k + 1]) == After(AfterAll(ops[..k]), ops[k])
  {
    assert ops[..k + 1][..k] == ops[..k];
  }

  // From an empty display, after any operations: the visible page carries what
  // AfterAll says, and pages, shadow and status rows are in order.
  method Play(d: Display, ops: seq<Op>)
    requires d.Valid() && d.Clean() && !d.started
    requires forall k :: 0 <= k < |ops| ==> GoodOp(ops[k])
    modifies d, d.red, d.green, d.blue, d.vram
    ensures Matches(d, AfterAll(ops))
  {
    hide Display.Clean, Visible, GoodOp, After, Drawn;
    var red, green, blue := new Byte[CODEWORDS], new Byte[CODEWORDS], new Byte[CODEWORDS];
    var current := [red, green, blue];
    assert AfterAll([]) == DARK && ops[..0] == [];
    for k := 0 to |ops|
      invariant fresh(red) && fresh(green) && fresh(blue) && Separate(d, current)
      invariant Matches(d, AfterAll(ops[..k])) && Kept(d, current, AfterAll(ops[..k]))
    {
      AfterNext(ops, k);
      Do(d, ops[k], current, AfterAll(ops[..k]));
    }
    assert ops[..|ops|] == ops;
  }
}
