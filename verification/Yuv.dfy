// Rgb3Yuv.java: the camera image to three luminance planes.  The fast loop
// reads each chroma sample once for up to four pixels; it must give every
// pixel what the plain formula gives.

module Yuv {
  import opened Repair

  type Sample = n: nat | n < 256

  // One plane of the image: bytes, position of the first, and strides.
  datatype Plane = Plane(bytes: seq<Sample>, position: nat, rowStride: nat, pixelStride: nat)

  function Index(p: Plane, row: nat, col: nat): nat {
    p.position + row * p.rowStride + col * p.pixelStride
  }

  // The plane holds the sample, and with it every one above and to the left.
  predicate Holds(p: Plane, row: nat, col: nat) {
    Index(p, row, col) < |p.bytes|
  }

  lemma HoldsBefore(p: Plane, row: nat, col: nat, r: nat, c: nat)
    requires Holds(p, row, col) && r <= row && c <= col
    ensures Holds(p, r, c)
  {
    MulMono(r, row, p.rowStride);
    MulMono(c, col, p.pixelStride);
  }

  function At(p: Plane, row: nat, col: nat): nat {
    var i := Index(p, row, col);
    if i < |p.bytes| then p.bytes[i] else 0
  }

  // The limited-range terms.
  function YTerm(value: nat): int { 298 * (if value < 16 then 0 else value - 16) + 128 }
  function RedV(v: nat): int { 409 * (v - 128) }
  function GreenUv(u: nat, v: nat): int { -100 * (u - 128) - 208 * (v - 128) }
  function BlueU(u: nat): int { 516 * (u - 128) }

  // The arithmetic shift right by eight rounds down, as division here does.
  function Clamp(value: int): nat {
    var x := value / 256;
    if x < 0 then 0 else if x < 255 then x else 255
  }

  datatype Image = Image(y: Plane, u: Plane, v: Plane, left: nat, top: nat, width: nat, height: nat)

  // The three samples of a pixel are there.
  predicate Readable(m: Image, row: nat, col: nat) {
    && Holds(m.y, m.top + row, m.left + col)
    && Holds(m.u, (m.top + row) / 2, (m.left + col) / 2) && Holds(m.v, (m.top + row) / 2, (m.left + col) / 2)
  }

  // Those of the last pixel are, and so of all.
  predicate Covered(m: Image) {
    m.width > 0 && m.height > 0 && Readable(m, m.height - 1, m.width - 1)
  }

  lemma AllReadable(m: Image, row: nat, col: nat)
    requires Covered(m) && row < m.height && col < m.width
    ensures Readable(m, row, col)
  {
    hide Holds;
    HoldsBefore(m.y, m.top + m.height - 1, m.left + m.width - 1, m.top + row, m.left + col);
    var r, c := (m.top + m.height - 1) / 2, (m.left + m.width - 1) / 2;
    HoldsBefore(m.u, r, c, (m.top + row) / 2, (m.left + col) / 2);
    HoldsBefore(m.v, r, c, (m.top + row) / 2, (m.left + col) / 2);
  }

  // The chroma terms of the sample at chroma position (row, col).
  function Terms(m: Image, row: nat, col: nat): (t: seq<int>)
    ensures |t| == 3
  {
    var u, v := At(m.u, row, col), At(m.v, row, col);
    [RedV(v), GreenUv(u, v), BlueU(u)]
  }

  // The plain formula: each pixel with the chroma at half its coordinates.
  function Pixel(m: Image, row: nat, col: nat, channel: nat): nat
    requires channel < 3
  {
    Clamp(YTerm(At(m.y, m.top + row, m.left + col)) + Terms(m, (m.top + row) / 2, (m.left + col) / 2)[channel])
  }

  // The same by position in the packed output.
  function PixelAt(m: Image, n: nat, channel: nat): nat
    requires m.width > 0 && channel < 3
  {
    Pixel(m, n / m.width, n % m.width, channel)
  }

  lemma Packed(width: nat, row: nat, col: nat)
    requires col < width
    ensures (row * width + col) / width == row && (row * width + col) % width == col
  {
    var n := row * width + col;
    var q := n / width;
    assert n == q * width + n % width;
    MulMono(q + 1, row, width);
    MulMono(row + 1, q, width);
  }

  lemma MulMono(a: nat, b: nat, w: nat)
    ensures a <= b ==> a * w <= b * w
  {}

  lemma Shared(m: Image, row: nat, col: nat, channel: nat, terms: seq<int>)
    requires m.width > 0 && col < m.width && channel < 3
    requires terms == Terms(m, (m.top + row) / 2, (m.left + col) / 2)
    ensures PixelAt(m, row * m.width + col, channel) == Clamp(YTerm(At(m.y, m.top + row, m.left + col)) + terms[channel])
  {
    hide Clamp, YTerm, Terms, At;
    Packed(m.width, row, col);
  }

  // An absolute read at a base computed for the row; None is the exception of a
  // buffer that is too short.
  method Read(p: Plane, row: nat, col: nat) returns (b: Option<Sample>)
    ensures b == if Holds(p, row, col) then Some(At(p, row, col)) else None
  {
    var base := p.position + row * p.rowStride;
    var i := base + col * p.pixelStride;
    assert i == Index(p, row, col);
    b := if i < |p.bytes| then Some(p.bytes[i]) else None;
  }

  // The two chroma reads and their products.
  method ReadTerms(m: Image, row: nat, col: nat) returns (terms: Option<seq<int>>)
    requires row < m.height && col < m.width
    ensures terms.Some? ==> terms.value == Terms(m, (m.top + row) / 2, (m.left + col) / 2) && Chroma(m, row, col)
    ensures terms.None? ==> !Covered(m)
  {
    hide At, Holds;
    if Covered(m) { AllReadable(m, row, col); }
    var u := Read(m.u, (m.top + row) / 2, (m.left + col) / 2);
    if u.None? { return None; }
    var v := Read(m.v, (m.top + row) / 2, (m.left + col) / 2);
    if v.None? { return None; }
    terms := Some([RedV(v.value), GreenUv(u.value, v.value), BlueU(u.value)]);
  }

  predicate Chroma(m: Image, row: nat, col: nat) {
    Holds(m.u, (m.top + row) / 2, (m.left + col) / 2) && Holds(m.v, (m.top + row) / 2, (m.left + col) / 2)
  }

  // Position n of the output is what the formula gives, from samples that are
  // there.
  ghost predicate Right(m: Image, out: array2<nat>, n: nat)
    requires out.Length0 == 3 && m.width > 0 && n < out.Length1
    reads out
  {
    Readable(m, n / m.width, n % m.width) && forall ch :: 0 <= ch < 3 ==> out[ch, n] == PixelAt(m, n, ch)
  }

  // Exactly the positions below `upto`, and from..last, are written, and right.
  ghost predicate Done(m: Image, out: array2<nat>, written: set<nat>, upto: nat, from: nat, last: nat)
    requires out.Length0 == 3 && m.width > 0
    reads out
  {
    && upto <= out.Length1 && last <= out.Length1
    && (forall n: nat :: n in written <==> n < upto || from <= n < last)
    && (forall n: nat :: n in written ==> n < out.Length1 && Right(m, out, n))
  }

  // putPixel.  A position is never written twice.
  method PutPixel(m: Image, out: array2<nat>, row: nat, col: nat, terms: seq<int>, ghost written: set<nat>)
    returns (ok: bool, ghost after: set<nat>)
    requires out.Length0 == 3 && row < m.height && col < m.width && row * m.width + col < out.Length1
    requires terms == Terms(m, (m.top + row) / 2, (m.left + col) / 2) && Chroma(m, row, col)
    requires row * m.width + col !in written && forall n: nat :: n in written ==> n < out.Length1 && Right(m, out, n)
    modifies out
    ensures ok ==> after == written + {row * m.width + col} && forall n: nat :: n in after ==> n < out.Length1 && Right(m, out, n)
    ensures !ok ==> !Covered(m)
  {
    hide Clamp, YTerm, Terms, At, PixelAt, Holds;
    after := written;
    if Covered(m) { AllReadable(m, row, col); }
    var index := row * m.width + col;
    var y := Read(m.y, m.top + row, m.left + col);
    if y.None? { return false, after; }
    Packed(m.width, row, col);
    Shared(m, row, col, 0, terms);
    Shared(m, row, col, 1, terms);
    Shared(m, row, col, 2, terms);
    out[0, index] := Clamp(YTerm(y.value) + terms[0]);
    out[1, index] := Clamp(YTerm(y.value) + terms[1]);
    out[2, index] := Clamp(YTerm(y.value) + terms[2]);
    ok, after := true, written + {index};
    forall n: nat | n in after ensures n < out.Length1 && Right(m, out, n) {
      if n != index { assert old(Right(m, out, n)); }
    }
  }

  // A band of one or two rows; two rows share their chroma.
  ghost predicate Band(m: Image, out: array2<nat>, row: nat, two: bool) {
    && m.width > 0 && m.height > 0 && out.Length0 == 3 && m.width * m.height <= out.Length1
    && row + (if two then 2 else 1) <= m.height && (two ==> (m.top + row) % 2 == 0)
  }

  // Everything before the band, and the band up to column `col`.
  ghost predicate Progress(m: Image, out: array2<nat>, written: set<nat>, row: nat, two: bool, col: nat)
    requires Band(m, out, row, two)
    reads out
  {
    var next := (row + 1) * m.width;
    Done(m, out, written, row * m.width + col, next, if two then next + col else next)
  }

  // One pixel, and the one below it in a two-row band.
  method PutColumn(m: Image, out: array2<nat>, row: nat, two: bool, col: nat, terms: seq<int>, ghost written: set<nat>)
    returns (ok: bool, ghost after: set<nat>)
    requires Band(m, out, row, two) && col < m.width && Progress(m, out, written, row, two, col)
    requires terms == Terms(m, (m.top + row) / 2, (m.left + col) / 2) && Chroma(m, row, col)
    modifies out
    ensures ok ==> Progress(m, out, after, row, two, col + 1)
    ensures !ok ==> !Covered(m)
  {
    hide Terms, Right, Holds, Covered;
    RowFits(m, row, two);
    ok, after := PutPixel(m, out, row, col, terms, written);
    if ok && two {
      assert (m.top + row + 1) / 2 == (m.top + row) / 2;
      ok, after := PutPixel(m, out, row + 1, col, terms, after);
    }
  }

  lemma RowFits(m: Image, row: nat, two: bool)
    requires row + (if two then 2 else 1) <= m.height
    ensures (row + 1) * m.width == row * m.width + m.width <= m.width * m.height
    ensures two ==> (row + 2) * m.width == row * m.width + 2 * m.width <= m.width * m.height
  {
    MulMono(row + 1, m.height, m.width);
    MulMono(row + 2, m.height, m.width);
  }

  // One column with its own chroma reads.
  method ConvertColumn(m: Image, out: array2<nat>, row: nat, two: bool, col: nat, ghost written: set<nat>)
    returns (ok: bool, ghost after: set<nat>)
    requires Band(m, out, row, two) && col < m.width && Progress(m, out, written, row, two, col)
    modifies out
    ensures ok ==> Progress(m, out, after, row, two, col + 1)
    ensures !ok ==> !Covered(m)
  {
    hide Terms, Done, Covered, Chroma;
    var terms := ReadTerms(m, row, col);
    if terms.None? { return false, written; }
    ok, after := PutColumn(m, out, row, two, col, terms.value, written);
  }

  // Two columns with one chroma read.
  method ConvertPair(m: Image, out: array2<nat>, row: nat, two: bool, col: nat, ghost written: set<nat>)
    returns (ok: bool, ghost after: set<nat>)
    requires Band(m, out, row, two) && col + 1 < m.width && (m.left + col) % 2 == 0 && Progress(m, out, written, row, two, col)
    modifies out
    ensures ok ==> Progress(m, out, after, row, two, col + 2)
    ensures !ok ==> !Covered(m)
  {
    hide Terms, Done, Covered, Holds;
    var terms := ReadTerms(m, row, col);
    if terms.None? { return false, written; }
    assert (m.left + col + 1) / 2 == (m.left + col) / 2;
    ok, after := PutColumn(m, out, row, two, col, terms.value, written);
    if ok { ok, after := PutColumn(m, out, row, two, col + 1, terms.value, after); }
  }

  // The columns of one band: a lone first pixel when the crop starts in the
  // middle of a chroma pair, then pairs, then a lone last pixel.
  method ConvertBand(m: Image, out: array2<nat>, row: nat, two: bool, ghost written: set<nat>)
    returns (ok: bool, ghost after: set<nat>)
    requires Band(m, out, row, two) && Progress(m, out, written, row, two, 0)
    modifies out
    ensures ok ==> Progress(m, out, after, row, two, m.width)
    ensures !ok ==> !Covered(m)
  {
    hide Done, Covered;
    ok, after := true, written;
    var col := 0;
    if m.left % 2 != 0 {
      ok, after := ConvertColumn(m, out, row, two, 0, after);
      if !ok { return; }
      col := 1;
    }
    while col + 1 < m.width
      invariant ok && col <= m.width && (m.left + col) % 2 == 0 && Progress(m, out, after, row, two, col)
    {
      ok, after := ConvertPair(m, out, row, two, col, after);
      if !ok { return; }
      col := col + 2;
    }
    if col < m.width {
      ok, after := ConvertColumn(m, out, row, two, col, after);
    }
  }

  // convert420 after its checks: every pixel of the output is written once, as
  // the plain formula says, or a buffer is too short.
  method Convert(m: Image, out: array2<nat>) returns (ok: bool, ghost written: set<nat>)
    requires m.width > 0 && m.height > 0 && out.Length0 == 3 && m.width * m.height <= out.Length1
    modifies out
    ensures ok <==> Covered(m)
    ensures ok ==> Done(m, out, written, m.height * m.width, 0, 0)
  {
    hide Covered, Right;
    written := {};
    var row := 0;
    while row < m.height
      invariant row <= m.height && Done(m, out, written, row * m.width, row * m.width, row * m.width)
      invariant row > 0 ==> Right(m, out, row * m.width - 1)
    {
      var two := (m.top + row) % 2 == 0 && row + 1 < m.height;
      RowFits(m, row, two);
      ok, written := ConvertBand(m, out, row, two, written);
      if !ok { return; }
      row := row + if two then 2 else 1;
    }
    ok := true;
    LastRight(m, out);
  }

  lemma LastRight(m: Image, out: array2<nat>)
    requires m.width > 0 && m.height > 0 && out.Length0 == 3 && 0 < m.height * m.width <= out.Length1
    requires Right(m, out, m.height * m.width - 1)
    ensures Covered(m)
  {
    hide Readable;
    assert m.height * m.width - 1 == (m.height - 1) * m.width + (m.width - 1);
    Packed(m.width, m.height - 1, m.width - 1);
  }

  // ----- what a pixel looks like

  // ITU-R BT.601, limited range: luma and chroma brought to 0..255, then the
  // colour difference equations.  Luma below black counts as black.
  function Luma(y: Sample): real { (if y < 16 then 0.0 else (y - 16) as real) * 255.0 / 219.0 }
  function Difference(c: Sample): real { (c as real - 128.0) * 255.0 / 224.0 }
  function Red(y: Sample, v: Sample): real { Luma(y) + 2.0 * (1.0 - 0.299) * Difference(v) }
  function Blue(y: Sample, u: Sample): real { Luma(y) + 2.0 * (1.0 - 0.114) * Difference(u) }
  function Green(y: Sample, u: Sample, v: Sample): real { (Luma(y) - 0.299 * Red(y, v) - 0.114 * Blue(y, u)) / 0.587 }

  function Bounded(x: real): real { if x < 0.0 then 0.0 else if x > 255.0 then 255.0 else x }

  predicate Near(c: nat, x: real) {
    c <= 255 && -0.8 < c as real - Bounded(x) < 0.8
  }

  lemma ClampNear(value: int, x: real)
    requires -0.8 < value as real / 256.0 - 1.0 - x && value as real / 256.0 - x < 0.8
    ensures Near(Clamp(value), x)
  {
    var q := value / 256;
    assert 256 * q <= value < 256 * q + 256;
    assert 256.0 * q as real <= value as real < 256.0 * q as real + 256.0;
  }

  lemma RedNear(y: Sample, v: Sample)
    ensures Near(Clamp(YTerm(y) + RedV(v)), Red(y, v))
  {
    ClampNear(YTerm(y) + RedV(v), Red(y, v));
  }

  lemma GreenNear(y: Sample, u: Sample, v: Sample)
    ensures Near(Clamp(YTerm(y) + GreenUv(u, v)), Green(y, u, v))
  {
    ClampNear(YTerm(y) + GreenUv(u, v), Green(y, u, v));
  }

  lemma BlueNear(y: Sample, u: Sample)
    ensures Near(Clamp(YTerm(y) + BlueU(u)), Blue(y, u))
  {
    ClampNear(YTerm(y) + BlueU(u), Blue(y, u));
  }

  // A colour and the samples it was made from.
  predicate Colour(r: nat, g: nat, b: nat, y: Sample, u: Sample, v: Sample) {
    && Near(r, Red(y, v)) && Near(g, Green(y, u, v)) && Near(b, Blue(y, u))
    && (u == v == 128 ==> r == g == b && (y <= 16 ==> r == 0) && (y >= 235 ==> r == 255))
  }

  lemma ColourOfTerms(y: Sample, u: Sample, v: Sample)
    ensures Colour(Clamp(YTerm(y) + RedV(v)), Clamp(YTerm(y) + GreenUv(u, v)), Clamp(YTerm(y) + BlueU(u)), y, u, v)
  {
    hide Near, Red, Green, Blue;
    RedNear(y, v);
    GreenNear(y, u, v);
    BlueNear(y, u);
  }

  predicate Full(c: nat) { 254 <= c <= 255 }
  predicate Off(c: nat) { c <= 1 }

  // The corners of the colour cube come back from their standard triples.
  lemma Corners(r: nat, g: nat, b: nat, y: Sample, u: Sample, v: Sample)
    requires Colour(r, g, b, y, u, v)
    ensures y == 235 && u == 128 && v == 128 ==> Full(r) && Full(g) && Full(b)
    ensures y == 210 && u == 16 && v == 146 ==> Full(r) && Full(g) && Off(b)
    ensures y == 170 && u == 166 && v == 16 ==> Off(r) && Full(g) && Full(b)
    ensures y == 145 && u == 54 && v == 34 ==> Off(r) && Full(g) && Off(b)
    ensures y == 106 && u == 202 && v == 222 ==> Full(r) && Off(g) && Full(b)
    ensures y == 81 && u == 90 && v == 240 ==> Full(r) && Off(g) && Off(b)
    ensures y == 41 && u == 240 && v == 110 ==> Off(r) && Off(g) && Full(b)
    ensures y == 16 && u == 128 && v == 128 ==> Off(r) && Off(g) && Off(b)
  {}

  // Byte i of a plane, by its address in the buffer.
  predicate Sampled(p: Plane, row: nat, col: nat, s: Sample) {
    var i := p.position + row * p.rowStride + col * p.pixelStride;
    i < |p.bytes| && p.bytes[i] == s
  }

  // The pixel is the colour of its own luma sample and of the chroma samples at
  // half its coordinates.
  ghost predicate Faithful(m: Image, out: array2<nat>, row: nat, col: nat)
    requires out.Length0 == 3
    reads out
  {
    var n := row * m.width + col;
    && n < out.Length1
    && exists y: Sample, u: Sample, v: Sample ::
         && Sampled(m.y, m.top + row, m.left + col, y)
         && Sampled(m.u, (m.top + row) / 2, (m.left + col) / 2, u) && Sampled(m.v, (m.top + row) / 2, (m.left + col) / 2, v)
         && Colour(out[0, n], out[1, n], out[2, n], y, u, v)
  }

  lemma AtIsSample(p: Plane, row: nat, col: nat) returns (s: Sample)
    requires Holds(p, row, col)
    ensures s == At(p, row, col) && Sampled(p, row, col, s)
  {
    s := At(p, row, col);
  }

  lemma PixelColour(m: Image, row: nat, col: nat, y: Sample, u: Sample, v: Sample)
    requires y == At(m.y, m.top + row, m.left + col)
    requires u == At(m.u, (m.top + row) / 2, (m.left + col) / 2) && v == At(m.v, (m.top + row) / 2, (m.left + col) / 2)
    ensures Colour(Pixel(m, row, col, 0), Pixel(m, row, col, 1), Pixel(m, row, col, 2), y, u, v)
  {
    hide Clamp, YTerm, RedV, GreenUv, BlueU, Colour, At;
    ColourOfTerms(y, u, v);
  }

  lemma RightIsFaithful(m: Image, out: array2<nat>, row: nat, col: nat)
    requires out.Length0 == 3 && m.width > 0 && col < m.width && row * m.width + col < out.Length1
    requires Right(m, out, row * m.width + col)
    ensures Faithful(m, out, row, col)
  {
    hide Clamp, Colour, Holds, Sampled, At, Pixel;
    var n := row * m.width + col;
    Packed(m.width, row, col);
    assert PixelAt(m, n, 0) == Pixel(m, row, col, 0) && PixelAt(m, n, 1) == Pixel(m, row, col, 1) && PixelAt(m, n, 2) == Pixel(m, row, col, 2);
    var y := AtIsSample(m.y, m.top + row, m.left + col);
    var u := AtIsSample(m.u, (m.top + row) / 2, (m.left + col) / 2);
    var v := AtIsSample(m.v, (m.top + row) / 2, (m.left + col) / 2);
    PixelColour(m, row, col, y, u, v);
    assert Colour(out[0, n], out[1, n], out[2, n], y, u, v);
  }

  lemma DoneIsFaithful(m: Image, out: array2<nat>, written: set<nat>)
    requires m.width > 0 && m.height > 0 && out.Length0 == 3 && m.height * m.width <= out.Length1
    requires Done(m, out, written, m.height * m.width, 0, 0)
    ensures forall row: nat, col: nat :: row < m.height && col < m.width ==> Faithful(m, out, row, col)
  {
    hide Right, Faithful;
    forall row: nat, col: nat | row < m.height && col < m.width ensures Faithful(m, out, row, col) {
      RowFits(m, row, false);
      var n := row * m.width + col;
      assert n in written;
      RightIsFaithful(m, out, row, col);
    }
  }

  // The geometry convert420 accepts; anything else is an exception.
  predicate Accepted(m: Image, capacity: nat) {
    && m.width > 0 && m.height > 0 && m.width * m.height <= capacity
    && m.y.rowStride > 0 && m.u.rowStride > 0 && m.v.rowStride > 0
    && m.y.pixelStride > 0 && m.u.pixelStride > 0 && m.v.pixelStride > 0
  }

  // convert420: it succeeds exactly when the geometry is accepted and the last
  // pixel can be read, and then every pixel has the colour of its samples.
  method Convert420(m: Image, out: array2<nat>) returns (ok: bool, ghost written: set<nat>)
    requires out.Length0 == 3
    modifies out
    ensures ok <==> Accepted(m, out.Length1) && Covered(m)
    ensures ok ==> Done(m, out, written, m.height * m.width, 0, 0)
    ensures ok ==> forall row: nat, col: nat :: row < m.height && col < m.width ==> Faithful(m, out, row, col)
    ensures !Accepted(m, out.Length1) ==> forall ch, n :: 0 <= ch < 3 && 0 <= n < out.Length1 ==> out[ch, n] == old(out[ch, n])
  {
    hide Covered, Done, Faithful;
    ok, written := Accepted(m, out.Length1), {};
    if ok { ok, written := Convert(m, out); }
    if ok { DoneIsFaithful(m, out, written); }
  }
}
