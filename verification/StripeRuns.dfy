// vga.c of dos_sender_legacy: the placement map analysed into runs.  A run is a
// stretch of codewords that fill a two-pixel column of one framebuffer byte
// column, four rows per codeword, upwards or downwards.

module StripeRuns {
  import opened Gf2
  import opened V40L
  import opened Raster
  import opened Repair

  const LINE: int := 40
  const MIN_RUN: nat := 4
  const MAX_RUNS: nat := 256

  // ----- the map

  predicate Single(b: Byte) {
    b == 0x80 || b == 0x40 || b == 0x20 || b == 0x10 || b == 0x08 || b == 0x04 || b == 0x02 || b == 0x01
  }

  function LeftOf(b: Byte): Byte { b << 1 }

  function Both(right: Byte, left: Byte): Byte { right | left }

  // Entries toggle one pixel each; when both entries of a pair fall into one
  // byte, the second pixel is immediately left of the first.
  predicate PairedMap(m: seq<Entry>) {
    && ShapedMap(m)
    && (forall i :: 0 <= i < |m| ==> Single(m[i].mask))
    && forall q :: 0 <= q < 4 * CODEWORDS ==> PairAt(m, q)
  }

  predicate PairAt(m: seq<Entry>, q: nat)
    requires |m| == 8 * CODEWORDS && q < 4 * CODEWORDS
  {
    m[2 * q].offset == m[2 * q + 1].offset ==> m[2 * q + 1].mask == LeftOf(m[2 * q].mask)
  }

  // ----- pairs of bits

  // Row pair r of a codeword: its two bits, most significant pair first.
  function Pair(v: Byte, r: nat): Byte
    requires r < 4
  {
    if r == 0 then (v >> 6) & 3 else if r == 1 then (v >> 4) & 3 else if r == 2 then (v >> 2) & 3 else v & 3
  }

  function PairMask(right: Byte, left: Byte, p: Byte): Byte {
    if p == 0 then 0 else if p == 1 then left else if p == 2 then right else Both(right, left)
  }

  lemma PairBits(v: Byte, r: nat)
    requires r < 4
    ensures var p := Pair(v, r);
            && (p == 0 || p == 1 || p == 2 || p == 3)
            && (BitOn(v, 2 * r) <==> p == 2 || p == 3) && (BitOn(v, 2 * r + 1) <==> p == 1 || p == 3)
  {
    if r == 0 { Pair0(v); } else if r == 1 { Pair1(v); } else if r == 2 { Pair2(v); } else { Pair3(v); }
  }

  lemma Pair0(v: Byte)
    ensures var p := (v >> 6) & 3;
            && (p == 0 || p == 1 || p == 2 || p == 3)
            && (v & (0x80 >> 0) != 0 <==> p == 2 || p == 3) && (v & (0x80 >> 1) != 0 <==> p == 1 || p == 3)
  {}

  lemma Pair1(v: Byte)
    ensures var p := (v >> 4) & 3;
            && (p == 0 || p == 1 || p == 2 || p == 3)
            && (v & (0x80 >> 2) != 0 <==> p == 2 || p == 3) && (v & (0x80 >> 3) != 0 <==> p == 1 || p == 3)
  {}

  lemma Pair2(v: Byte)
    ensures var p := (v >> 2) & 3;
            && (p == 0 || p == 1 || p == 2 || p == 3)
            && (v & (0x80 >> 4) != 0 <==> p == 2 || p == 3) && (v & (0x80 >> 5) != 0 <==> p == 1 || p == 3)
  {}

  lemma Pair3(v: Byte)
    ensures var p := v & 3;
            && (p == 0 || p == 1 || p == 2 || p == 3)
            && (v & (0x80 >> 6) != 0 <==> p == 2 || p == 3) && (v & (0x80 >> 7) != 0 <==> p == 1 || p == 3)
  {}

  lemma BothIsAdd(right: Byte)
    requires Single(right)
    ensures Both(right, LeftOf(right)) == Add(right, LeftOf(right))
  {}

  // ----- shapes

  datatype Shape = Shape(direction: int, dest: nat, right: Byte, left: Byte)

  predicate RowMatches(m: seq<Entry>, i: nat, r: nat, s: Shape)
    requires |m| == 8 * CODEWORDS && i < CODEWORDS && r < 4
  {
    && m[8 * i + 2 * r].offset == m[8 * i + 2 * r + 1].offset == s.dest + s.direction * r * LINE
    && m[8 * i + 2 * r].mask == s.right && m[8 * i + 2 * r + 1].mask == s.left
  }

  // stripe_codeword_shape: four row pairs of one codeword in one column, in
  // steps of one line up or down, always with the same two masks.
  function ShapeOf(m: seq<Entry>, i: nat): Option<Shape>
    requires |m| == 8 * CODEWORDS && i < CODEWORDS
  {
    var first := m[8 * i].offset;
    var step := m[8 * i + 2].offset - first;
    if m[8 * i + 1].offset != first || (step != LINE && step != -LINE) then None
    else
      var s := Shape(if step > 0 then 1 else -1, first, m[8 * i].mask, m[8 * i + 1].mask);
      if RowMatches(m, i, 0, s) && RowMatches(m, i, 1, s) && RowMatches(m, i, 2, s) && RowMatches(m, i, 3, s) then Some(s)
      else None
  }

  lemma ShapeRows(m: seq<Entry>, i: nat, r: nat)
    requires |m| == 8 * CODEWORDS && i < CODEWORDS && r < 4 && ShapeOf(m, i).Some?
    ensures RowMatches(m, i, r, ShapeOf(m, i).value)
  {}

  // ----- runs

  datatype Run = Run(first: nat, count: nat, shape: Shape)

  function ShiftedShape(s: Shape, c: nat): Shape
    requires s.dest + s.direction * c * (4 * LINE) >= 0
  {
    s.(dest := s.dest + s.direction * c * (4 * LINE))
  }

  predicate InRun(m: seq<Entry>, first: nat, s: Shape, c: nat)
    requires |m| == 8 * CODEWORDS && first + c < CODEWORDS
  {
    && s.dest + s.direction * c * (4 * LINE) >= 0
    && ShapeOf(m, first + c) == Some(ShiftedShape(s, c))
  }

  predicate RunOk(m: seq<Entry>, run: Run) {
    && |m| == 8 * CODEWORDS && run.count > 0 && run.first + run.count <= CODEWORDS
    && (run.shape.direction == 1 || run.shape.direction == -1)
    && forall c :: 0 <= c < run.count ==> InRun(m, run.first, run.shape, c)
  }

  // In order, without overlap.
  predicate RunsOk(m: seq<Entry>, runs: seq<Run>) {
    && (forall i :: 0 <= i < |runs| ==> RunOk(m, runs[i]))
    && forall i, j :: 0 <= i < j < |runs| ==> runs[i].first + runs[i].count <= runs[j].first
  }

  // prepare_stripe_runs.  Too many runs leave none.
  method PrepareRuns(m: seq<Entry>) returns (runs: seq<Run>)
    requires ShapedMap(m)
    ensures RunsOk(m, runs) && |runs| <= MAX_RUNS
    ensures forall i :: 0 <= i < |runs| ==> runs[i].count >= MIN_RUN
  {
    runs := [];
    var first := 0;
    while first < CODEWORDS
      invariant first <= CODEWORDS && RunsOk(m, runs) && |runs| <= MAX_RUNS
      invariant forall i :: 0 <= i < |runs| ==> runs[i].first + runs[i].count <= first && runs[i].count >= MIN_RUN
    {
      var shape := ShapeOf(m, first);
      if shape.None? {
        first := first + 1;
      } else {
        var count := RunLength(m, first, shape.value);
        if count >= MIN_RUN {
          if |runs| >= MAX_RUNS { return []; }
          runs := runs + [Run(first, count, shape.value)];
        }
        first := first + count;
      }
    }
  }

  method RunLength(m: seq<Entry>, first: nat, shape: Shape) returns (count: nat)
    requires ShapedMap(m) && first < CODEWORDS && ShapeOf(m, first) == Some(shape)
    ensures RunOk(m, Run(first, count, shape))
  {
    hide ShapeOf;
    ShapeDirection(m, first);
    count := 1;
    assert ShiftedShape(shape, 0) == shape;
    while first + count < CODEWORDS
      invariant first + count <= CODEWORDS && RunOk(m, Run(first, count, shape))
    {
      var next := ShapeOf(m, first + count);
      var dest := shape.dest + count * shape.direction * 160;
      if next.None? || next.value.direction != shape.direction || next.value.right != shape.right ||
         next.value.left != shape.left || next.value.dest != dest {
        break;
      }
      assert InRun(m, first, shape, count);
      count := count + 1;
    }
  }

  lemma ShapeDirection(m: seq<Entry>, i: nat)
    requires |m| == 8 * CODEWORDS && i < CODEWORDS && ShapeOf(m, i).Some?
    ensures ShapeOf(m, i).value.direction == 1 || ShapeOf(m, i).value.direction == -1
  {}

  // ----- what a run toggles at one framebuffer byte

  // The number, in placement order, of the run's row that lies at d, or -1.
  function RowNo(s: Shape, d: nat): int {
    var away := if s.direction > 0 then d - s.dest else s.dest - d;
    if away % LINE == 0 then away / LINE else -1
  }

  // The toggles of the first n codewords of a run at d.
  function RunAt(run: Run, cw: Bytes, n: nat, d: nat): Byte
    requires |cw| == CODEWORDS && n <= run.count && run.first + run.count <= CODEWORDS
  {
    var j := RowNo(run.shape, d);
    if 0 <= j < 4 * n then PairMask(run.shape.right, run.shape.left, Pair(cw[run.first + j / 4], j % 4)) else 0
  }

  function SpotAt(e: Entry, on: bool, d: nat): Byte {
    if on && d == e.offset then e.mask else 0
  }

  lemma SpotIs(e: Entry, on: bool, d: nat)
    requires e.offset < RASTER && d < RASTER
    ensures Spot(e, on)[d] == SpotAt(e, on, d)
  {}

  // The two spots of one row pair.
  lemma PairSpots(m: seq<Entry>, i: nat, r: nat, s: Shape, v: Byte, d: nat)
    requires PairedMap(m) && i < CODEWORDS && r < 4 && d < RASTER && RowMatches(m, i, r, s)
    ensures SpotsUpTo(m, i, v, 2 * r + 2)[d]
         == Add(SpotsUpTo(m, i, v, 2 * r)[d], if d == s.dest + s.direction * r * LINE then PairMask(s.right, s.left, Pair(v, r)) else 0)
  {
    hide Add, BitOn, Single, LeftOf, Both, Pair, SpotsUpTo;
    var a, b := m[8 * i + 2 * r], m[8 * i + 2 * r + 1];
    var base := SpotsUpTo(m, i, v, 2 * r)[d];
    SpotsNext(m, i, v, 2 * r, d);
    SpotsNext(m, i, v, 2 * r + 1, d);
    PairBits(v, r);
    assert PairAt(m, 4 * i + r);
    BothIsAdd(s.right);
    AddZero();
    AddAssoc(base, SpotAt(a, BitOn(v, 2 * r), d), SpotAt(b, BitOn(v, 2 * r + 1), d));
  }

  lemma SpotsNext(m: seq<Entry>, i: nat, v: Byte, n: nat, d: nat)
    requires ShapedMap(m) && i < CODEWORDS && n < 8 && d < RASTER
    ensures SpotsUpTo(m, i, v, n + 1)[d] == Add(SpotsUpTo(m, i, v, n)[d], SpotAt(m[8 * i + n], BitOn(v, n), d))
  {
    hide Add, BitOn, Spot;
    SpotIs(m[i * 8 + n], BitOn(v, n), d);
  }

  lemma RowNoIs(s: Shape, j: nat, d: nat)
    requires s.direction == 1 || s.direction == -1
    ensures d == s.dest + s.direction * j * LINE <==> RowNo(s, d) == j
  {}

  // One codeword of a run.
  lemma CodewordSpots(m: seq<Entry>, run: Run, c: nat, v: Byte, d: nat)
    requires PairedMap(m) && RunOk(m, run) && c < run.count && d < RASTER
    ensures ShapedMap(m)
    ensures var j := RowNo(run.shape, d);
            Spots(m, run.first + c, v)[d] == if 4 * c <= j < 4 * c + 4 then PairMask(run.shape.right, run.shape.left, Pair(v, j - 4 * c)) else 0
  {
    hide Add, PairMask, Pair, SpotsUpTo, PairedMap, ShapeOf, RowMatches, RowNo, ShapedMap;
    PairedShape(m);
    RunRow(m, run, c, 0, d);
    RunRow(m, run, c, 1, d);
    RunRow(m, run, c, 2, d);
    RunRow(m, run, c, 3, d);
    var i := run.first + c;
    var s := ShiftedShape(run.shape, c);
    PairSpots(m, i, 0, s, v, d);
    PairSpots(m, i, 1, s, v, d);
    PairSpots(m, i, 2, s, v, d);
    PairSpots(m, i, 3, s, v, d);
    NoSpots(m, i, v);
    AddZero();
  }

  lemma RunRow(m: seq<Entry>, run: Run, c: nat, r: nat, d: nat)
    requires PairedMap(m) && RunOk(m, run) && c < run.count && r < 4
    ensures run.shape.dest + run.shape.direction * c * (4 * LINE) >= 0
    ensures var s := ShiftedShape(run.shape, c);
            RowMatches(m, run.first + c, r, s) && (d == s.dest + s.direction * r * LINE <==> RowNo(run.shape, d) == 4 * c + r)
  {
    hide PairedMap, ShapeOf, RowMatches, RowNo;
    assert InRun(m, run.first, run.shape, c);
    ShapeRows(m, run.first + c, r);
    RowNoIs(run.shape, 4 * c + r, d);
  }

  lemma PairedShape(m: seq<Entry>)
    requires PairedMap(m)
    ensures ShapedMap(m)
  {}

  lemma NoSpots(m: seq<Entry>, i: nat, v: Byte)
    requires ShapedMap(m) && i < CODEWORDS
    ensures SpotsUpTo(m, i, v, 0) == Zeros(RASTER)
  {}

  // A run toggles exactly what the reference toggles for its codewords.
  lemma {:induction false} RunIsRange(m: seq<Entry>, run: Run, cw: Bytes, n: nat, d: nat)
    requires PairedMap(m) && RunOk(m, run) && |cw| == CODEWORDS && n <= run.count && d < RASTER
    ensures ShapedMap(m) && ScatterUpTo(m, cw, run.first + n)[d] == Add(ScatterUpTo(m, cw, run.first)[d], RunAt(run, cw, n, d))
    decreases n
  {
    hide Add, PairMask, Pair, SpotsUpTo, PairedMap, ShapedMap, RunOk, RunAt, RowNo;
    PairedShape(m);
    RunBounds(m, run);
    if n == 0 {
      NoRun(run, cw, d);
      AddZero();
    } else {
      RunIsRange(m, run, cw, n - 1, d);
      NextRun(run, cw, n, d);
      AddZero();
      CodewordSpots(m, run, n - 1, cw[run.first + n - 1], d);
      AddAssoc(ScatterUpTo(m, cw, run.first)[d], RunAt(run, cw, n - 1, d), Spots(m, run.first + n - 1, cw[run.first + n - 1])[d]);
    }
  }

  lemma NoRun(run: Run, cw: Bytes, d: nat)
    requires |cw| == CODEWORDS && run.first + run.count <= CODEWORDS
    ensures RunAt(run, cw, 0, d) == 0
  {}

  // Rows of different codewords are different.
  lemma NextRun(run: Run, cw: Bytes, n: nat, d: nat)
    requires |cw| == CODEWORDS && 0 < n <= run.count && run.first + run.count <= CODEWORDS
    ensures var j := RowNo(run.shape, d);
            if 4 * (n - 1) <= j < 4 * n then
              RunAt(run, cw, n - 1, d) == 0 &&
              RunAt(run, cw, n, d) == PairMask(run.shape.right, run.shape.left, Pair(cw[run.first + n - 1], j - 4 * (n - 1)))
            else RunAt(run, cw, n, d) == RunAt(run, cw, n - 1, d)
  {
    hide PairMask, Pair, RowNo;
  }

  lemma RunBounds(m: seq<Entry>, run: Run)
    requires RunOk(m, run)
    ensures run.count > 0 && run.first + run.count <= CODEWORDS && (run.shape.direction == 1 || run.shape.direction == -1)
  {}
}
