// vga.c: the stripe renderer, with shifted groups, with four-lane groups or with
// runs alone, against the per-module reference scatter.

module StripeScatter {
  import opened Gf2
  import opened V40L
  import opened Raster
  import opened StripeRuns
  import opened StripeTables
  import opened StripePlan
  import opened StripeKernels

  // ----- edges

  function EdgeAt(e: Edge, cw: Bytes, d: nat): Byte
    requires |cw| == CODEWORDS
  {
    if d == e.dest && e.codeword < CODEWORDS && e.pair < 4 then PairMask(e.right, e.left, Pair(cw[e.codeword], e.pair)) else 0
  }

  function EdgesAt(edges: seq<Edge>, cw: Bytes, d: nat): Byte
    requires |cw| == CODEWORDS
  {
    if edges == [] then 0 else Add(EdgesAt(edges[..|edges| - 1], cw, d), EdgeAt(edges[|edges| - 1], cw, d))
  }

  predicate EdgesInside(edges: seq<Edge>) {
    forall i :: 0 <= i < |edges| ==> 0 <= edges[i].dest < RASTER && edges[i].codeword < CODEWORDS && edges[i].pair < 4
  }

  // scatter_phase_edges.
  method EdgeKernel(edges: seq<Edge>, cw: Bytes, screen: array<Byte>)
    requires |cw| == CODEWORDS && screen.Length == RASTER && EdgesInside(edges)
    modifies screen
    ensures forall d :: 0 <= d < RASTER ==> screen[d] == Add(old(screen[d]), EdgesAt(edges, cw, d))
  {
    hide Add, PairMask, Pair;
    AddZero();
    for i := 0 to |edges|
      invariant forall d :: 0 <= d < RASTER ==> screen[d] == Add(old(screen[d]), EdgesAt(edges[..i], cw, d))
    {
      var e := edges[i];
      ghost var mid := screen[..];
      screen[e.dest] := Add(screen[e.dest], PairMask(e.right, e.left, Pair(cw[e.codeword], e.pair)));
      assert edges[..i + 1][..i] == edges[..i];
      forall d | 0 <= d < RASTER ensures screen[d] == Add(old(screen[d]), EdgesAt(edges[..i + 1], cw, d)) {
        AddAssoc(old(screen[d]), EdgesAt(edges[..i], cw, d), EdgeAt(e, cw, d));
        assert screen[d] == Add(mid[d], EdgeAt(e, cw, d));
      }
    }
    assert edges[..|edges|] == edges;
  }

  lemma {:induction false} EdgesConcat(a: seq<Edge>, b: seq<Edge>, cw: Bytes, d: nat)
    requires |cw| == CODEWORDS
    ensures EdgesAt(a + b, cw, d) == Add(EdgesAt(a, cw, d), EdgesAt(b, cw, d))
    decreases |b|
  {
    hide Add, EdgeAt;
    AddZero();
    if b == [] {
      assert a + b == a;
    } else {
      var k := |b| - 1;
      assert (a + b)[..|a + b| - 1] == a + b[..k];
      EdgesConcat(a, b[..k], cw, d);
      AddAssoc(EdgesAt(a, cw, d), EdgesAt(b[..k], cw, d), EdgeAt(b[k], cw, d));
    }
  }

  predicate Runnable(run: Run) {
    run.first + run.count <= CODEWORDS && run.count > 0 && (run.shape.direction == 1 || run.shape.direction == -1)
    && OnRaster(Top(run), 4 * run.count)
  }

  // The recipes of a run are its rows outside the interval.
  lemma {:induction false} EdgesOfRun(run: Run, top: int, n: nat, cw: Bytes, d: nat)
    requires |cw| == CODEWORDS && Runnable(run) && n <= 4 * run.count
    ensures EdgesAt(EdgesOf(run, top, n), cw, d) == if Within(top, d) then 0 else RowsAt(run, cw, n, d)
    ensures EdgesInside(EdgesOf(run, top, n))
    decreases n
  {
    hide Add, PairMask, Pair, RowNo, OnRaster, RowOffset, RowsAt, Within, Top;
    AddZero();
    if n == 0 {
      NoRows(run, cw, d);
    } else {
      EdgesOfRun(run, top, n - 1, cw, d);
      RowInside(run, n - 1);
      NextRowAt(run, cw, n - 1, d);
      var more := EdgesOf(run, top, n);
      if !Within(top, RowOffset(run, n - 1)) {
        assert more[..|more| - 1] == EdgesOf(run, top, n - 1);
      }
    }
  }

  lemma NoRows(run: Run, cw: Bytes, d: nat)
    requires |cw| == CODEWORDS && run.first + run.count <= CODEWORDS
    ensures RowsAt(run, cw, 0, d) == 0
  {}

  lemma NextRowAt(run: Run, cw: Bytes, j: nat, d: nat)
    requires |cw| == CODEWORDS && Runnable(run) && j < 4 * run.count
    ensures RowOffset(run, j) >= 0
    ensures if d == RowOffset(run, j) then
              RowsAt(run, cw, j, d) == 0 &&
              RowsAt(run, cw, j + 1, d) == PairMask(run.shape.right, run.shape.left, Pair(cw[run.first + j / 4], j % 4))
            else RowsAt(run, cw, j + 1, d) == RowsAt(run, cw, j, d)
  {
    hide Add, PairMask, Pair, RowsAt, OnRaster;
    RowInside(run, j);
    NextRow(run, cw, j, RowOffset(run, j));
  }

  // ----- runs split into the common interval and the edges

  // A lane read with its lead inside the common interval is the run there.
  lemma LaneInside(run: Run, cw: Bytes, dest: int, lead: nat, d: nat)
    requires |cw| == CODEWORDS && Runnable(run) && Top(run) == dest - lead * LINE && lead + 4 * PHASE_COUNT <= 4 * run.count
    ensures Strip(dest, LaneRows(run, cw, lead, 4 * PHASE_COUNT), d) == if Within(dest, d) then RunAt(run, cw, run.count, d) else 0
  {
    hide LaneRow, RunAt;
    RunIsStrip(run, cw, d);
    StripShift(dest, lead, d);
  }

  lemma StripShift(dest: int, lead: nat, d: nat)
    ensures var top := dest - lead * LINE;
            ((d - dest) % LINE == 0 <==> (d - top) % LINE == 0) && ((d - dest) % LINE == 0 ==> (d - top) / LINE == (d - dest) / LINE + lead)
  {}

  lemma PhaseSplit(run: Run, cw: Bytes, dest: int, lead: nat, d: nat)
    requires |cw| == CODEWORDS && Runnable(run) && Top(run) == dest - lead * LINE && lead + 4 * PHASE_COUNT <= 4 * run.count
    ensures RunAt(run, cw, run.count, d)
         == Add(Strip(dest, LaneRows(run, cw, lead, 4 * PHASE_COUNT), d), EdgesAt(EdgesOf(run, dest, 4 * run.count), cw, d))
  {
    hide Add, LaneRow, RunAt, RowsAt, EdgesOf, Strip;
    AddZero();
    LaneInside(run, cw, dest, lead, d);
    EdgesOfRun(run, dest, 4 * run.count, cw, d);
    AllRows(run, cw, d);
  }

  // ----- accounting

  predicate Runnables(runs: seq<Run>) {
    forall i :: 0 <= i < |runs| ==> Runnable(runs[i])
  }

  function RunIn(runs: seq<Run>, i: nat, cw: Bytes, d: nat): Byte
    requires |cw| == CODEWORDS && Runnables(runs)
  {
    if i < |runs| then RunAt(runs[i], cw, runs[i].count, d) else 0
  }

  // The toggles of the runs among the first n that carry a kind.
  function KindAt(runs: seq<Run>, flags: seq<Kind>, kind: Kind, n: nat, cw: Bytes, d: nat): Byte
    requires |cw| == CODEWORDS && Runnables(runs) && n <= |flags| == |runs|
  {
    if n == 0 then 0
    else if flags[n - 1] == kind then Add(KindAt(runs, flags, kind, n - 1, cw, d), RunIn(runs, n - 1, cw, d))
    else KindAt(runs, flags, kind, n - 1, cw, d)
  }

  // The toggles of the first n listed runs.
  function OwnersAt(runs: seq<Run>, owners: seq<nat>, n: nat, cw: Bytes, d: nat): Byte
    requires |cw| == CODEWORDS && Runnables(runs) && n <= |owners|
  {
    if n == 0 then 0 else Add(OwnersAt(runs, owners, n - 1, cw, d), RunIn(runs, owners[n - 1], cw, d))
  }

  lemma {:induction false} KindRemove(runs: seq<Run>, flags: seq<Kind>, kind: Kind, x: nat, n: nat, cw: Bytes, d: nat)
    requires |cw| == CODEWORDS && Runnables(runs) && n <= |flags| == |runs| && x < |flags| && flags[x] == kind && kind != Plain
    ensures KindAt(runs, flags, kind, n, cw, d)
         == if x < n then Add(KindAt(runs, flags[x := Plain], kind, n, cw, d), RunIn(runs, x, cw, d))
            else KindAt(runs, flags[x := Plain], kind, n, cw, d)
    decreases n
  {
    hide Add, RunIn;
    if n > 0 {
      KindRemove(runs, flags, kind, x, n - 1, cw, d);
      if x < n - 1 && flags[n - 1] == kind {
        var rest, a, b := KindAt(runs, flags[x := Plain], kind, n - 1, cw, d), RunIn(runs, x, cw, d), RunIn(runs, n - 1, cw, d);
        AddAssoc(rest, a, b);
        AddComm(a, b);
        AddAssoc(rest, b, a);
      }
    }
  }

  lemma {:induction false} KindNone(runs: seq<Run>, flags: seq<Kind>, kind: Kind, n: nat, cw: Bytes, d: nat)
    requires |cw| == CODEWORDS && Runnables(runs) && n <= |flags| == |runs| && forall i :: 0 <= i < |flags| ==> flags[i] != kind
    ensures KindAt(runs, flags, kind, n, cw, d) == 0
    decreases n
  {
    if n > 0 { KindNone(runs, flags, kind, n - 1, cw, d); }
  }

  // Marked runs and listed runs are the same runs, each once.
  lemma {:induction false} KindIsOwners(runs: seq<Run>, flags: seq<Kind>, kind: Kind, owners: seq<nat>, cw: Bytes, d: nat)
    requires |cw| == CODEWORDS && Runnables(runs) && |flags| == |runs| && kind != Plain
    requires Distinct(owners) && Indices(owners, |flags|)
    requires forall i :: 0 <= i < |flags| ==> (flags[i] == kind <==> i in owners)
    ensures KindAt(runs, flags, kind, |flags|, cw, d) == OwnersAt(runs, owners, |owners|, cw, d)
    decreases |owners|
  {
    hide Add, RunIn, KindAt;
    if owners == [] {
      KindNone(runs, flags, kind, |flags|, cw, d);
    } else {
      var k := |owners| - 1;
      var x, rest := owners[k], owners[..k];
      assert x in owners;
      KindRemove(runs, flags, kind, x, |flags|, cw, d);
      var fewer := flags[x := Plain];
      forall i | 0 <= i < |fewer| ensures fewer[i] == kind <==> i in rest {
        if i in rest { assert i in owners; }
      }
      KindIsOwners(runs, fewer, kind, rest, cw, d);
      OwnersPrefix(runs, owners, k, cw, d);
    }
  }

  lemma {:induction false} OwnersPrefix(runs: seq<Run>, owners: seq<nat>, n: nat, cw: Bytes, d: nat)
    requires |cw| == CODEWORDS && Runnables(runs) && n <= |owners|
    ensures OwnersAt(runs, owners[..n], n, cw, d) == OwnersAt(runs, owners, n, cw, d)
  {
    OwnersSame(runs, owners[..n], owners, n, cw, d);
  }

  lemma {:induction false} OwnersSame(runs: seq<Run>, a: seq<nat>, b: seq<nat>, n: nat, cw: Bytes, d: nat)
    requires |cw| == CODEWORDS && Runnables(runs) && n <= |a| && n <= |b| && forall i :: 0 <= i < n ==> a[i] == b[i]
    ensures OwnersAt(runs, a, n, cw, d) == OwnersAt(runs, b, n, cw, d)
    decreases n
  {
    hide Add, RunIn;
    if n > 0 { OwnersSame(runs, a, b, n - 1, cw, d); }
  }

  // All runs that are not plain.
  function GroupedAt(runs: seq<Run>, flags: seq<Kind>, n: nat, cw: Bytes, d: nat): Byte
    requires |cw| == CODEWORDS && Runnables(runs) && n <= |flags| == |runs|
  {
    if n == 0 then 0
    else if flags[n - 1] != Plain then Add(GroupedAt(runs, flags, n - 1, cw, d), RunIn(runs, n - 1, cw, d))
    else GroupedAt(runs, flags, n - 1, cw, d)
  }

  // A grouped run is of exactly one of the three kinds.
  lemma {:induction false} GroupedIsKinds(runs: seq<Run>, flags: seq<Kind>, n: nat, cw: Bytes, d: nat)
    requires |cw| == CODEWORDS && Runnables(runs) && n <= |flags| == |runs|
    ensures GroupedAt(runs, flags, n, cw, d)
         == Add(Add(KindAt(runs, flags, InExact, n, cw, d), KindAt(runs, flags, InPhase, n, cw, d)), KindAt(runs, flags, InTriple, n, cw, d))
    decreases n
  {
    hide Add, RunIn;
    AddZero();
    if n > 0 {
      GroupedIsKinds(runs, flags, n - 1, cw, d);
      var a, b, c := KindAt(runs, flags, InExact, n - 1, cw, d), KindAt(runs, flags, InPhase, n - 1, cw, d), KindAt(runs, flags, InTriple, n - 1, cw, d);
      var x := RunIn(runs, n - 1, cw, d);
      AddLast(a, b, c, x);
    }
  }

  lemma AddLast(a: Byte, b: Byte, c: Byte, x: Byte)
    ensures Add(Add(Add(a, b), c), x) == Add(Add(Add(a, x), b), c)
    ensures Add(Add(Add(a, b), c), x) == Add(Add(a, Add(b, x)), c)
    ensures Add(Add(Add(a, b), c), x) == Add(Add(a, b), Add(c, x))
  {
    hide Add;
    AddAssoc(Add(a, b), c, x);
    AddComm(c, x);
    AddAssoc(Add(a, b), x, c);
    AddAssoc(a, b, x);
    AddComm(b, x);
    AddAssoc(a, x, b);
  }

  // ----- the renderer's tables

  datatype StripeTablesOf = StripeTablesOf(runs: seq<Run>, flags: seq<Kind>, exact: seq<Exact>, phases: seq<Phased>,
                                           edges: seq<Edge>, triples: seq<Triple>, lut: seq<Word>)

  ghost predicate OwnedBy(m: seq<Entry>, t: StripeTablesOf, o1: seq<nat>, o2: seq<nat>, o3: seq<nat>) {
    && RunsOk(m, t.runs) && |t.flags| == |t.runs| && TableOk(t.lut)
    && ExactOk(t.runs, t.exact, o1) && PhasesOk(t.runs, t.phases, o2) && TriplesOk(t.runs, t.triples, o3)
    && t.edges == AllEdges(t.runs, t.phases, o2, |o2|)
    && Lists(t.flags, o1, InExact) && Lists(t.flags, o2, InPhase) && Lists(t.flags, o3, InTriple)
  }

  // The list names each run of a kind once.
  predicate Lists(flags: seq<Kind>, owners: seq<nat>, kind: Kind) {
    Distinct(owners) && Indices(owners, |flags|) && forall i :: 0 <= i < |flags| ==> (flags[i] == kind <==> i in owners)
  }

  ghost predicate TablesOk(m: seq<Entry>, t: StripeTablesOf) {
    exists o1: seq<nat>, o2: seq<nat>, o3: seq<nat> :: OwnedBy(m, t, o1, o2, o3)
  }

  // prepare_placement_map's analysis.
  method Prepare(m: seq<Entry>) returns (t: StripeTablesOf)
    requires ShapedMap(m)
    ensures TablesOk(m, t)
  {
    hide RunsOk, ExactOk, PhasesOk, TriplesOk, TableOk, AllEdges;
    var runs := PrepareRuns(m);
    var exact, f1, o1 := PrepareGroups(runs);
    var lut := PrepareTables();
    var phases, edges, f2, o2 := PreparePhases(runs, f1);
    var triples, f3, o3 := PrepareTriples(runs, f2);
    t := StripeTablesOf(runs, f3, exact, phases, edges, triples, lut);
    MarksKept(seq(|runs|, _ => Plain), f1, f2, f3, o1, o2, o3);
    assert OwnedBy(m, t, o1, o2, o3);
  }

  lemma MarksKept(f0: seq<Kind>, f1: seq<Kind>, f2: seq<Kind>, f3: seq<Kind>, o1: seq<nat>, o2: seq<nat>, o3: seq<nat>)
    requires forall i :: 0 <= i < |f0| ==> f0[i] == Plain
    requires Marked(f0, f1, o1, InExact) && Marked(f1, f2, o2, InPhase) && Marked(f2, f3, o3, InTriple)
    ensures Lists(f3, o1, InExact) && Lists(f3, o2, InPhase) && Lists(f3, o3, InTriple)
  {
    forall i | 0 <= i < |f3|
      ensures (f3[i] == InExact <==> i in o1) && (f3[i] == InPhase <==> i in o2) && (f3[i] == InTriple <==> i in o3) {
      if i in o2 { assert f1[i] == Plain; }
      if i in o3 { assert f2[i] == Plain; }
    }
  }

  // ----- what the analysis gives the kernels

  lemma RunRunnable(m: seq<Entry>, run: Run)
    requires PairedMap(m) && RunOk(m, run)
    ensures Runnable(run) && Single(run.shape.right) && run.shape.left == LeftOf(run.shape.right)
  {
    hide PairedMap, ShapedMap, ShapeOf, LeftOf, Single;
    var last := run.count - 1;
    PairedShape(m);
    RunRow(m, run, 0, 0, 0);
    RunRow(m, run, last, 3, 0);
    EntryBound(m, 8 * run.first);
    EntryBound(m, 8 * (run.first + last) + 6);
    EntryMasks(m, 4 * run.first);
  }

  lemma EntryMasks(m: seq<Entry>, q: nat)
    requires PairedMap(m) && q < 4 * CODEWORDS
    ensures |m| == 8 * CODEWORDS && Single(m[2 * q].mask)
    ensures m[2 * q].offset == m[2 * q + 1].offset ==> m[2 * q + 1].mask == LeftOf(m[2 * q].mask)
  {
    hide Single, LeftOf;
    assert PairAt(m, q);
  }

  lemma AllRunnable(m: seq<Entry>, runs: seq<Run>)
    requires PairedMap(m) && RunsOk(m, runs)
    ensures Runnables(runs)
  {
    hide PairedMap, RunOk, Runnable;
    forall i | 0 <= i < |runs| ensures Runnable(runs[i]) {
      RunRunnable(m, runs[i]);
    }
  }

  lemma LaneIs(m: seq<Entry>, run: Run, lane: nat)
    requires PairedMap(m) && RunOk(m, run) && IsLane(run, lane)
    ensures LaneRun(run, lane) && Runnable(run)
  {
    hide PairedMap, Single, LeftOf, Both, SlotOf, SlotRight, OnRaster;
    RunRunnable(m, run);
    SlotMasks(run.shape.right);
    RunBounds(m, run);
  }

  // ----- the fallback range

  ghost function RangeAt(m: seq<Entry>, cw: Bytes, a: nat, b: nat, d: nat): Byte
    requires ShapedMap(m) && |cw| == CODEWORDS && a <= CODEWORDS && b <= CODEWORDS && d < RASTER
  {
    Add(ScatterUpTo(m, cw, a)[d], ScatterUpTo(m, cw, b)[d])
  }

  // direct_scatter_rgb3_range for one plane.
  method ScatterRange(m: seq<Entry>, cw: Bytes, first: nat, count: nat, screen: array<Byte>)
    requires ShapedMap(m) && |cw| == CODEWORDS && first + count <= CODEWORDS && screen.Length == RASTER
    modifies screen
    ensures forall d :: 0 <= d < RASTER ==> screen[d] == Add(old(screen[d]), RangeAt(m, cw, first, first + count, d))
  {
    hide Add, SpotsUpTo, ShapedMap, Xor;
    ghost var before := screen[..];
    forall d | 0 <= d < RASTER ensures screen[d] == Add(before[d], RangeAt(m, cw, first, first, d)) {
      EmptyRange(m, cw, first, d, before[d]);
    }
    for i := first to first + count
      invariant forall d :: 0 <= d < RASTER ==> screen[d] == Add(before[d], RangeAt(m, cw, first, i, d))
    {
      ghost var mid := screen[..];
      if cw[i] != 0 {
        ToggleCodeword(m, i, cw[i], screen);
      } else {
        SpotsNone(m, i);
        XorZero(mid);
      }
      forall d | 0 <= d < RASTER ensures screen[d] == Add(before[d], RangeAt(m, cw, first, i + 1, d)) {
        XorAt2(mid, Spots(m, i, cw[i]), screen[..], d);
        NextRange(m, cw, first, i, d, before[d]);
      }
    }
  }

  lemma XorAt2(a: Bytes, b: Bytes, r: Bytes, d: nat)
    requires |a| == |b| && r == Xor(a, b) && d < |a|
    ensures r[d] == Add(a[d], b[d])
  {}

  lemma EmptyRange(m: seq<Entry>, cw: Bytes, a: nat, d: nat, x: Byte)
    requires ShapedMap(m) && |cw| == CODEWORDS && a <= CODEWORDS && d < RASTER
    ensures Add(x, RangeAt(m, cw, a, a, d)) == x
  {
    hide Add;
    AddSelf(ScatterUpTo(m, cw, a)[d]);
    AddZero();
  }

  lemma NextRange(m: seq<Entry>, cw: Bytes, a: nat, i: nat, d: nat, x: Byte)
    requires ShapedMap(m) && |cw| == CODEWORDS && a <= CODEWORDS && i < CODEWORDS && d < RASTER
    ensures Add(x, RangeAt(m, cw, a, i + 1, d)) == Add(Add(x, RangeAt(m, cw, a, i, d)), Spots(m, i, cw[i])[d])
  {
    hide Add, SpotsUpTo, ShapedMap;
    var p, q, r := ScatterUpTo(m, cw, a)[d], ScatterUpTo(m, cw, i)[d], Spots(m, i, cw[i])[d];
    AddAssoc(x, Add(p, q), r);
    AddAssoc(p, q, r);
  }

  // ----- the run loop

  // Everything up to `current` is drawn except the grouped runs among the first n.
  ghost predicate Drawn(m: seq<Entry>, t: StripeTablesOf, cw: Bytes, before: Bytes, now: Bytes, current: nat, n: nat) {
    && ShapedMap(m) && |cw| == CODEWORDS && Runnables(t.runs) && n <= |t.flags| == |t.runs| && current <= CODEWORDS
    && |before| == |now| == RASTER
    && forall d :: 0 <= d < RASTER ==>
         now[d] == Add(Add(before[d], ScatterUpTo(m, cw, current)[d]), GroupedAt(t.runs, t.flags, n, cw, d))
  }

  lemma DrawnNone(m: seq<Entry>, t: StripeTablesOf, cw: Bytes, before: Bytes)
    requires ShapedMap(m) && |cw| == CODEWORDS && Runnables(t.runs) && |t.flags| == |t.runs| && |before| == RASTER
    ensures Drawn(m, t, cw, before, before, 0, 0)
  {
    hide Add, ShapedMap;
    AddZero();
  }

  lemma DrawnRange(m: seq<Entry>, t: StripeTablesOf, cw: Bytes, before: Bytes, mid: Bytes, now: Bytes, a: nat, b: nat, n: nat)
    requires Drawn(m, t, cw, before, mid, a, n) && |now| == RASTER && b <= CODEWORDS
    requires forall d :: 0 <= d < RASTER ==> now[d] == Add(mid[d], RangeAt(m, cw, a, b, d))
    ensures Drawn(m, t, cw, before, now, b, n)
  {
    hide Add, ShapedMap, ScatterUpTo, GroupedAt, Runnables;
    forall d | 0 <= d < RASTER
      ensures now[d] == Add(Add(before[d], ScatterUpTo(m, cw, b)[d]), GroupedAt(t.runs, t.flags, n, cw, d)) {
      Swap(before[d], ScatterUpTo(m, cw, a)[d], ScatterUpTo(m, cw, b)[d], GroupedAt(t.runs, t.flags, n, cw, d));
    }
  }

  lemma Swap(x: Byte, p: Byte, q: Byte, g: Byte)
    ensures Add(Add(Add(x, p), g), Add(p, q)) == Add(Add(x, q), g)
  {
    hide Add;
    AddComm(Add(x, p), g);
    AddAssoc(g, Add(x, p), Add(p, q));
    AddAssoc(x, p, Add(p, q));
    AddAssoc(p, p, q);
    AddSelf(p);
    AddZero();
    AddComm(g, Add(x, q));
  }

  // Drawing a plain run, or skipping a grouped one.
  lemma DrawnRun(m: seq<Entry>, t: StripeTablesOf, cw: Bytes, before: Bytes, mid: Bytes, now: Bytes, i: nat)
    requires PairedMap(m) && RunsOk(m, t.runs) && i < |t.runs|
    requires Drawn(m, t, cw, before, mid, t.runs[i].first, i) && |now| == RASTER
    requires if t.flags[i] == Plain then forall d :: 0 <= d < RASTER ==> now[d] == Add(mid[d], RunIn(t.runs, i, cw, d)) else now == mid
    ensures t.runs[i].first + t.runs[i].count <= CODEWORDS
    ensures Drawn(m, t, cw, before, now, t.runs[i].first + t.runs[i].count, i + 1)
  {
    hide Add, ShapedMap, ScatterUpTo, Runnables, PairedMap, RunOk;
    var run := t.runs[i];
    RunBounds(m, run);
    forall d | 0 <= d < RASTER
      ensures now[d] == Add(Add(before[d], ScatterUpTo(m, cw, run.first + run.count)[d]), GroupedAt(t.runs, t.flags, i + 1, cw, d)) {
      RunIsRange(m, run, cw, run.count, d);
      var x, p, g, r := before[d], ScatterUpTo(m, cw, run.first)[d], GroupedAt(t.runs, t.flags, i, cw, d), RunIn(t.runs, i, cw, d);
      Both4(x, p, g, r);
    }
  }

  lemma Both4(x: Byte, p: Byte, g: Byte, r: Byte)
    ensures Add(Add(Add(x, p), g), r) == Add(Add(x, Add(p, r)), g)
    ensures Add(Add(x, Add(p, r)), Add(g, r)) == Add(Add(x, p), g)
  {
    hide Add;
    AddLast(x, p, g, r);
    AddAssoc(Add(x, Add(p, r)), g, r);
    AddLast(x, Add(p, r), g, r);
    AddAssoc(p, r, r);
    AddSelf(r);
    AddZero();
  }

  // What the run loop needs of the tables.
  ghost predicate RunTables(m: seq<Entry>, t: StripeTablesOf) {
    RunsOk(m, t.runs) && |t.flags| == |t.runs| && TableOk(t.lut)
  }

  // One plain run: through its table when there is one for its lane, else row
  // by row.
  method DrawRun(m: seq<Entry>, t: StripeTablesOf, cw: Bytes, lut: bool, i: nat, screen: array<Byte>)
    requires PairedMap(m) && RunTables(m, t) && |cw| == CODEWORDS && i < |t.runs| && screen.Length == RASTER
    modifies screen
    ensures Runnables(t.runs) && forall d :: 0 <= d < RASTER ==> screen[d] == Add(old(screen[d]), RunIn(t.runs, i, cw, d))
  {
    hide Add, PairedMap, RunOk, Runnable, ExactOk, PhasesOk, TriplesOk, TableOk, AllEdges, Lists, IsLane, LaneRow, Strip, OnRaster;
    var run := t.runs[i];
    AllRunnable(m, t.runs);
    RunRunnable(m, run);
    RunnableParts(run);
    ghost var before := screen[..];
    if lut && (IsLane(run, 0) || IsLane(run, 1) || IsLane(run, 2) || IsLane(run, 3)) {
      var lane: nat := if IsLane(run, 0) then 0 else if IsLane(run, 1) then 1 else if IsLane(run, 2) then 2 else 3;
      LaneIs(m, run, lane);
      TableSize(t.lut);
      RunTableKernel(t.lut, cw, run, lane, screen);
      forall d | 0 <= d < RASTER ensures screen[d] == Add(before[d], RunIn(t.runs, i, cw, d)) {
        RunIsStrip(run, cw, d);
      }
    } else {
      RunKernel(cw, run, screen);
    }
  }

  lemma RunnableParts(run: Run)
    requires Runnable(run)
    ensures run.first + run.count <= CODEWORDS && run.count > 0 && (run.shape.direction == 1 || run.shape.direction == -1)
    ensures OnRaster(Top(run), 4 * run.count)
  {}

  lemma TablesParts(m: seq<Entry>, t: StripeTablesOf)
    requires TablesOk(m, t)
    ensures RunTables(m, t)
  {
    hide RunsOk, TableOk;
  }

  // The gaps between runs and the plain runs, in placement order.
  method DrawRuns(m: seq<Entry>, t: StripeTablesOf, cw: Bytes, lut: bool, screen: array<Byte>)
    requires PairedMap(m) && RunTables(m, t) && |cw| == CODEWORDS && screen.Length == RASTER
    modifies screen
    ensures ShapedMap(m) && Drawn(m, t, cw, old(screen[..]), screen[..], CODEWORDS, |t.runs|)
  {
    hide Drawn, PairedMap, ShapedMap, RunOk, TableOk, Add, RangeAt, Runnables;
    PairedShape(m);
    AllRunnable(m, t.runs);
    ghost var before := screen[..];
    DrawnNone(m, t, cw, before);
    var current: nat := 0;
    for i := 0 to |t.runs|
      invariant current <= CODEWORDS && Drawn(m, t, cw, before, screen[..], current, i)
      invariant i == 0 ==> current == 0
      invariant i > 0 ==> current == t.runs[i - 1].first + t.runs[i - 1].count
    {
      var run := t.runs[i];
      RunBounds(m, run);
      ghost var was := screen[..];
      if run.first > current {
        ScatterRange(m, cw, current, run.first - current, screen);
        DrawnRange(m, t, cw, before, was, screen[..], current, run.first, i);
      }
      ghost var mid := screen[..];
      if t.flags[i] == Plain {
        DrawRun(m, t, cw, lut, i, screen);
      }
      DrawnRun(m, t, cw, before, mid, screen[..], i);
      current := run.first + run.count;
    }
    ghost var was := screen[..];
    if current < CODEWORDS {
      ScatterRange(m, cw, current, CODEWORDS - current, screen);
      DrawnRange(m, t, cw, before, was, screen[..], current, CODEWORDS, |t.runs|);
    }
  }

  // ----- the groups

  lemma ExactLanes(m: seq<Entry>, t: StripeTablesOf, o1: seq<nat>, g: nat, lane: nat)
    requires PairedMap(m) && RunsOk(m, t.runs) && ExactOk(t.runs, t.exact, o1) && g < |t.exact| && lane < 4
    ensures 4 * g + lane < |o1| && o1[4 * g + lane] < |t.runs| && |t.exact[g].first| == 4
    ensures var run := t.runs[o1[4 * g + lane]];
            LaneRun(run, lane) && Runnable(run) && run.first == t.exact[g].first[lane] && run.count == t.exact[g].count && Top(run) == t.exact[g].dest
  {
    hide PairedMap, RunOk, LaneRun, Runnable, IsLane, Top;
    var n := 4 * g + lane;
    LaneListed(g, lane);
    assert ExactLane(t.runs, t.exact[n / 4], n % 4, o1[n]);
    LaneIs(m, t.runs[o1[n]], lane);
  }

  // A group kernel draws its four runs.
  lemma FourIsOwners(cw: Bytes, dest: int, n: nat, r0: Run, r1: Run, r2: Run, r3: Run, d: nat)
    requires |cw| == CODEWORDS && LaneRun(r0, 0) && LaneRun(r1, 1) && LaneRun(r2, 2) && LaneRun(r3, 3)
    requires n == 4 * r0.count == 4 * r1.count == 4 * r2.count == 4 * r3.count
    requires Top(r0) == Top(r1) == Top(r2) == Top(r3) == dest
    ensures Strip(dest, FourRows(cw, r0, r1, r2, r3, 0, 0, n), d)
         == Add(Add(Add(RunAt(r0, cw, r0.count, d), RunAt(r1, cw, r1.count, d)), RunAt(r2, cw, r2.count, d)), RunAt(r3, cw, r3.count, d))
  {
    hide Add, RunAt, Strip, LaneRow, SlotRight, LeftOf, Top, Xor;
    var a, b, c, e := LaneRows(r0, cw, 0, n), LaneRows(r1, cw, 0, n), LaneRows(r2, cw, 0, n), LaneRows(r3, cw, 0, n);
    RunIsStrip(r0, cw, d);
    RunIsStrip(r1, cw, d);
    RunIsStrip(r2, cw, d);
    RunIsStrip(r3, cw, d);
    StripSum(dest, a, b, d);
    StripSum(dest, Xor(a, b), c, d);
    StripSum(dest, Xor(Xor(a, b), c), e, d);
  }

  // Four more owners.
  lemma FourMore(runs: seq<Run>, owners: seq<nat>, n: nat, cw: Bytes, d: nat, x: Byte)
    requires |cw| == CODEWORDS && Runnables(runs) && n + 4 <= |owners|
    ensures Add(x, OwnersAt(runs, owners, n + 4, cw, d))
         == Add(Add(x, OwnersAt(runs, owners, n, cw, d)),
                Add(Add(Add(RunIn(runs, owners[n], cw, d), RunIn(runs, owners[n + 1], cw, d)), RunIn(runs, owners[n + 2], cw, d)),
                    RunIn(runs, owners[n + 3], cw, d)))
  {
    hide Add, RunIn, Runnables;
    var s := OwnersAt(runs, owners, n, cw, d);
    OwnersNext(runs, owners, n, cw, d);
    OwnersNext(runs, owners, n + 1, cw, d);
    OwnersNext(runs, owners, n + 2, cw, d);
    OwnersNext(runs, owners, n + 3, cw, d);
    AddFour(x, s, RunIn(runs, owners[n], cw, d), RunIn(runs, owners[n + 1], cw, d), RunIn(runs, owners[n + 2], cw, d), RunIn(runs, owners[n + 3], cw, d));
  }

  lemma OwnersNext(runs: seq<Run>, owners: seq<nat>, n: nat, cw: Bytes, d: nat)
    requires |cw| == CODEWORDS && Runnables(runs) && n < |owners|
    ensures OwnersAt(runs, owners, n + 1, cw, d) == Add(OwnersAt(runs, owners, n, cw, d), RunIn(runs, owners[n], cw, d))
  {
    hide Add, RunIn, Runnables;
  }

  lemma AddFour(x: Byte, s: Byte, a: Byte, b: Byte, c: Byte, d: Byte)
    ensures Add(x, Add(Add(Add(Add(s, a), b), c), d)) == Add(Add(x, s), Add(Add(Add(a, b), c), d))
  {
    hide Add;
    AddAssoc(s, a, b);
    AddAssoc(s, Add(a, b), c);
    AddAssoc(s, Add(Add(a, b), c), d);
    AddAssoc(x, s, Add(Add(Add(a, b), c), d));
  }

  method DrawExact(m: seq<Entry>, t: StripeTablesOf, ghost o1: seq<nat>, cw: Bytes, screen: array<Byte>)
    requires PairedMap(m) && RunsOk(m, t.runs) && TableOk(t.lut) && ExactOk(t.runs, t.exact, o1)
    requires |cw| == CODEWORDS && screen.Length == RASTER
    modifies screen
    ensures Runnables(t.runs) && forall d :: 0 <= d < RASTER ==> screen[d] == Add(old(screen[d]), OwnersAt(t.runs, o1, |o1|, cw, d))
  {
    hide PairedMap, RunOk, Runnable, LaneRun, OnRaster, TableOk, Add, Strip, FourRows, ExactLane, RunAt, Top;
    AllRunnable(m, t.runs);
    TableSize(t.lut);
    AddZero();
    ghost var before := screen[..];
    for g := 0 to |t.exact|
      invariant forall d :: 0 <= d < RASTER ==> screen[d] == Add(before[d], OwnersAt(t.runs, o1, 4 * g, cw, d))
    {
      ExactLanes(m, t, o1, g, 0);
      ExactLanes(m, t, o1, g, 1);
      ExactLanes(m, t, o1, g, 2);
      ExactLanes(m, t, o1, g, 3);
      ghost var r0, r1, r2, r3 := t.runs[o1[4 * g]], t.runs[o1[4 * g + 1]], t.runs[o1[4 * g + 2]], t.runs[o1[4 * g + 3]];
      RunnableParts(r0);
      ghost var mid := screen[..];
      ExactKernel(t.lut, cw, t.exact[g], screen, r0, r1, r2, r3);
      forall d | 0 <= d < RASTER ensures screen[d] == Add(before[d], OwnersAt(t.runs, o1, 4 * g + 4, cw, d)) {
        FourIsOwners(cw, t.exact[g].dest, 4 * t.exact[g].count, r0, r1, r2, r3, d);
        FourMore(t.runs, o1, 4 * g, cw, d, before[d]);
      }
    }
  }

  // ----- phase groups and edges

  lemma PhaseLanes(m: seq<Entry>, t: StripeTablesOf, o2: seq<nat>, g: nat, lane: nat)
    requires PairedMap(m) && RunsOk(m, t.runs) && PhasesOk(t.runs, t.phases, o2) && g < |t.phases| && lane < 4
    ensures 4 * g + lane < |o2| && o2[4 * g + lane] < |t.runs|
    ensures var run := t.runs[o2[4 * g + lane]];
            && PhaseRun(t.phases[g], run, lane) && Runnable(run)
            && Top(run) == t.phases[g].dest - Lead(t.phases[g].phase, lane) * LINE
  {
    hide PairedMap, RunOk, LaneRun, Runnable, IsLane, Top, Lead;
    var n := 4 * g + lane;
    LaneListed(g, lane);
    assert PhaseLane(t.runs, t.phases[n / 4], n % 4, o2[n]);
    LaneIs(m, t.runs[o2[n]], lane);
  }

  // The part of a phase lane inside the common interval.
  ghost function InsideAt(cw: Bytes, g: Phased, run: Run, lane: nat, d: nat): Byte
    requires |cw| == CODEWORDS && PhaseRun(g, run, lane)
  {
    Strip(g.dest, LaneRows(run, cw, Lead(g.phase, lane), 4 * PHASE_COUNT), d)
  }

  lemma PhaseStripIs(cw: Bytes, g: Phased, r0: Run, r1: Run, r2: Run, r3: Run, d: nat)
    requires |cw| == CODEWORDS && PhaseRun(g, r0, 0) && PhaseRun(g, r1, 1) && PhaseRun(g, r2, 2) && PhaseRun(g, r3, 3)
    ensures Strip(g.dest, PhaseStrip(cw, g, r0, r1, r2, r3), d)
         == Add(Add(Add(InsideAt(cw, g, r0, 0, d), InsideAt(cw, g, r1, 1, d)), InsideAt(cw, g, r2, 2, d)), InsideAt(cw, g, r3, 3, d))
  {
    hide Add, Strip, LaneRow, SlotRight, LeftOf, Xor;
    LeadPairs(g.phase);
    var n := 4 * PHASE_COUNT;
    var a, b, c, e := LaneRows(r0, cw, Lead(g.phase, 0), n), LaneRows(r1, cw, Lead(g.phase, 1), n),
                      LaneRows(r2, cw, Lead(g.phase, 2), n), LaneRows(r3, cw, Lead(g.phase, 3), n);
    StripSum(g.dest, a, b, d);
    StripSum(g.dest, Xor(a, b), c, d);
    StripSum(g.dest, Xor(Xor(a, b), c), e, d);
  }

  // What the phase kernels draw of the first n lanes.
  ghost function PhasesAt(t: StripeTablesOf, o2: seq<nat>, n: nat, cw: Bytes, d: nat): Byte
    requires |cw| == CODEWORDS && PhaseRunsOk(t, o2) && n <= |o2|
  {
    if n == 0 then 0
    else
      assert LaneOk(t, o2, n - 1);
      Add(PhasesAt(t, o2, n - 1, cw, d), InsideAt(cw, t.phases[(n - 1) / 4], t.runs[o2[n - 1]], (n - 1) % 4, d))
  }

  ghost predicate LaneOk(t: StripeTablesOf, o2: seq<nat>, n: nat)
    requires n < |o2|
  {
    && n / 4 < |t.phases| && o2[n] < |t.runs|
    && PhaseRun(t.phases[n / 4], t.runs[o2[n]], n % 4) && Runnable(t.runs[o2[n]])
    && Top(t.runs[o2[n]]) == t.phases[n / 4].dest - Lead(t.phases[n / 4].phase, n % 4) * LINE
  }

  ghost predicate PhaseRunsOk(t: StripeTablesOf, o2: seq<nat>) {
    |o2| == 4 * |t.phases| && forall n :: 0 <= n < |o2| ==> LaneOk(t, o2, n)
  }

  lemma PhaseRunsAre(m: seq<Entry>, t: StripeTablesOf, o2: seq<nat>)
    requires PairedMap(m) && RunsOk(m, t.runs) && PhasesOk(t.runs, t.phases, o2)
    ensures PhaseRunsOk(t, o2)
  {
    hide PairedMap, RunOk, PhaseRun, Runnable, Top, Lead, PhaseLane;
    forall n | 0 <= n < |o2| ensures LaneOk(t, o2, n) {
      PhaseLanes(m, t, o2, n / 4, n % 4);
      assert 4 * (n / 4) + n % 4 == n;
    }
  }

  // Phase kernels and edge recipes together draw the listed runs.
  lemma {:induction false} PhasesAndEdges(t: StripeTablesOf, o2: seq<nat>, n: nat, cw: Bytes, d: nat)
    requires |cw| == CODEWORDS && Runnables(t.runs) && PhasesOk(t.runs, t.phases, o2) && PhaseRunsOk(t, o2) && n <= |o2|
    ensures OwnersAt(t.runs, o2, n, cw, d) == Add(PhasesAt(t, o2, n, cw, d), EdgesAt(AllEdges(t.runs, t.phases, o2, n), cw, d))
    ensures EdgesInside(AllEdges(t.runs, t.phases, o2, n))
    decreases n
  {
    hide Add, RunAt, InsideAt, EdgesOf, EdgesAt, Runnable, PhaseRun, PhaseLane, Top, Lead;
    if n == 0 {
      assert AllEdges(t.runs, t.phases, o2, 0) == [];
      assert EdgesAt([], cw, d) == 0 by { NoEdges(cw, d); }
      AddZero();
    } else {
      PhasesAndEdges(t, o2, n - 1, cw, d);
      assert LaneOk(t, o2, n - 1);
      OneMoreLane(t.runs, t.phases, o2, n - 1);
      var g, run := t.phases[(n - 1) / 4], t.runs[o2[n - 1]];
      LaneSplit(g, run, (n - 1) % 4, cw, d);
      EdgesConcat(AllEdges(t.runs, t.phases, o2, n - 1), EdgesOf(run, g.dest, 4 * run.count), cw, d);
      AddCross(PhasesAt(t, o2, n - 1, cw, d), EdgesAt(AllEdges(t.runs, t.phases, o2, n - 1), cw, d),
               InsideAt(cw, g, run, (n - 1) % 4, d), EdgesAt(EdgesOf(run, g.dest, 4 * run.count), cw, d));
    }
  }

  lemma NoEdges(cw: Bytes, d: nat)
    requires |cw| == CODEWORDS
    ensures EdgesAt([], cw, d) == 0
  {}

  lemma LaneSplit(g: Phased, run: Run, lane: nat, cw: Bytes, d: nat)
    requires |cw| == CODEWORDS && PhaseRun(g, run, lane) && Runnable(run) && Top(run) == g.dest - Lead(g.phase, lane) * LINE
    ensures RunAt(run, cw, run.count, d) == Add(InsideAt(cw, g, run, lane, d), EdgesAt(EdgesOf(run, g.dest, 4 * run.count), cw, d))
    ensures EdgesInside(EdgesOf(run, g.dest, 4 * run.count))
  {
    hide Add, RunAt, EdgesOf, EdgesAt, Strip, LaneRow, Runnable, Top, LaneRun;
    PhaseSplit(run, cw, g.dest, Lead(g.phase, lane), d);
    EdgesOfRun(run, g.dest, 4 * run.count, cw, d);
  }

  lemma FourPhases(t: StripeTablesOf, o2: seq<nat>, g: nat, cw: Bytes, d: nat, x: Byte)
    requires |cw| == CODEWORDS && PhaseRunsOk(t, o2) && g < |t.phases|
    requires LaneOk(t, o2, 4 * g) && LaneOk(t, o2, 4 * g + 1) && LaneOk(t, o2, 4 * g + 2) && LaneOk(t, o2, 4 * g + 3)
    ensures PhaseRun(t.phases[g], t.runs[o2[4 * g]], 0) && PhaseRun(t.phases[g], t.runs[o2[4 * g + 1]], 1)
    ensures PhaseRun(t.phases[g], t.runs[o2[4 * g + 2]], 2) && PhaseRun(t.phases[g], t.runs[o2[4 * g + 3]], 3)
    ensures Add(x, PhasesAt(t, o2, 4 * g + 4, cw, d))
         == Add(Add(x, PhasesAt(t, o2, 4 * g, cw, d)),
                Strip(t.phases[g].dest, PhaseStrip(cw, t.phases[g], t.runs[o2[4 * g]], t.runs[o2[4 * g + 1]], t.runs[o2[4 * g + 2]], t.runs[o2[4 * g + 3]]), d))
  {
    hide Add, InsideAt, PhaseRun, Runnable, Top, Lead, Strip, PhaseStrip;
    LaneListed(g, 0);
    LaneListed(g, 1);
    LaneListed(g, 2);
    LaneListed(g, 3);
    var h := t.phases[g];
    var r0, r1, r2, r3 := t.runs[o2[4 * g]], t.runs[o2[4 * g + 1]], t.runs[o2[4 * g + 2]], t.runs[o2[4 * g + 3]];
    PhaseStripIs(cw, h, r0, r1, r2, r3, d);
    PhasesNext(t, o2, 4 * g, cw, d);
    PhasesNext(t, o2, 4 * g + 1, cw, d);
    PhasesNext(t, o2, 4 * g + 2, cw, d);
    PhasesNext(t, o2, 4 * g + 3, cw, d);
    AddFour(x, PhasesAt(t, o2, 4 * g, cw, d), InsideAt(cw, h, r0, 0, d), InsideAt(cw, h, r1, 1, d), InsideAt(cw, h, r2, 2, d), InsideAt(cw, h, r3, 3, d));
  }

  lemma PhasesNext(t: StripeTablesOf, o2: seq<nat>, n: nat, cw: Bytes, d: nat)
    requires |cw| == CODEWORDS && PhaseRunsOk(t, o2) && n < |o2|
    ensures LaneOk(t, o2, n)
    ensures PhasesAt(t, o2, n + 1, cw, d) == Add(PhasesAt(t, o2, n, cw, d), InsideAt(cw, t.phases[n / 4], t.runs[o2[n]], n % 4, d))
  {
    hide Add, InsideAt, PhaseRun, Runnable, Top, Lead;
    assert LaneOk(t, o2, n);
  }

  // The common interval lies on the raster.
  lemma CommonOnRaster(g: Phased, r0: Run, r1: Run)
    requires PhaseRun(g, r0, 0) && PhaseRun(g, r1, 1) && Runnable(r0) && Runnable(r1)
    requires Top(r0) == g.dest - Lead(g.phase, 0) * LINE && Top(r1) == g.dest - Lead(g.phase, 1) * LINE
    ensures OnRaster(g.dest, 4 * PHASE_COUNT)
  {
    hide LaneRun, Top;
  }

  method DrawPhases(m: seq<Entry>, t: StripeTablesOf, ghost o2: seq<nat>, cw: Bytes, screen: array<Byte>)
    requires PairedMap(m) && RunsOk(m, t.runs) && TableOk(t.lut) && PhasesOk(t.runs, t.phases, o2) && PhaseRunsOk(t, o2)
    requires |cw| == CODEWORDS && screen.Length == RASTER
    modifies screen
    ensures forall d :: 0 <= d < RASTER ==> screen[d] == Add(old(screen[d]), PhasesAt(t, o2, |o2|, cw, d))
  {
    hide PairedMap, RunOk, Runnable, PhaseRun, OnRaster, TableOk, Add, Strip, PhaseStrip, PhaseLane, InsideAt, Top, Lead;
    TableSize(t.lut);
    AddZero();
    ghost var before := screen[..];
    for g := 0 to |t.phases|
      invariant forall d :: 0 <= d < RASTER ==> screen[d] == Add(before[d], PhasesAt(t, o2, 4 * g, cw, d))
    {
      PhaseLanes(m, t, o2, g, 0);
      PhaseLanes(m, t, o2, g, 1);
      PhaseLanes(m, t, o2, g, 2);
      PhaseLanes(m, t, o2, g, 3);
      ghost var r0, r1, r2, r3 := t.runs[o2[4 * g]], t.runs[o2[4 * g + 1]], t.runs[o2[4 * g + 2]], t.runs[o2[4 * g + 3]];
      CommonOnRaster(t.phases[g], r0, r1);
      ghost var mid := screen[..];
      PhaseKernel(t.lut, cw, t.phases[g], screen, r0, r1, r2, r3);
      forall d | 0 <= d < RASTER ensures screen[d] == Add(before[d], PhasesAt(t, o2, 4 * g + 4, cw, d)) {
        assert LaneOk(t, o2, 4 * g) && LaneOk(t, o2, 4 * g + 1) && LaneOk(t, o2, 4 * g + 2) && LaneOk(t, o2, 4 * g + 3);
        FourPhases(t, o2, g, cw, d, before[d]);
      }
    }
  }

  // ----- triples

  lemma TripleLanes(m: seq<Entry>, t: StripeTablesOf, o3: seq<nat>, g: nat, lane: nat)
    requires PairedMap(m) && RunsOk(m, t.runs) && TriplesOk(t.runs, t.triples, o3) && g < |t.triples| && 1 <= lane <= 3
    ensures 3 * g + lane - 1 < |o3| && o3[3 * g + lane - 1] < |t.runs| && |t.triples[g].first| == 3
    ensures var run := t.runs[o3[3 * g + lane - 1]];
            && LaneRun(run, lane) && Runnable(run) && run.first == t.triples[g].first[lane - 1]
            && run.count == t.triples[g].count && Top(run) == t.triples[g].dest
  {
    hide PairedMap, RunOk, LaneRun, Runnable, IsLane, Top;
    var n := 3 * g + lane - 1;
    assert n / 3 == g && n % 3 == lane - 1;
    assert TripleLane(t.runs, t.triples[n / 3], n % 3 + 1, o3[n]);
    LaneIs(m, t.runs[o3[n]], lane);
  }

  lemma ThreeIsOwners(cw: Bytes, dest: int, n: nat, r1: Run, r2: Run, r3: Run, d: nat)
    requires |cw| == CODEWORDS && LaneRun(r1, 1) && LaneRun(r2, 2) && LaneRun(r3, 3)
    requires n == 4 * r1.count == 4 * r2.count == 4 * r3.count && Top(r1) == Top(r2) == Top(r3) == dest
    ensures Strip(dest, ThreeRows(cw, r1, r2, r3, n), d)
         == Add(Add(RunAt(r1, cw, r1.count, d), RunAt(r2, cw, r2.count, d)), RunAt(r3, cw, r3.count, d))
  {
    hide Add, RunAt, Strip, LaneRow, SlotRight, LeftOf, Top, Xor;
    var b, c, e := LaneRows(r1, cw, 0, n), LaneRows(r2, cw, 0, n), LaneRows(r3, cw, 0, n);
    RunIsStrip(r1, cw, d);
    RunIsStrip(r2, cw, d);
    RunIsStrip(r3, cw, d);
    StripSum(dest, b, c, d);
    StripSum(dest, Xor(b, c), e, d);
  }

  lemma ThreeMore(runs: seq<Run>, owners: seq<nat>, n: nat, cw: Bytes, d: nat, x: Byte)
    requires |cw| == CODEWORDS && Runnables(runs) && n + 3 <= |owners|
    ensures Add(x, OwnersAt(runs, owners, n + 3, cw, d))
         == Add(Add(x, OwnersAt(runs, owners, n, cw, d)),
                Add(Add(RunIn(runs, owners[n], cw, d), RunIn(runs, owners[n + 1], cw, d)), RunIn(runs, owners[n + 2], cw, d)))
  {
    hide Add, RunIn, Runnables;
    var s, a, b, c := OwnersAt(runs, owners, n, cw, d), RunIn(runs, owners[n], cw, d), RunIn(runs, owners[n + 1], cw, d), RunIn(runs, owners[n + 2], cw, d);
    OwnersNext(runs, owners, n, cw, d);
    OwnersNext(runs, owners, n + 1, cw, d);
    OwnersNext(runs, owners, n + 2, cw, d);
    AddAssoc(s, a, b);
    AddAssoc(s, Add(a, b), c);
    AddAssoc(x, s, Add(Add(a, b), c));
  }

  method DrawTriples(m: seq<Entry>, t: StripeTablesOf, ghost o3: seq<nat>, cw: Bytes, screen: array<Byte>)
    requires PairedMap(m) && RunsOk(m, t.runs) && TableOk(t.lut) && TriplesOk(t.runs, t.triples, o3)
    requires |cw| == CODEWORDS && screen.Length == RASTER
    modifies screen
    ensures Runnables(t.runs) && forall d :: 0 <= d < RASTER ==> screen[d] == Add(old(screen[d]), OwnersAt(t.runs, o3, |o3|, cw, d))
  {
    hide PairedMap, RunOk, Runnable, LaneRun, OnRaster, TableOk, Add, Strip, ThreeRows, TripleLane, RunAt, Top;
    AllRunnable(m, t.runs);
    TableSize(t.lut);
    AddZero();
    ghost var before := screen[..];
    for g := 0 to |t.triples|
      invariant forall d :: 0 <= d < RASTER ==> screen[d] == Add(before[d], OwnersAt(t.runs, o3, 3 * g, cw, d))
    {
      TripleLanes(m, t, o3, g, 1);
      TripleLanes(m, t, o3, g, 2);
      TripleLanes(m, t, o3, g, 3);
      ghost var r1, r2, r3 := t.runs[o3[3 * g]], t.runs[o3[3 * g + 1]], t.runs[o3[3 * g + 2]];
      RunnableParts(r1);
      ghost var mid := screen[..];
      TripleKernel(t.lut, cw, t.triples[g], screen, r1, r2, r3);
      forall d | 0 <= d < RASTER ensures screen[d] == Add(before[d], OwnersAt(t.runs, o3, 3 * g + 3, cw, d)) {
        ThreeIsOwners(cw, t.triples[g].dest, 4 * t.triples[g].count, r1, r2, r3, d);
        ThreeMore(t.runs, o3, 3 * g, cw, d, before[d]);
      }
    }
  }

  // ----- the renderer

  // Grouped runs are drawn by their groups, once each.
  lemma AllDrawn(m: seq<Entry>, t: StripeTablesOf, o1: seq<nat>, o2: seq<nat>, o3: seq<nat>, cw: Bytes, x: Byte, d: nat)
    requires OwnedBy(m, t, o1, o2, o3) && |cw| == CODEWORDS && Runnables(t.runs) && PhaseRunsOk(t, o2)
    ensures Add(Add(Add(Add(Add(x, GroupedAt(t.runs, t.flags, |t.runs|, cw, d)), OwnersAt(t.runs, o1, |o1|, cw, d)), PhasesAt(t, o2, |o2|, cw, d)),
                    EdgesAt(t.edges, cw, d)), OwnersAt(t.runs, o3, |o3|, cw, d)) == x
  {
    hide Add, RunsOk, TableOk, ExactOk, TriplesOk, AllEdges, Runnables, PhaseRunsOk, OwnersAt, PhasesAt, EdgesAt, GroupedAt, KindAt, PhasesOk;
    GroupedIsKinds(t.runs, t.flags, |t.runs|, cw, d);
    KindIsOwners(t.runs, t.flags, InExact, o1, cw, d);
    KindIsOwners(t.runs, t.flags, InPhase, o2, cw, d);
    KindIsOwners(t.runs, t.flags, InTriple, o3, cw, d);
    PhasesAndEdges(t, o2, |o2|, cw, d);
    Cancels(x, OwnersAt(t.runs, o1, |o1|, cw, d), PhasesAt(t, o2, |o2|, cw, d), EdgesAt(t.edges, cw, d), OwnersAt(t.runs, o3, |o3|, cw, d));
  }

  lemma Cancels(x: Byte, a: Byte, p: Byte, e: Byte, c: Byte)
    ensures Add(Add(Add(Add(Add(x, Add(Add(a, Add(p, e)), c)), a), p), e), c) == x
  {
    hide Add;
    var g := Add(Add(a, Add(p, e)), c);
    AddAssoc(Add(x, g), a, p);
    AddAssoc(Add(x, g), Add(a, p), e);
    AddAssoc(Add(x, g), Add(Add(a, p), e), c);
    AddAssoc(a, p, e);
    AddAssoc(x, g, g);
    AddSelf(g);
    AddZero();
  }

  // direct_scatter_rgb3_phased_optimized for one plane: whenever it reports
  // success the plane differs from before by exactly the reference scatter.
  method ScatterPhased(m: seq<Entry>, t: StripeTablesOf, cw: Bytes, screen: array<Byte>) returns (ok: bool)
    requires PairedMap(m) && TablesOk(m, t) && |cw| == CODEWORDS && screen.Length == RASTER
    modifies screen
    ensures ShapedMap(m)
    ensures ok <==> t.runs != [] && t.exact != [] && t.phases != []
    ensures screen[..] == if ok then Xor(old(screen[..]), Scatter(m, cw)) else old(screen[..])
  {
    hide PairedMap, ShapedMap, RunsOk, TableOk, ExactOk, PhasesOk, TriplesOk, AllEdges, Lists, Runnables, PhaseRunsOk, Add, OwnersAt, PhasesAt,
      EdgesAt, GroupedAt, ScatterUpTo, EdgesInside;
    PairedShape(m);
    if t.runs == [] || t.exact == [] || t.phases == [] { return false; }
    ghost var o1: seq<nat>, o2: seq<nat>, o3: seq<nat> :| OwnedBy(m, t, o1, o2, o3);
    AllRunnable(m, t.runs);
    PhaseRunsAre(m, t, o2);
    ghost var before := screen[..];
    TablesParts(m, t);
    DrawRuns(m, t, cw, true, screen);
    DrawExact(m, t, o1, cw, screen);
    DrawPhases(m, t, o2, cw, screen);
    PhasesAndEdges(t, o2, |o2|, cw, 0);
    EdgeKernel(t.edges, cw, screen);
    DrawTriples(m, t, o3, cw, screen);
    ok := true;
    forall d | 0 <= d < RASTER ensures screen[d] == Add(before[d], Scatter(m, cw)[d]) {
      AllDrawn(m, t, o1, o2, o3, cw, Add(before[d], ScatterUpTo(m, cw, CODEWORDS)[d]), d);
    }
    assert screen[..] == Xor(before, Scatter(m, cw));
  }

  // ----- the fallbacks

  // Only the four-lane groups are drawn by their group.
  function ExactOnly(t: StripeTablesOf): (r: StripeTablesOf)
    ensures |r.flags| == |t.flags| && r == t.(flags := r.flags)
    ensures forall i :: 0 <= i < |t.flags| ==> r.flags[i] == if t.flags[i] == InExact then InExact else Plain
  {
    t.(flags := seq(|t.flags|, i requires 0 <= i < |t.flags| => if t.flags[i] == InExact then InExact else Plain))
  }

  // No run is.
  function RunsOnly(t: StripeTablesOf): (r: StripeTablesOf)
    ensures |r.flags| == |t.flags| && r == t.(flags := r.flags)
    ensures forall i :: 0 <= i < |t.flags| ==> r.flags[i] == Plain
  {
    t.(flags := seq(|t.flags|, _ => Plain))
  }

  lemma {:induction false} GroupedIsExact(runs: seq<Run>, flags: seq<Kind>, n: nat, cw: Bytes, d: nat)
    requires |cw| == CODEWORDS && Runnables(runs) && n <= |flags| == |runs|
    requires forall i :: 0 <= i < |flags| ==> flags[i] == InExact || flags[i] == Plain
    ensures GroupedAt(runs, flags, n, cw, d) == KindAt(runs, flags, InExact, n, cw, d)
    decreases n
  {
    hide Add, RunIn, Runnables;
    if n > 0 { GroupedIsExact(runs, flags, n - 1, cw, d); }
  }

  lemma {:induction false} NoneGrouped(runs: seq<Run>, flags: seq<Kind>, n: nat, cw: Bytes, d: nat)
    requires |cw| == CODEWORDS && Runnables(runs) && n <= |flags| == |runs| && forall i :: 0 <= i < |flags| ==> flags[i] == Plain
    ensures GroupedAt(runs, flags, n, cw, d) == 0
    decreases n
  {
    hide Add, RunIn, Runnables;
    if n > 0 { NoneGrouped(runs, flags, n - 1, cw, d); }
  }

  // The four-lane groups draw what the run loop left out.
  lemma ExactDrawn(m: seq<Entry>, t: StripeTablesOf, o1: seq<nat>, cw: Bytes, x: Byte, d: nat)
    requires RunTables(m, t) && Lists(t.flags, o1, InExact) && |cw| == CODEWORDS && Runnables(t.runs)
    ensures Add(Add(x, GroupedAt(t.runs, ExactOnly(t).flags, |t.runs|, cw, d)), OwnersAt(t.runs, o1, |o1|, cw, d)) == x
  {
    hide Add, RunsOk, TableOk, Runnables, OwnersAt, GroupedAt, KindAt;
    GroupedIsExact(t.runs, ExactOnly(t).flags, |t.runs|, cw, d);
    KindIsOwners(t.runs, ExactOnly(t).flags, InExact, o1, cw, d);
    var g := OwnersAt(t.runs, o1, |o1|, cw, d);
    AddAssoc(x, g, g);
    AddSelf(g);
    AddZero();
  }

  // direct_scatter_rgb3_grouped_optimized for one plane.
  method ScatterGrouped(m: seq<Entry>, t: StripeTablesOf, cw: Bytes, screen: array<Byte>) returns (ok: bool)
    requires PairedMap(m) && TablesOk(m, t) && |cw| == CODEWORDS && screen.Length == RASTER
    modifies screen
    ensures ShapedMap(m)
    ensures ok <==> t.runs != [] && t.exact != []
    ensures screen[..] == if ok then Xor(old(screen[..]), Scatter(m, cw)) else old(screen[..])
  {
    hide PairedMap, ShapedMap, RunsOk, TableOk, ExactOk, PhasesOk, TriplesOk, AllEdges, Lists, Runnables, Add, OwnersAt, GroupedAt, ScatterUpTo;
    PairedShape(m);
    if t.runs == [] || t.exact == [] { return false; }
    ghost var o1: seq<nat>, o2: seq<nat>, o3: seq<nat> :| OwnedBy(m, t, o1, o2, o3);
    AllRunnable(m, t.runs);
    ghost var before := screen[..];
    DrawRuns(m, ExactOnly(t), cw, false, screen);
    DrawExact(m, t, o1, cw, screen);
    ok := true;
    forall d | 0 <= d < RASTER ensures screen[d] == Add(before[d], Scatter(m, cw)[d]) {
      ExactDrawn(m, t, o1, cw, Add(before[d], ScatterUpTo(m, cw, CODEWORDS)[d]), d);
    }
    assert screen[..] == Xor(before, Scatter(m, cw));
  }

  // The run loop of direct_scatter_rgb3_stripe_optimized for one plane.
  method ScatterRuns(m: seq<Entry>, t: StripeTablesOf, cw: Bytes, screen: array<Byte>)
    requires PairedMap(m) && TablesOk(m, t) && |cw| == CODEWORDS && screen.Length == RASTER
    modifies screen
    ensures ShapedMap(m) && screen[..] == Xor(old(screen[..]), Scatter(m, cw))
  {
    hide PairedMap, ShapedMap, RunsOk, TableOk, TablesOk, Runnables, Add, GroupedAt, ScatterUpTo;
    PairedShape(m);
    TablesParts(m, t);
    AllRunnable(m, t.runs);
    ghost var before := screen[..];
    DrawRuns(m, RunsOnly(t), cw, false, screen);
    forall d | 0 <= d < RASTER ensures screen[d] == Add(before[d], Scatter(m, cw)[d]) {
      NoneGrouped(t.runs, RunsOnly(t).flags, |t.runs|, cw, d);
      AddZero();
    }
    assert screen[..] == Xor(before, Scatter(m, cw));
  }

  // direct_scatter_rgb3_optimized for one plane: module by module.
  method ScatterModules(m: seq<Entry>, cw: Bytes, screen: array<Byte>)
    requires PairedMap(m) && |cw| == CODEWORDS && screen.Length == RASTER
    modifies screen
    ensures ShapedMap(m) && screen[..] == Xor(old(screen[..]), Scatter(m, cw))
  {
    hide PairedMap, ShapedMap, Add;
    PairedShape(m);
    ghost var before := screen[..];
    ScatterRange(m, cw, 0, CODEWORDS, screen);
    forall d | 0 <= d < RASTER ensures screen[d] == Add(before[d], Scatter(m, cw)[d]) {
      AddZero();
    }
    assert screen[..] == Xor(before, Scatter(m, cw));
  }

  // direct_scatter_rgb3_stripe_optimized for one plane.  `aligned`: the three
  // codeword buffers share one offset that leaves room for a stream.  Whichever
  // path is taken, success means the reference scatter; it is refused only when
  // the map has shifted groups and no four-lane group.
  method ScatterStripe(m: seq<Entry>, t: StripeTablesOf, aligned: bool, cw: Bytes, screen: array<Byte>) returns (ok: bool)
    requires PairedMap(m) && TablesOk(m, t) && |cw| == CODEWORDS && screen.Length == RASTER
    modifies screen
    ensures ShapedMap(m)
    ensures ok <==> (t.runs != [] && aligned && t.phases != [] ==> t.exact != [])
    ensures screen[..] == if ok then Xor(old(screen[..]), Scatter(m, cw)) else old(screen[..])
  {
    hide *;
    ok := true;
    if t.runs == [] || !aligned {
      ScatterModules(m, cw, screen);
    } else if t.phases != [] {
      ok := ScatterPhased(m, t, cw, screen);
    } else if t.exact != [] {
      ok := ScatterGrouped(m, t, cw, screen);
    } else {
      ScatterRuns(m, t, cw, screen);
    }
  }

  // The three planes of an RGB symbol.
  method ScatterRgb3(m: seq<Entry>, t: StripeTablesOf, aligned: bool, red: Bytes, green: Bytes, blue: Bytes,
                     redScreen: array<Byte>, greenScreen: array<Byte>, blueScreen: array<Byte>) returns (ok: bool)
    requires PairedMap(m) && TablesOk(m, t) && |red| == |green| == |blue| == CODEWORDS
    requires redScreen.Length == greenScreen.Length == blueScreen.Length == RASTER
    requires redScreen != greenScreen && greenScreen != blueScreen && redScreen != blueScreen
    modifies redScreen, greenScreen, blueScreen
    ensures ShapedMap(m)
    ensures ok <==> (t.runs != [] && aligned && t.phases != [] ==> t.exact != [])
    ensures redScreen[..] == if ok then Xor(old(redScreen[..]), Scatter(m, red)) else old(redScreen[..])
    ensures greenScreen[..] == if ok then Xor(old(greenScreen[..]), Scatter(m, green)) else old(greenScreen[..])
    ensures blueScreen[..] == if ok then Xor(old(blueScreen[..]), Scatter(m, blue)) else old(blueScreen[..])
  {
    hide PairedMap, ShapedMap, TablesOk, Scatter, Xor;
    ok := ScatterStripe(m, t, aligned, red, redScreen);
    var ok2 := ScatterStripe(m, t, aligned, green, greenScreen);
    var ok3 := ScatterStripe(m, t, aligned, blue, blueScreen);
  }
}
