// vga.c: the stripe kernels as array loops.  Each toggles exactly the rows of
// the runs it stands for.

module StripeKernels {
  import opened Gf2
  import opened Protocol
  import opened V40L
  import opened Raster
  import opened StripeRuns
  import opened StripeTables
  import opened StripePlan

  // ----- strips: one framebuffer byte column, row by row from `dest` down

  function Strip(dest: int, rows: Bytes, d: nat): Byte {
    if d >= dest && (d - dest) % LINE == 0 && (d - dest) / LINE < |rows| then rows[(d - dest) / LINE] else 0
  }

  ghost predicate Toggled(before: Bytes, after: Bytes, dest: int, rows: Bytes) {
    |before| == |after| == RASTER && forall d :: 0 <= d < RASTER ==> after[d] == Add(before[d], Strip(dest, rows, d))
  }

  predicate OnRaster(dest: int, n: nat) {
    0 <= dest && dest + (n - 1) * LINE < RASTER
  }

  // Four rows at once: the bytes of a word, bottom row first.
  method XorWord(screen: array<Byte>, at: nat, w: Word)
    requires screen.Length == RASTER && 3 * LINE <= at < RASTER
    modifies screen
    ensures forall d :: 0 <= d < RASTER ==>
              screen[d] == if d == at then Add(old(screen[d]), ByteOf(w, 0))
                           else if d == at - LINE then Add(old(screen[d]), ByteOf(w, 1))
                           else if d == at - 2 * LINE then Add(old(screen[d]), ByteOf(w, 2))
                           else if d == at - 3 * LINE then Add(old(screen[d]), ByteOf(w, 3))
                           else old(screen[d])
  {
    hide Add, ByteOf;
    screen[at] := Add(screen[at], ByteOf(w, 0));
    screen[at - LINE] := Add(screen[at - LINE], ByteOf(w, 1));
    screen[at - 2 * LINE] := Add(screen[at - 2 * LINE], ByteOf(w, 2));
    screen[at - 3 * LINE] := Add(screen[at - 3 * LINE], ByteOf(w, 3));
  }

  ghost predicate WordRows(w: Word, rows: Bytes, k: nat) {
    4 * k + 4 <= |rows| && forall b :: 0 <= b < 4 ==> ByteOf(w, b) == rows[4 * k + 3 - b]
  }

  // One more block of four rows.
  lemma StripStep(before: Bytes, mid: Bytes, after: Bytes, dest: int, rows: Bytes, k: nat, w: Word)
    requires WordRows(w, rows, k) && OnRaster(dest, |rows|) && Toggled(before, mid, dest, rows[..4 * k])
    requires |after| == RASTER
    requires var at := dest + 3 * LINE + 4 * LINE * k;
             forall d :: 0 <= d < RASTER ==>
               after[d] == if d == at then Add(mid[d], ByteOf(w, 0))
                           else if d == at - LINE then Add(mid[d], ByteOf(w, 1))
                           else if d == at - 2 * LINE then Add(mid[d], ByteOf(w, 2))
                           else if d == at - 3 * LINE then Add(mid[d], ByteOf(w, 3))
                           else mid[d]
    ensures Toggled(before, after, dest, rows[..4 * k + 4])
  {
    hide Add, ByteOf;
    AddZero();
    forall d | 0 <= d < RASTER ensures after[d] == Add(before[d], Strip(dest, rows[..4 * k + 4], d)) {
      StripAt(dest, rows, k, d);
    }
  }

  lemma StripAt(dest: int, rows: Bytes, k: nat, d: nat)
    requires 4 * k + 4 <= |rows|
    ensures Strip(dest, rows[..4 * k + 4], d) ==
            var at := dest + 3 * LINE + 4 * LINE * k;
            if d == at then rows[4 * k + 3] else if d == at - LINE then rows[4 * k + 2]
            else if d == at - 2 * LINE then rows[4 * k + 1] else if d == at - 3 * LINE then rows[4 * k]
            else Strip(dest, rows[..4 * k], d)
    ensures var at := dest + 3 * LINE + 4 * LINE * k;
            d == at || d == at - LINE || d == at - 2 * LINE || d == at - 3 * LINE ==> Strip(dest, rows[..4 * k], d) == 0
  {}

  lemma StripNone(before: Bytes, dest: int)
    requires |before| == RASTER
    ensures Toggled(before, before, dest, [])
  {
    hide Add;
    AddZero();
  }

  // ----- rows of a run, from the top

  function LaneRow(run: Run, cw: Bytes, t: nat): Byte
    requires |cw| == CODEWORDS && run.first + run.count <= CODEWORDS && t < 4 * run.count
  {
    var j := if run.shape.direction > 0 then t else 4 * run.count - 1 - t;
    PairMask(run.shape.right, run.shape.left, Pair(cw[run.first + j / 4], j % 4))
  }

  function LaneRows(run: Run, cw: Bytes, lead: nat, n: nat): (r: Bytes)
    requires |cw| == CODEWORDS && run.first + run.count <= CODEWORDS && lead + n <= 4 * run.count
    ensures |r| == n && forall t :: 0 <= t < n ==> r[t] == LaneRow(run, cw, lead + t)
  {
    seq(n, t requires 0 <= t < n => LaneRow(run, cw, lead + t))
  }

  // The strip of all its rows is what the run toggles.
  lemma RunIsStrip(run: Run, cw: Bytes, d: nat)
    requires |cw| == CODEWORDS && run.first + run.count <= CODEWORDS && run.count > 0
    requires run.shape.direction == 1 || run.shape.direction == -1
    ensures RunAt(run, cw, run.count, d) == Strip(Top(run), LaneRows(run, cw, 0, 4 * run.count), d)
  {
    hide PairMask, Pair;
    var s := run.shape;
    var n := 4 * run.count;
    var away := if s.direction > 0 then d - s.dest else s.dest - d;
    var down := d - Top(run);
    if s.direction < 0 {
      assert down == (n - 1) * LINE - away;
      Complement(n, away);
    }
  }

  lemma Complement(n: nat, away: int)
    requires n > 0
    ensures var down := (n - 1) * LINE - away;
            (down % LINE == 0 <==> away % LINE == 0) && (away % LINE == 0 ==> down / LINE == n - 1 - away / LINE)
  {}

  // ----- table lookups

  ghost predicate TableOk(lut: seq<Word>) {
    |lut| == 2048 && forall lane, n :: 0 <= lane < 4 && 0 <= n < 256 ==> TableEntry(lut, lane, n)
  }

  ghost predicate TableEntry(lut: seq<Word>, lane: nat, n: nat)
    requires |lut| == 2048 && lane < 4 && n < 256
  {
    lut[lane * 256 + n] == Contribution(lane, ToByte(n)) && lut[1024 + lane * 256 + n] == PhaseContribution(lane, ToByte(n))
  }

  // prepare_stripe_group_lut.
  method PrepareTables() returns (lut: seq<Word>)
    ensures TableOk(lut)
  {
    hide Contribution, PhaseContribution, ToByte;
    var plain, phase: seq<Word> := [], [];
    for lane := 0 to 4
      invariant |plain| == |phase| == lane * 256
      invariant forall i :: 0 <= i < |plain| ==> Entered(plain[i], phase[i], i)
    {
      for value := 0 to 256
        invariant |plain| == |phase| == lane * 256 + value
        invariant forall i :: 0 <= i < |plain| ==> Entered(plain[i], phase[i], i)
      {
        EntryPlace(lane, value);
        plain, phase := plain + [Contribution(lane, ToByte(value))], phase + [PhaseContribution(lane, ToByte(value))];
      }
    }
    lut := plain + phase;
    forall lane, n | 0 <= lane < 4 && 0 <= n < 256 ensures TableEntry(lut, lane, n) {
      EntryPlace(lane, n);
      assert Entered(plain[lane * 256 + n], phase[lane * 256 + n], lane * 256 + n);
    }
  }

  ghost predicate Entered(plain: Word, phase: Word, i: nat) {
    plain == Contribution(i / 256, ToByte(i % 256)) && phase == PhaseContribution(i / 256, ToByte(i % 256))
  }

  lemma EntryPlace(lane: nat, n: nat)
    requires n < 256
    ensures (lane * 256 + n) / 256 == lane && (lane * 256 + n) % 256 == n
  {}

  lemma LookupIs(lut: seq<Word>, lane: nat, v: Byte)
    requires TableOk(lut) && lane < 4
    ensures lut[lane * 256 + Val(v)] == Contribution(lane, v) && lut[1024 + lane * 256 + Val(v)] == PhaseContribution(lane, v)
  {
    hide Contribution, PhaseContribution, ToByte, Val;
    ValToByte(v);
    assert TableEntry(lut, lane, Val(v));
  }

  // ----- one lane of a group kernel

  // A run whose masks and direction are those of a lane.
  predicate LaneRun(run: Run, lane: nat) {
    && lane < 4 && run.count > 0 && run.first + run.count <= CODEWORDS
    && run.shape.right == SlotRight(lane) && run.shape.left == LeftOf(SlotRight(lane))
    && run.shape.direction == if Upward(lane) then -1 else 1
  }

  // The source byte of block k: ascending for downward lanes, descending for
  // upward ones.
  function RawWord(lut: seq<Word>, cw: Bytes, lane: nat, first: nat, count: nat, k: nat): Word
    requires |lut| == 2048 && |cw| == CODEWORDS && lane < 4 && k < count && first + count <= CODEWORDS
  {
    lut[lane * 256 + Val(cw[if Upward(lane) then first + count - 1 - k else first + k])]
  }

  lemma RawRows(lut: seq<Word>, cw: Bytes, run: Run, lane: nat, k: nat, b: nat)
    requires TableOk(lut) && |cw| == CODEWORDS && LaneRun(run, lane) && k < run.count && b < 4
    ensures ByteOf(RawWord(lut, cw, lane, run.first, run.count, k), b) == LaneRow(run, cw, 4 * k + 3 - b)
  {
    hide ByteOf, Contribution, PhaseContribution, Pair, PairMask, SlotRight, LeftOf, TableOk;
    var v := cw[if Upward(lane) then run.first + run.count - 1 - k else run.first + k];
    TableSize(lut);
    LookupIs(lut, lane, v);
    ContributionRows(lane, v, b);
    if Upward(lane) {
      RowSplit(run.count - 1 - k, b);
    } else {
      RowSplit(k, 3 - b);
    }
  }

  lemma TableSize(lut: seq<Word>)
    requires TableOk(lut)
    ensures |lut| == 2048
  {}

  lemma RowSplit(c: nat, r: nat)
    requires r < 4
    ensures (4 * c + r) / 4 == c && (4 * c + r) % 4 == r
  {}

  // Two neighbouring source bytes joined for a lane that starts two rows early.
  function JoinedWord(lut: seq<Word>, cw: Bytes, lane: nat, first: nat, k: nat): Word
    requires |lut| == 2048 && |cw| == CODEWORDS && lane < 4 && k < PHASE_COUNT && first + PHASE_COUNT < CODEWORDS
  {
    var current := if Upward(lane) then first + PHASE_COUNT - k else first + k;
    var next := if Upward(lane) then current - 1 else current + 1;
    lut[1024 + lane * 256 + Val(PhaseKey(lane, cw[current], cw[next]))]
  }

  lemma JoinedRows(lut: seq<Word>, cw: Bytes, run: Run, lane: nat, k: nat, b: nat)
    requires TableOk(lut) && |cw| == CODEWORDS && LaneRun(run, lane) && run.count == PHASE_COUNT + 1 && k < PHASE_COUNT && b < 4
    ensures ByteOf(JoinedWord(lut, cw, lane, run.first, k), b) == LaneRow(run, cw, 4 * k + 5 - b)
  {
    hide ByteOf, Contribution, PhaseContribution, Pair, PairMask, SlotRight, LeftOf, TableOk, PhaseKey;
    TableSize(lut);
    var current := if Upward(lane) then run.first + PHASE_COUNT - k else run.first + k;
    var next := if Upward(lane) then current - 1 else current + 1;
    LookupIs(lut, lane, PhaseKey(lane, cw[current], cw[next]));
    PhaseRows(lane, cw[current], cw[next], b);
    if Upward(lane) {
      if b < 2 { RowSplit(PHASE_COUNT - 1 - k, b + 2); } else { RowSplit(PHASE_COUNT - k, b - 2); }
    } else {
      if b < 2 { RowSplit(k + 1, 1 - b); } else { RowSplit(k, 5 - b); }
    }
  }

  // ----- the kernels

  lemma StripSum(dest: int, a: Bytes, b: Bytes, d: nat)
    requires |a| == |b|
    ensures Strip(dest, Xor(a, b), d) == Add(Strip(dest, a, d), Strip(dest, b, d))
  {
    hide Add;
    AddZero();
  }

  // The four lanes of a group, read at the given leads.
  ghost function FourRows(cw: Bytes, r0: Run, r1: Run, r2: Run, r3: Run, even: nat, odd: nat, n: nat): (r: Bytes)
    requires |cw| == CODEWORDS && LaneRun(r0, 0) && LaneRun(r1, 1) && LaneRun(r2, 2) && LaneRun(r3, 3)
    requires even + n <= 4 * r0.count && even + n <= 4 * r2.count && odd + n <= 4 * r1.count && odd + n <= 4 * r3.count
    ensures |r| == n
  {
    Xor(Xor(Xor(LaneRows(r0, cw, even, n), LaneRows(r1, cw, odd, n)), LaneRows(r2, cw, even, n)), LaneRows(r3, cw, odd, n))
  }

  lemma ByteOfFour(a: Word, b: Word, c: Word, d: Word, i: nat)
    requires i < 4
    ensures ByteOf(Plus(Plus(Plus(a, b), c), d), i) == Add(Add(Add(ByteOf(a, i), ByteOf(b, i)), ByteOf(c, i)), ByteOf(d, i))
  {
    hide Plus, ByteOf, Add;
    ByteOfPlus(a, b, i);
    ByteOfPlus(Plus(a, b), c, i);
    ByteOfPlus(Plus(Plus(a, b), c), d, i);
  }

  // directStripeGroupLutPlane386: four table reads per block of four rows.
  method ExactKernel(lut: seq<Word>, cw: Bytes, g: Exact, screen: array<Byte>, ghost r0: Run, ghost r1: Run, ghost r2: Run, ghost r3: Run)
    requires TableOk(lut) && |lut| == 2048 && |cw| == CODEWORDS && screen.Length == RASTER && |g.first| == 4
    requires LaneRun(r0, 0) && LaneRun(r1, 1) && LaneRun(r2, 2) && LaneRun(r3, 3)
    requires r0.first == g.first[0] && r1.first == g.first[1] && r2.first == g.first[2] && r3.first == g.first[3]
    requires r0.count == r1.count == r2.count == r3.count == g.count && OnRaster(g.dest, 4 * g.count)
    modifies screen
    ensures Toggled(old(screen[..]), screen[..], g.dest, FourRows(cw, r0, r1, r2, r3, 0, 0, 4 * g.count))
  {
    hide LaneRun, TableOk, RawWord, FourRows, Toggled, Plus;
    ghost var before := screen[..];
    ghost var rows := FourRows(cw, r0, r1, r2, r3, 0, 0, 4 * g.count);
    StripNone(before, g.dest);
    assert rows[..0] == [];
    LaneBounds(r0, 0);
    LaneBounds(r1, 1);
    LaneBounds(r2, 2);
    LaneBounds(r3, 3);
    for k := 0 to g.count
      invariant Toggled(before, screen[..], g.dest, rows[..4 * k])
    {
      var w := Plus(Plus(Plus(RawWord(lut, cw, 0, g.first[0], g.count, k), RawWord(lut, cw, 1, g.first[1], g.count, k)),
                         RawWord(lut, cw, 2, g.first[2], g.count, k)), RawWord(lut, cw, 3, g.first[3], g.count, k));
      ExactBlock(lut, cw, g, r0, r1, r2, r3, k, w);
      ghost var mid := screen[..];
      XorWord(screen, g.dest + 3 * LINE + 4 * LINE * k, w);
      StripStep(before, mid, screen[..], g.dest, rows, k, w);
    }
    assert rows[..4 * g.count] == rows;
  }

  lemma LaneBounds(run: Run, lane: nat)
    requires LaneRun(run, lane)
    ensures run.count > 0 && run.first + run.count <= CODEWORDS
  {}

  lemma ExactBlock(lut: seq<Word>, cw: Bytes, g: Exact, r0: Run, r1: Run, r2: Run, r3: Run, k: nat, w: Word)
    requires TableOk(lut) && |lut| == 2048 && |cw| == CODEWORDS && |g.first| == 4
    requires LaneRun(r0, 0) && LaneRun(r1, 1) && LaneRun(r2, 2) && LaneRun(r3, 3)
    requires r0.first == g.first[0] && r1.first == g.first[1] && r2.first == g.first[2] && r3.first == g.first[3]
    requires r0.count == r1.count == r2.count == r3.count == g.count && k < g.count
    requires w == Plus(Plus(Plus(RawWord(lut, cw, 0, g.first[0], g.count, k), RawWord(lut, cw, 1, g.first[1], g.count, k)),
                            RawWord(lut, cw, 2, g.first[2], g.count, k)), RawWord(lut, cw, 3, g.first[3], g.count, k))
    ensures WordRows(w, FourRows(cw, r0, r1, r2, r3, 0, 0, 4 * g.count), k)
  {
    hide RawWord, ByteOf, Plus, Add, LaneRow, TableOk;
    forall b | 0 <= b < 4 ensures ByteOf(w, b) == FourRows(cw, r0, r1, r2, r3, 0, 0, 4 * g.count)[4 * k + 3 - b] {
      ByteOfFour(RawWord(lut, cw, 0, g.first[0], g.count, k), RawWord(lut, cw, 1, g.first[1], g.count, k),
                 RawWord(lut, cw, 2, g.first[2], g.count, k), RawWord(lut, cw, 3, g.first[3], g.count, k), b);
      RawRows(lut, cw, r0, 0, k, b);
      RawRows(lut, cw, r1, 1, k, b);
      RawRows(lut, cw, r2, 2, k, b);
      RawRows(lut, cw, r3, 3, k, b);
    }
  }

  // The word of one lane of a phase group: joined when the lane starts early.
  function PhaseWord(lut: seq<Word>, cw: Bytes, g: Phased, lane: nat, k: nat): Word
    requires |lut| == 2048 && |cw| == CODEWORDS && lane < 4 && k < PHASE_COUNT && |g.first| == 4
    requires g.first[lane] + PHASE_COUNT + Lead(g.phase, lane) / 2 <= CODEWORDS
  {
    if Lead(g.phase, lane) == 2 then JoinedWord(lut, cw, lane, g.first[lane], k)
    else RawWord(lut, cw, lane, g.first[lane], PHASE_COUNT, k)
  }

  predicate PhaseRun(g: Phased, run: Run, lane: nat) {
    && LaneRun(run, lane) && |g.first| == 4 && run.first == g.first[lane]
    && run.count == PHASE_COUNT + Lead(g.phase, lane) / 2
  }

  lemma PhaseWordRows(lut: seq<Word>, cw: Bytes, g: Phased, run: Run, lane: nat, k: nat, b: nat)
    requires TableOk(lut) && |lut| == 2048 && |cw| == CODEWORDS && PhaseRun(g, run, lane) && k < PHASE_COUNT && b < 4
    ensures g.first[lane] + PHASE_COUNT + Lead(g.phase, lane) / 2 <= CODEWORDS
    ensures ByteOf(PhaseWord(lut, cw, g, lane, k), b) == LaneRow(run, cw, Lead(g.phase, lane) + 4 * k + 3 - b)
  {
    hide RawWord, JoinedWord, ByteOf, LaneRow, TableOk;
    if Lead(g.phase, lane) == 2 {
      JoinedRows(lut, cw, run, lane, k, b);
    } else {
      RawRows(lut, cw, run, lane, k, b);
    }
  }

  lemma PhaseBounds(g: Phased, run: Run, lane: nat)
    requires PhaseRun(g, run, lane)
    ensures LaneRun(run, lane) && |g.first| == 4 && run.count == PHASE_COUNT + Lead(g.phase, lane) / 2
    ensures g.first[lane] + PHASE_COUNT + Lead(g.phase, lane) / 2 <= CODEWORDS
  {}

  // Both lanes of a direction start together.
  lemma LeadPairs(phase: nat)
    ensures Lead(phase, 2) == Lead(phase, 0) <= 2 && Lead(phase, 3) == Lead(phase, 1) <= 2
  {}

  ghost function PhaseStrip(cw: Bytes, g: Phased, r0: Run, r1: Run, r2: Run, r3: Run): (r: Bytes)
    requires |cw| == CODEWORDS && PhaseRun(g, r0, 0) && PhaseRun(g, r1, 1) && PhaseRun(g, r2, 2) && PhaseRun(g, r3, 3)
    ensures |r| == 4 * PHASE_COUNT
  {
    FourRows(cw, r0, r1, r2, r3, Lead(g.phase, 0), Lead(g.phase, 1), 4 * PHASE_COUNT)
  }

  // directStripePhasePairLutPlane386: the rows common to lanes that are two
  // rows apart.
  method PhaseKernel(lut: seq<Word>, cw: Bytes, g: Phased, screen: array<Byte>, ghost r0: Run, ghost r1: Run, ghost r2: Run, ghost r3: Run)
    requires TableOk(lut) && |lut| == 2048 && |cw| == CODEWORDS && screen.Length == RASTER
    requires PhaseRun(g, r0, 0) && PhaseRun(g, r1, 1) && PhaseRun(g, r2, 2) && PhaseRun(g, r3, 3)
    requires OnRaster(g.dest, 4 * PHASE_COUNT)
    modifies screen
    ensures Toggled(old(screen[..]), screen[..], g.dest, PhaseStrip(cw, g, r0, r1, r2, r3))
  {
    hide PhaseRun, LaneRun, TableOk, PhaseWord, PhaseStrip, Toggled, Plus, Lead;
    ghost var before := screen[..];
    ghost var rows := PhaseStrip(cw, g, r0, r1, r2, r3);
    StripNone(before, g.dest);
    assert rows[..0] == [];
    PhaseBounds(g, r0, 0);
    PhaseBounds(g, r1, 1);
    PhaseBounds(g, r2, 2);
    PhaseBounds(g, r3, 3);
    for k := 0 to PHASE_COUNT
      invariant Toggled(before, screen[..], g.dest, rows[..4 * k])
    {
      var w := Plus(Plus(Plus(PhaseWord(lut, cw, g, 0, k), PhaseWord(lut, cw, g, 1, k)), PhaseWord(lut, cw, g, 2, k)), PhaseWord(lut, cw, g, 3, k));
      PhaseBlock(lut, cw, g, r0, r1, r2, r3, k, w);
      ghost var mid := screen[..];
      XorWord(screen, g.dest + 3 * LINE + 4 * LINE * k, w);
      StripStep(before, mid, screen[..], g.dest, rows, k, w);
    }
    assert rows[..4 * PHASE_COUNT] == rows;
  }

  lemma PhaseBlock(lut: seq<Word>, cw: Bytes, g: Phased, r0: Run, r1: Run, r2: Run, r3: Run, k: nat, w: Word)
    requires TableOk(lut) && |lut| == 2048 && |cw| == CODEWORDS && k < PHASE_COUNT
    requires PhaseRun(g, r0, 0) && PhaseRun(g, r1, 1) && PhaseRun(g, r2, 2) && PhaseRun(g, r3, 3)
    requires w == Plus(Plus(Plus(PhaseWord(lut, cw, g, 0, k), PhaseWord(lut, cw, g, 1, k)), PhaseWord(lut, cw, g, 2, k)), PhaseWord(lut, cw, g, 3, k))
    ensures WordRows(w, PhaseStrip(cw, g, r0, r1, r2, r3), k)
  {
    hide PhaseWord, ByteOf, Plus, Add, LaneRow, TableOk, LaneRun, Lead, PhaseRun;
    PhaseBounds(g, r0, 0);
    PhaseBounds(g, r1, 1);
    PhaseBounds(g, r2, 2);
    PhaseBounds(g, r3, 3);
    LeadPairs(g.phase);
    forall b | 0 <= b < 4 ensures ByteOf(w, b) == PhaseStrip(cw, g, r0, r1, r2, r3)[4 * k + 3 - b] {
      ByteOfFour(PhaseWord(lut, cw, g, 0, k), PhaseWord(lut, cw, g, 1, k), PhaseWord(lut, cw, g, 2, k), PhaseWord(lut, cw, g, 3, k), b);
      PhaseWordRows(lut, cw, g, r0, 0, k, b);
      PhaseWordRows(lut, cw, g, r1, 1, k, b);
      PhaseWordRows(lut, cw, g, r2, 2, k, b);
      PhaseWordRows(lut, cw, g, r3, 3, k, b);
    }
  }

  ghost function ThreeRows(cw: Bytes, r1: Run, r2: Run, r3: Run, n: nat): (r: Bytes)
    requires |cw| == CODEWORDS && LaneRun(r1, 1) && LaneRun(r2, 2) && LaneRun(r3, 3)
    requires n <= 4 * r1.count && n <= 4 * r2.count && n <= 4 * r3.count
    ensures |r| == n
  {
    Xor(Xor(LaneRows(r1, cw, 0, n), LaneRows(r2, cw, 0, n)), LaneRows(r3, cw, 0, n))
  }

  // directStripeTripleLutPlane386.
  method TripleKernel(lut: seq<Word>, cw: Bytes, g: Triple, screen: array<Byte>, ghost r1: Run, ghost r2: Run, ghost r3: Run)
    requires TableOk(lut) && |lut| == 2048 && |cw| == CODEWORDS && screen.Length == RASTER && |g.first| == 3
    requires LaneRun(r1, 1) && LaneRun(r2, 2) && LaneRun(r3, 3)
    requires r1.first == g.first[0] && r2.first == g.first[1] && r3.first == g.first[2]
    requires r1.count == r2.count == r3.count == g.count && OnRaster(g.dest, 4 * g.count)
    modifies screen
    ensures Toggled(old(screen[..]), screen[..], g.dest, ThreeRows(cw, r1, r2, r3, 4 * g.count))
  {
    hide LaneRun, TableOk, RawWord, ThreeRows, Toggled, Plus;
    ghost var before := screen[..];
    ghost var rows := ThreeRows(cw, r1, r2, r3, 4 * g.count);
    StripNone(before, g.dest);
    assert rows[..0] == [];
    LaneBounds(r1, 1);
    LaneBounds(r2, 2);
    LaneBounds(r3, 3);
    for k := 0 to g.count
      invariant Toggled(before, screen[..], g.dest, rows[..4 * k])
    {
      var w := Plus(Plus(RawWord(lut, cw, 1, g.first[0], g.count, k), RawWord(lut, cw, 2, g.first[1], g.count, k)),
                    RawWord(lut, cw, 3, g.first[2], g.count, k));
      TripleBlock(lut, cw, g, r1, r2, r3, k, w);
      ghost var mid := screen[..];
      XorWord(screen, g.dest + 3 * LINE + 4 * LINE * k, w);
      StripStep(before, mid, screen[..], g.dest, rows, k, w);
    }
    assert rows[..4 * g.count] == rows;
  }

  lemma TripleBlock(lut: seq<Word>, cw: Bytes, g: Triple, r1: Run, r2: Run, r3: Run, k: nat, w: Word)
    requires TableOk(lut) && |lut| == 2048 && |cw| == CODEWORDS && |g.first| == 3
    requires LaneRun(r1, 1) && LaneRun(r2, 2) && LaneRun(r3, 3)
    requires r1.first == g.first[0] && r2.first == g.first[1] && r3.first == g.first[2]
    requires r1.count == r2.count == r3.count == g.count && k < g.count
    requires w == Plus(Plus(RawWord(lut, cw, 1, g.first[0], g.count, k), RawWord(lut, cw, 2, g.first[1], g.count, k)),
                       RawWord(lut, cw, 3, g.first[2], g.count, k))
    ensures WordRows(w, ThreeRows(cw, r1, r2, r3, 4 * g.count), k)
  {
    hide RawWord, ByteOf, Plus, Add, LaneRow, TableOk;
    var a, b', d := RawWord(lut, cw, 1, g.first[0], g.count, k), RawWord(lut, cw, 2, g.first[1], g.count, k), RawWord(lut, cw, 3, g.first[2], g.count, k);
    forall b | 0 <= b < 4 ensures ByteOf(w, b) == ThreeRows(cw, r1, r2, r3, 4 * g.count)[4 * k + 3 - b] {
      ByteOfPlus(a, b', b);
      ByteOfPlus(Plus(a, b'), d, b);
      RawRows(lut, cw, r1, 1, k, b);
      RawRows(lut, cw, r2, 2, k, b);
      RawRows(lut, cw, r3, 3, k, b);
    }
  }

  // scatter_stripe_run_lut: one ungrouped lane through its table.
  method RunTableKernel(lut: seq<Word>, cw: Bytes, run: Run, lane: nat, screen: array<Byte>)
    requires TableOk(lut) && |lut| == 2048 && |cw| == CODEWORDS && screen.Length == RASTER
    requires LaneRun(run, lane) && OnRaster(Top(run), 4 * run.count)
    modifies screen
    ensures Toggled(old(screen[..]), screen[..], Top(run), LaneRows(run, cw, 0, 4 * run.count))
  {
    hide LaneRun, TableOk, RawWord, LaneRow, Toggled;
    LaneBounds(run, lane);
    ghost var before := screen[..];
    ghost var rows := LaneRows(run, cw, 0, 4 * run.count);
    StripNone(before, Top(run));
    assert rows[..0] == [];
    assert lane < 4 by { LaneSmall(run, lane); }
    for k := 0 to run.count
      invariant Toggled(before, screen[..], Top(run), rows[..4 * k])
    {
      var w := RawWord(lut, cw, lane, run.first, run.count, k);
      RawRows(lut, cw, run, lane, k, 0);
      RawRows(lut, cw, run, lane, k, 1);
      RawRows(lut, cw, run, lane, k, 2);
      RawRows(lut, cw, run, lane, k, 3);
      ghost var mid := screen[..];
      XorWord(screen, Top(run) + 3 * LINE + 4 * LINE * k, w);
      StripStep(before, mid, screen[..], Top(run), rows, k, w);
    }
    assert rows[..4 * run.count] == rows;
  }

  lemma LaneSmall(run: Run, lane: nat)
    requires LaneRun(run, lane)
    ensures lane < 4
  {}

  // directStripe386: any other run, row pair by row pair in placement order.
  method RunKernel(cw: Bytes, run: Run, screen: array<Byte>)
    requires |cw| == CODEWORDS && screen.Length == RASTER && run.first + run.count <= CODEWORDS && run.count > 0
    requires (run.shape.direction == 1 || run.shape.direction == -1) && OnRaster(Top(run), 4 * run.count)
    modifies screen
    ensures forall d :: 0 <= d < RASTER ==> screen[d] == Add(old(screen[d]), RunAt(run, cw, run.count, d))
  {
    hide Add, PairMask, Pair, RunAt;
    ghost var before := screen[..];
    AddZero();
    for c := 0 to run.count
      invariant forall d :: 0 <= d < RASTER ==> screen[d] == Add(before[d], RowsAt(run, cw, 4 * c, d))
    {
      for pair := 0 to 4
        invariant forall d :: 0 <= d < RASTER ==> screen[d] == Add(before[d], RowsAt(run, cw, 4 * c + pair, d))
      {
        var j := 4 * c + pair;
        var at := RowOffset(run, j);
        RowInside(run, j);
        RowSplit(c, pair);
        screen[at] := Add(screen[at], PairMask(run.shape.right, run.shape.left, Pair(cw[run.first + c], pair)));
        NextRow(run, cw, j, at);
      }
    }
    forall d | 0 <= d < RASTER ensures RowsAt(run, cw, 4 * run.count, d) == RunAt(run, cw, run.count, d) {
      AllRows(run, cw, d);
    }
  }

  // The toggles of the first n rows of a run at d.
  function RowsAt(run: Run, cw: Bytes, n: nat, d: nat): Byte
    requires |cw| == CODEWORDS && n <= 4 * run.count && run.first + run.count <= CODEWORDS
  {
    var j := RowNo(run.shape, d);
    if 0 <= j < n then PairMask(run.shape.right, run.shape.left, Pair(cw[run.first + j / 4], j % 4)) else 0
  }

  lemma AllRows(run: Run, cw: Bytes, d: nat)
    requires |cw| == CODEWORDS && run.first + run.count <= CODEWORDS
    ensures RowsAt(run, cw, 4 * run.count, d) == RunAt(run, cw, run.count, d)
  {}

  lemma RowInside(run: Run, j: nat)
    requires (run.shape.direction == 1 || run.shape.direction == -1) && OnRaster(Top(run), 4 * run.count) && j < 4 * run.count
    ensures 0 <= RowOffset(run, j) < RASTER
  {}

  lemma NextRow(run: Run, cw: Bytes, j: nat, at: nat)
    requires |cw| == CODEWORDS && j < 4 * run.count && run.first + run.count <= CODEWORDS
    requires (run.shape.direction == 1 || run.shape.direction == -1) && at == RowOffset(run, j)
    ensures forall d: nat :: d != at ==> RowsAt(run, cw, j + 1, d) == RowsAt(run, cw, j, d)
    ensures RowsAt(run, cw, j, at) == 0
    ensures RowsAt(run, cw, j + 1, at) == PairMask(run.shape.right, run.shape.left, Pair(cw[run.first + j / 4], j % 4))
    ensures forall b: Byte :: Add(b, 0) == b
  {
    hide Add, PairMask, Pair, RowNo;
    AddZero();
    RowNoIs(run.shape, j, at);
    forall d: nat | d != at ensures RowsAt(run, cw, j + 1, d) == RowsAt(run, cw, j, d) {
      RowNoIs(run.shape, j, d);
    }
  }
}
