// vga.c: grouping runs.  Four lanes of one framebuffer byte column with the same
// rows form an exact group; lanes displaced by two rows form a phase group with
// edge recipes for the rows outside the common interval; three lanes without
// the first form a triple.

module StripePlan {
  import opened Gf2
  import opened StripeRuns
  import opened StripeTables

  const MAX_GROUPS: nat := 8
  const MAX_PHASES: nat := 8
  const MAX_EDGES: nat := 64
  const MAX_TRIPLES: nat := 4
  const PHASE_COUNT: nat := 41

  // Which kernel draws a run.
  datatype Kind = Plain | InExact | InPhase | InTriple

  datatype Exact = Exact(first: seq<nat>, count: nat, dest: int)
  datatype Phased = Phased(first: seq<nat>, count: nat, dest: int, phase: nat)
  datatype Triple = Triple(first: seq<nat>, count: nat, dest: int)
  // shift is 6 - 2 * pair.
  datatype Edge = Edge(codeword: nat, dest: int, pair: nat, right: Byte, left: Byte)

  // stripe_run_top and stripe_run_bottom.
  function Top(run: Run): int {
    if run.shape.direction > 0 then run.shape.dest else run.shape.dest - (run.count * 4 - 1) * LINE
  }

  function Bottom(run: Run): int {
    Top(run) + (run.count * 4 - 1) * LINE
  }

  function Slot(run: Run): int {
    SlotOf(Both(run.shape.right, run.shape.left))
  }

  predicate Upward(lane: nat) { lane % 2 == 0 }

  // A run that can serve as a lane: right masks, right direction.
  predicate IsLane(run: Run, lane: nat) {
    Slot(run) == lane && run.shape.direction == if Upward(lane) then -1 else 1
  }

  predicate Distinct(s: seq<nat>) {
    forall i, j :: 0 <= i < j < |s| ==> s[i] != s[j]
  }

  predicate Indices(s: seq<nat>, n: nat) {
    forall i :: 0 <= i < |s| ==> s[i] < n
  }

  // Exactly the listed runs carry the kind, and the others are as before.
  predicate Marked(before: seq<Kind>, after: seq<Kind>, owners: seq<nat>, kind: Kind) {
    && |before| == |after| && Distinct(owners) && Indices(owners, |before|)
    && (forall i :: 0 <= i < |owners| ==> before[owners[i]] == Plain)
    && forall i :: 0 <= i < |before| ==> after[i] == if i in owners then kind else before[i]
  }

  function Mark(flags: seq<Kind>, list: seq<nat>, kind: Kind): (r: seq<Kind>)
    requires Indices(list, |flags|)
    ensures |r| == |flags| && forall i :: 0 <= i < |r| ==> r[i] == if i in list then kind else flags[i]
  {
    seq(|flags|, i requires 0 <= i < |flags| => if i in list then kind else flags[i])
  }

  lemma MarkMore(before: seq<Kind>, flags: seq<Kind>, owners: seq<nat>, kind: Kind, list: seq<nat>)
    requires Marked(before, flags, owners, kind) && kind != Plain
    requires Distinct(list) && Indices(list, |flags|) && forall i :: 0 <= i < |list| ==> flags[list[i]] == Plain
    ensures Marked(before, Mark(flags, list, kind), owners + list, kind)
  {
    var all := owners + list;
    forall i | 0 <= i < |list| ensures before[list[i]] == Plain {
      assert flags[list[i]] == Plain;
    }
    forall i, j | 0 <= i < j < |all| ensures all[i] != all[j] {
      if i < |owners| <= j {
        assert owners[i] in owners && flags[owners[i]] == kind;
      }
    }
  }

  // ----- exact groups

  predicate ExactLane(runs: seq<Run>, g: Exact, lane: nat, k: nat) {
    && k < |runs| && lane < 4 == |g.first| && IsLane(runs[k], lane)
    && runs[k].first == g.first[lane] && runs[k].count == g.count && Top(runs[k]) == g.dest
  }

  predicate ExactOk(runs: seq<Run>, groups: seq<Exact>, owners: seq<nat>) {
    && |owners| == 4 * |groups|
    && forall n :: 0 <= n < |owners| ==> ExactLane(runs, groups[n / 4], n % 4, owners[n])
  }

  predicate Candidate(runs: seq<Run>, flags: seq<Kind>, k: nat, lane: nat, count: nat, top: int)
    requires |flags| == |runs|
  {
    k < |runs| && flags[k] == Plain && Slot(runs[k]) == lane && runs[k].count == count && Top(runs[k]) == top
  }

  // The first unclaimed run of each slot with the same rows, from run i on.
  method FindLanes(runs: seq<Run>, flags: seq<Kind>, i: nat) returns (found: seq<int>)
    requires |flags| == |runs| && i < |runs|
    ensures |found| == 4
    ensures forall s :: 0 <= s < 4 && found[s] >= 0 ==> Candidate(runs, flags, found[s], s, runs[i].count, Top(runs[i]))
  {
    found := [-1, -1, -1, -1];
    for j := i to |runs|
      invariant |found| == 4
      invariant forall s :: 0 <= s < 4 && found[s] >= 0 ==> Candidate(runs, flags, found[s], s, runs[i].count, Top(runs[i]))
    {
      if flags[j] == Plain && runs[j].count == runs[i].count && Top(runs[j]) == Top(runs[i]) {
        var slot := Slot(runs[j]);
        if slot >= 0 && found[slot] < 0 {
          found := found[slot := j];
        }
      }
    }
  }

  // One candidate of prepare_stripe_groups: the exact group found from run i.
  method FindExact(runs: seq<Run>, flags: seq<Kind>, i: nat) returns (ok: bool, group: Exact, list: seq<nat>)
    requires |flags| == |runs| && i < |runs|
    ensures ok ==> |list| == 4 && Distinct(list) && Indices(list, |runs|)
    ensures ok ==> forall lane :: 0 <= lane < 4 ==> flags[list[lane]] == Plain && ExactLane(runs, group, lane, list[lane])
  {
    hide Top, Slot;
    ok, group, list := false, Exact([], 0, 0), [];
    if flags[i] != Plain || Slot(runs[i]) != 0 { return; }
    var found := FindLanes(runs, flags, i);
    if found[0] < 0 || found[1] < 0 || found[2] < 0 || found[3] < 0 ||
       runs[found[0]].shape.direction != -1 || runs[found[1]].shape.direction != 1 ||
       runs[found[2]].shape.direction != -1 || runs[found[3]].shape.direction != 1 { return; }
    list := [found[0], found[1], found[2], found[3]];
    group := Exact([runs[found[0]].first, runs[found[1]].first, runs[found[2]].first, runs[found[3]].first],
                   runs[i].count, Top(runs[i]));
    ok := true;
  }

  // prepare_stripe_groups.
  method PrepareGroups(runs: seq<Run>) returns (groups: seq<Exact>, flags: seq<Kind>, ghost owners: seq<nat>)
    ensures ExactOk(runs, groups, owners) && |groups| <= MAX_GROUPS
    ensures Marked(seq(|runs|, _ => Plain), flags, owners, InExact)
  {
    hide ExactLane;
    ghost var blank := seq(|runs|, _ => Plain);
    groups, flags, owners := [], seq(|runs|, _ => Plain), [];
    for i := 0 to |runs|
      invariant ExactOk(runs, groups, owners) && |groups| <= MAX_GROUPS
      invariant Marked(blank, flags, owners, InExact)
    {
      var ok, group, list := FindExact(runs, flags, i);
      if ok {
        if |groups| >= MAX_GROUPS { break; }
        MarkMore(blank, flags, owners, InExact, list);
        AddExact(runs, groups, owners, group, list);
        groups, flags, owners := groups + [group], Mark(flags, list, InExact), owners + list;
      }
    }
  }

  lemma AddExact(runs: seq<Run>, groups: seq<Exact>, owners: seq<nat>, group: Exact, list: seq<nat>)
    requires ExactOk(runs, groups, owners) && |list| == 4
    requires forall lane :: 0 <= lane < 4 ==> ExactLane(runs, group, lane, list[lane])
    ensures ExactOk(runs, groups + [group], owners + list)
  {
    hide ExactLane;
    var all, more := owners + list, groups + [group];
    forall n | 0 <= n < |all| ensures ExactLane(runs, more[n / 4], n % 4, all[n]) {
      if n < |owners| {
        assert ExactLane(runs, groups[n / 4], n % 4, owners[n]);
      }
    }
  }

  // ----- phase groups

  // The rows by which lane `lane` starts above the common interval.
  function Lead(phase: nat, lane: nat): nat {
    if (phase == 1) == Upward(lane) then 2 else 0
  }

  predicate PhaseLane(runs: seq<Run>, g: Phased, lane: nat, k: nat) {
    && k < |runs| && lane < 4 == |g.first| && IsLane(runs[k], lane) && runs[k].first == g.first[lane]
    && g.count == PHASE_COUNT && (g.phase == 1 || g.phase == 2)
    && Top(runs[k]) == g.dest - Lead(g.phase, lane) * LINE
    && runs[k].count == PHASE_COUNT + Lead(g.phase, lane) / 2
  }

  predicate PhasesOk(runs: seq<Run>, groups: seq<Phased>, owners: seq<nat>) {
    && |owners| == 4 * |groups|
    && forall n :: 0 <= n < |owners| ==> PhaseLane(runs, groups[n / 4], n % 4, owners[n])
  }

  function RowOffset(run: Run, j: nat): int {
    run.shape.dest + run.shape.direction * j * LINE
  }

  predicate Within(top: int, d: int) {
    top <= d <= top + (4 * PHASE_COUNT - 1) * LINE
  }

  // Recipes for the first n rows of a run that lie outside the interval.
  function EdgesOf(run: Run, top: int, n: nat): (r: seq<Edge>)
  {
    if n == 0 then []
    else if Within(top, RowOffset(run, n - 1)) then EdgesOf(run, top, n - 1)
    else EdgesOf(run, top, n - 1) +
         [Edge(run.first + (n - 1) / 4, RowOffset(run, n - 1), (n - 1) % 4, run.shape.right, run.shape.left)]
  }

  // All recipes of the first n lanes of all groups.
  function AllEdges(runs: seq<Run>, groups: seq<Phased>, owners: seq<nat>, n: nat): seq<Edge>
    requires PhasesOk(runs, groups, owners) && n <= |owners|
  {
    if n == 0 then []
    else
      assert PhaseLane(runs, groups[(n - 1) / 4], (n - 1) % 4, owners[n - 1]);
      var run := runs[owners[n - 1]];
      AllEdges(runs, groups, owners, n - 1) + EdgesOf(run, groups[(n - 1) / 4].dest, 4 * run.count)
  }

  method FindMate(runs: seq<Run>, flags: seq<Kind>, lane: nat, count: nat, top: int) returns (k: int)
    requires |flags| == |runs| && lane < 4
    ensures k >= 0 ==> Candidate(runs, flags, k, lane, count, top) && IsLane(runs[k], lane)
    ensures k == -1 || k >= 0
  {
    for j := 0 to |runs| {
      if flags[j] == Plain && IsLane(runs[j], lane) && runs[j].count == count && Top(runs[j]) == top {
        return j;
      }
    }
    k := -1;
  }

  // The displaced forward pair for a reverse pair with the given rows.
  method FindForward(runs: seq<Run>, flags: seq<Kind>, top0: int, bottom0: int) returns (a: int, b: int)
    requires |flags| == |runs|
    ensures (a >= 0 && b >= 0) || a == b == -1
    ensures a >= 0 ==> Displaced(runs, flags, top0, bottom0, a, b)
  {
    for j := 0 to |runs| {
      if flags[j] == Plain && IsLane(runs[j], 1) {
        var top1, bottom1 := Top(runs[j]), Bottom(runs[j]);
        if (top0 + 2 * LINE == top1 && bottom0 == bottom1 + 2 * LINE) || (top1 + 2 * LINE == top0 && bottom1 == bottom0 + 2 * LINE) {
          var k := FindMate(runs, flags, 3, runs[j].count, top1);
          if k >= 0 { return j, k; }
        }
      }
    }
    a, b := -1, -1;
  }

  predicate Displaced(runs: seq<Run>, flags: seq<Kind>, top0: int, bottom0: int, a: nat, b: nat)
    requires |flags| == |runs|
  {
    && a < |runs| && b < |runs| && flags[a] == Plain && flags[b] == Plain && IsLane(runs[a], 1) && IsLane(runs[b], 3)
    && runs[b].count == runs[a].count && Top(runs[b]) == Top(runs[a])
    && var top1, bottom1 := Top(runs[a]), Bottom(runs[a]);
       (top0 + 2 * LINE == top1 && bottom0 == bottom1 + 2 * LINE) || (top1 + 2 * LINE == top0 && bottom1 == bottom0 + 2 * LINE)
  }

  // Append the recipes of one lane; false when the table is full.
  method AddEdges(run: Run, top: int, edges: seq<Edge>) returns (ok: bool, more: seq<Edge>)
    requires |edges| <= MAX_EDGES
    ensures |more| <= MAX_EDGES
    ensures ok ==> more == edges + EdgesOf(run, top, 4 * run.count)
  {
    hide EdgesOf, RowOffset, Within;
    more := edges;
    EdgesNone(run, top);
    for codeword := 0 to run.count
      invariant |more| <= MAX_EDGES && more == edges + EdgesOf(run, top, 4 * codeword)
    {
      for pair := 0 to 4
        invariant |more| <= MAX_EDGES && more == edges + EdgesOf(run, top, 4 * codeword + pair)
      {
        var dest := RowOffset(run, codeword * 4 + pair);
        EdgesNext(run, top, codeword, pair);
        if !Within(top, dest) {
          if |more| >= MAX_EDGES { return false, more; }
          more := more + [Edge(run.first + codeword, dest, pair, run.shape.right, run.shape.left)];
        }
      }
    }
    ok := true;
  }

  lemma EdgesNone(run: Run, top: int)
    ensures EdgesOf(run, top, 0) == []
  {}

  lemma EdgesNext(run: Run, top: int, codeword: nat, pair: nat)
    requires pair < 4
    ensures var n := 4 * codeword + pair;
            EdgesOf(run, top, n + 1) ==
            if Within(top, RowOffset(run, n)) then EdgesOf(run, top, n)
            else EdgesOf(run, top, n) + [Edge(run.first + codeword, RowOffset(run, n), pair, run.shape.right, run.shape.left)]
  {}

  lemma AddPhase(runs: seq<Run>, groups: seq<Phased>, owners: seq<nat>, group: Phased, list: seq<nat>)
    requires PhasesOk(runs, groups, owners) && |list| == 4
    requires forall lane :: 0 <= lane < 4 ==> PhaseLane(runs, group, lane, list[lane])
    ensures PhasesOk(runs, groups + [group], owners + list)
  {
    hide PhaseLane;
    var all, more := owners + list, groups + [group];
    forall n | 0 <= n < |all| ensures PhaseLane(runs, more[n / 4], n % 4, all[n]) {
      if n < |owners| {
        assert PhaseLane(runs, groups[n / 4], n % 4, owners[n]);
      }
    }
  }

  // Recipes already made do not change when a group is added.
  lemma {:induction false} EdgesKept(runs: seq<Run>, groups: seq<Phased>, owners: seq<nat>, group: Phased, list: seq<nat>, n: nat)
    requires PhasesOk(runs, groups, owners) && PhasesOk(runs, groups + [group], owners + list) && n <= |owners|
    ensures AllEdges(runs, groups + [group], owners + list, n) == AllEdges(runs, groups, owners, n)
    decreases n
  {
    hide PhaseLane, EdgesOf;
    if n > 0 {
      EdgesKept(runs, groups, owners, group, list, n - 1);
    }
  }

  // The four lanes and their displacement make a phase group.
  lemma PhaseFound(runs: seq<Run>, flags: seq<Kind>, i: nat, r1: nat, a: nat, b: nat) returns (group: Phased)
    requires |flags| == |runs| && i < |runs| && r1 < |runs| && IsLane(runs[i], 0) && IsLane(runs[r1], 2)
    requires runs[r1].count == runs[i].count && Top(runs[r1]) == Top(runs[i])
    requires Displaced(runs, flags, Top(runs[i]), Bottom(runs[i]), a, b)
    requires var top := if Top(runs[i]) > Top(runs[a]) then Top(runs[i]) else Top(runs[a]);
             var bottom := if Bottom(runs[i]) < Bottom(runs[a]) then Bottom(runs[i]) else Bottom(runs[a]);
             top <= bottom && (bottom - top) / LINE + 1 == 4 * PHASE_COUNT
    ensures group == Phased([runs[i].first, runs[a].first, runs[r1].first, runs[b].first], PHASE_COUNT,
                            if Top(runs[i]) > Top(runs[a]) then Top(runs[i]) else Top(runs[a]),
                            if Top(runs[i]) < Top(runs[a]) then 1 else 2)
    ensures PhaseLane(runs, group, 0, i) && PhaseLane(runs, group, 1, a) && PhaseLane(runs, group, 2, r1) && PhaseLane(runs, group, 3, b)
  {
    hide Slot;
    group := Phased([runs[i].first, runs[a].first, runs[r1].first, runs[b].first], PHASE_COUNT,
                    if Top(runs[i]) > Top(runs[a]) then Top(runs[i]) else Top(runs[a]),
                    if Top(runs[i]) < Top(runs[a]) then 1 else 2);
  }

  // One candidate of prepare_stripe_phase_groups: the phase group that starts
  // with reverse run i, if there is one.
  method FindPhase(runs: seq<Run>, flags: seq<Kind>, i: nat) returns (ok: bool, group: Phased, list: seq<nat>)
    requires |flags| == |runs| && i < |runs|
    ensures ok ==> |list| == 4 && Distinct(list) && Indices(list, |runs|)
    ensures ok ==> forall lane :: 0 <= lane < 4 ==> flags[list[lane]] == Plain && PhaseLane(runs, group, lane, list[lane])
  {
    ok, group, list := false, Phased([], 0, 0, 0), [];
    if flags[i] != Plain || !IsLane(runs[i], 0) { return; }
    var r1 := FindMate(runs, flags, 2, runs[i].count, Top(runs[i]));
    if r1 < 0 { return; }
    var a, b := FindForward(runs, flags, Top(runs[i]), Bottom(runs[i]));
    if a < 0 { return; }
    var top := if Top(runs[i]) > Top(runs[a]) then Top(runs[i]) else Top(runs[a]);
    var bottom := if Bottom(runs[i]) < Bottom(runs[a]) then Bottom(runs[i]) else Bottom(runs[a]);
    if bottom < top || (bottom - top) / LINE + 1 != 4 * PHASE_COUNT { return; }
    ghost var g := PhaseFound(runs, flags, i, r1, a, b);
    hide Top, Bottom, Slot;
    group := Phased([runs[i].first, runs[a].first, runs[r1].first, runs[b].first], PHASE_COUNT, top,
                    if Top(runs[i]) < Top(runs[a]) then 1 else 2);
    list := [i, a, r1, b];
    ok := true;
  }

  // prepare_stripe_phase_groups.  A full recipe table gives up all of them.
  method PreparePhases(runs: seq<Run>, flags: seq<Kind>)
    returns (groups: seq<Phased>, edges: seq<Edge>, after: seq<Kind>, ghost owners: seq<nat>)
    requires |flags| == |runs|
    ensures PhasesOk(runs, groups, owners) && |groups| <= MAX_PHASES && |edges| <= MAX_EDGES
    ensures Marked(flags, after, owners, InPhase)
    ensures edges == AllEdges(runs, groups, owners, |owners|)
  {
    hide Top, Slot, PhaseLane, EdgesOf;
    groups, edges, after, owners := [], [], flags, [];
    for i := 0 to |runs|
      invariant PhasesOk(runs, groups, owners) && |groups| <= MAX_PHASES && |edges| <= MAX_EDGES
      invariant Marked(flags, after, owners, InPhase)
      invariant edges == AllEdges(runs, groups, owners, |owners|)
    {
      var ok, group, list := FindPhase(runs, after, i);
      if ok {
        if |groups| >= MAX_PHASES { break; }
        MarkMore(flags, after, owners, InPhase, list);
        AddPhase(runs, groups, owners, group, list);
        EdgesKept(runs, groups, owners, group, list, |owners|);
        ghost var before := owners;
        groups, after, owners := groups + [group], Mark(after, list, InPhase), owners + list;
        var full, more := AddGroupEdges(runs, groups, before, edges, list, group.dest);
        if !full { return [], [], flags, []; }
        edges := more;
      }
    }
  }

  // The recipes of the four lanes of the group added last.
  method AddGroupEdges(runs: seq<Run>, ghost groups: seq<Phased>, ghost before: seq<nat>, edges: seq<Edge>, list: seq<nat>, top: int)
    returns (ok: bool, more: seq<Edge>)
    requires PhasesOk(runs, groups, before + list) && |list| == 4 && Indices(list, |runs|)
    requires |edges| <= MAX_EDGES && edges == AllEdges(runs, groups, before + list, |before|)
    requires |groups| > 0 && groups[|groups| - 1].dest == top
    ensures |more| <= MAX_EDGES && (ok ==> more == AllEdges(runs, groups, before + list, |before + list|))
  {
    hide PhasesOk, AllEdges, EdgesOf;
    more := edges;
    for lane := 0 to 4
      invariant |more| <= MAX_EDGES && more == AllEdges(runs, groups, before + list, |before| + lane)
    {
      NextEdges(runs, groups, before, list, lane);
      ok, more := AddEdges(runs[list[lane]], top, more);
      if !ok { return; }
    }
    ok := true;
  }

  lemma NextEdges(runs: seq<Run>, groups: seq<Phased>, before: seq<nat>, list: seq<nat>, lane: nat)
    requires PhasesOk(runs, groups, before + list) && |list| == 4 && lane < 4
    ensures |groups| > 0 && list[lane] < |runs|
    ensures AllEdges(runs, groups, before + list, |before| + lane + 1) ==
            AllEdges(runs, groups, before + list, |before| + lane) +
            EdgesOf(runs[list[lane]], groups[|groups| - 1].dest, 4 * runs[list[lane]].count)
  {
    hide EdgesOf, AllEdges, PhaseLane, PhasesOk;
    PhasesSize(runs, groups, before + list);
    LaneListed(|groups| - 1, lane);
    OneMoreLane(runs, groups, before + list, |before| + lane);
  }

  lemma PhasesSize(runs: seq<Run>, groups: seq<Phased>, owners: seq<nat>)
    requires PhasesOk(runs, groups, owners)
    ensures |owners| == 4 * |groups|
  {}

  lemma OneMoreLane(runs: seq<Run>, groups: seq<Phased>, owners: seq<nat>, n: nat)
    requires PhasesOk(runs, groups, owners) && n < |owners|
    ensures n / 4 < |groups| && owners[n] < |runs| && PhaseLane(runs, groups[n / 4], n % 4, owners[n])
    ensures AllEdges(runs, groups, owners, n + 1) ==
            AllEdges(runs, groups, owners, n) + EdgesOf(runs[owners[n]], groups[n / 4].dest, 4 * runs[owners[n]].count)
  {
    hide EdgesOf;
  }

  lemma LaneListed(g: nat, lane: nat)
    requires lane < 4
    ensures (4 * g + lane) / 4 == g && (4 * g + lane) % 4 == lane
  {}

  // ----- triples

  predicate TripleLane(runs: seq<Run>, g: Triple, lane: nat, k: nat) {
    && 1 <= lane <= 3 && |g.first| == 3 && k < |runs| && IsLane(runs[k], lane)
    && runs[k].first == g.first[lane - 1] && runs[k].count == g.count && Top(runs[k]) == g.dest
  }

  predicate TriplesOk(runs: seq<Run>, groups: seq<Triple>, owners: seq<nat>) {
    && |owners| == 3 * |groups|
    && forall n :: 0 <= n < |owners| ==> TripleLane(runs, groups[n / 3], n % 3 + 1, owners[n])
  }

  // The last runs that complete lanes 2 and 3 next to run i.
  method FindTriple(runs: seq<Run>, flags: seq<Kind>, i: nat) returns (a: int, b: int)
    requires |flags| == |runs| && i < |runs|
    ensures a >= 0 ==> Candidate(runs, flags, a, 2, runs[i].count, Top(runs[i])) && IsLane(runs[a], 2)
    ensures b >= 0 ==> Candidate(runs, flags, b, 3, runs[i].count, Top(runs[i])) && IsLane(runs[b], 3)
  {
    a, b := -1, -1;
    for j := 0 to |runs|
      invariant a >= 0 ==> Candidate(runs, flags, a, 2, runs[i].count, Top(runs[i])) && IsLane(runs[a], 2)
      invariant b >= 0 ==> Candidate(runs, flags, b, 3, runs[i].count, Top(runs[i])) && IsLane(runs[b], 3)
    {
      if flags[j] == Plain && runs[j].count == runs[i].count && Top(runs[j]) == Top(runs[i]) {
        if IsLane(runs[j], 2) { a := j; }
        if IsLane(runs[j], 3) { b := j; }
      }
    }
  }

  lemma AddTriple(runs: seq<Run>, groups: seq<Triple>, owners: seq<nat>, group: Triple, list: seq<nat>)
    requires TriplesOk(runs, groups, owners) && |list| == 3
    requires forall lane :: 0 <= lane < 3 ==> TripleLane(runs, group, lane + 1, list[lane])
    ensures TriplesOk(runs, groups + [group], owners + list)
  {
    hide TripleLane;
    var all, more := owners + list, groups + [group];
    forall n | 0 <= n < |all| ensures TripleLane(runs, more[n / 3], n % 3 + 1, all[n]) {
      if n < |owners| {
        assert TripleLane(runs, groups[n / 3], n % 3 + 1, owners[n]);
      }
    }
  }

  // prepare_stripe_triples.
  method PrepareTriples(runs: seq<Run>, flags: seq<Kind>) returns (groups: seq<Triple>, after: seq<Kind>, ghost owners: seq<nat>)
    requires |flags| == |runs|
    ensures TriplesOk(runs, groups, owners) && |groups| <= MAX_TRIPLES
    ensures Marked(flags, after, owners, InTriple)
  {
    hide Top, Slot;
    groups, after, owners := [], flags, [];
    for i := 0 to |runs|
      invariant TriplesOk(runs, groups, owners) && |groups| <= MAX_TRIPLES
      invariant Marked(flags, after, owners, InTriple)
    {
      if after[i] == Plain && IsLane(runs[i], 1) {
        var a, b := FindTriple(runs, after, i);
        if a >= 0 && b >= 0 {
          if |groups| >= MAX_TRIPLES { break; }
          var list: seq<nat> := [i, a, b];
          var group := Triple([runs[i].first, runs[a].first, runs[b].first], runs[i].count, Top(runs[i]));
          MarkMore(flags, after, owners, InTriple, list);
          AddTriple(runs, groups, owners, group, list);
          groups, after, owners := groups + [group], Mark(after, list, InTriple), owners + list;
        }
      }
    }
  }
}
