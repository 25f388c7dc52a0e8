// sender.c: which frames a window shows and why that is enough.  With C2 every
// pair of neighbours has a chain frame, with wider chains every two neighbouring
// halves a parity frame, with groups every group; the stride groups of RGB3 are
// those of module RgbSchedule.

module WindowRepair {
  import opened Protocol
  import opened Repair
  import opened SessionStore
  import opened RgbSchedule

  // ----- the schedule of transmit

  // The switches of a transmission: overlapping chains of an even width, or
  // plain groups; in chain mode every anchor-th frame is shown once more.
  datatype Setup = Setup(width: nat, group: nat, anchor: nat, repetitions: nat)

  predicate GoodSetup(s: Setup) {
    s.width % 2 == 0 && (s.width > 0 ==> s.group == 0)
  }

  // A DATA frame, in the first round or again; the chain of two neighbours; the
  // parity of `count` neighbours.
  datatype Shown = Single(i: nat, again: bool) | Chain(first: nat) | Joint(first: nat, count: nat)

  function Least(a: nat, b: nat): nat {
    if a < b then a else b
  }

  // After frame i: the parity of `width` records that start every half width,
  // while a second half is left.
  function ChainAfter(s: Setup, n: nat, i: nat): seq<Shown>
    requires i < n
  {
    var half := s.width / 2;
    if half == 0 || (i + 1) % half != 0 || i + 1 >= n then []
    else
      (if s.width == 2 then [Chain(i)] else [Joint(i + 1 - half, Least(s.width, n - (i + 1 - half)))]) +
      (if s.anchor > 0 && (i + 1) % s.anchor == 0 then [Single(i, false)] else [])
  }

  // And the parity of the group that frame i completes.
  function GroupAfter(s: Setup, n: nat, i: nat): seq<Shown>
    requires i < n
  {
    if s.group == 0 || ((i + 1) % s.group != 0 && i + 1 != n) then [] else [Joint(i - i % s.group, i % s.group + 1)]
  }

  // Round r at frame i; a selection shows the selected frames only.
  function ShownAt(s: Setup, n: nat, chosen: Option<seq<bool>>, r: nat, i: nat): seq<Shown>
    requires i < n && (chosen.Some? ==> |chosen.value| == n)
  {
    if chosen.Some? then (if chosen.value[i] then [Single(i, r > 0)] else [])
    else [Single(i, r > 0)] + ChainAfter(s, n, i) + GroupAfter(s, n, i)
  }

  function Round(s: Setup, n: nat, chosen: Option<seq<bool>>, r: nat, i: nat): seq<Shown>
    requires i <= n && (chosen.Some? ==> |chosen.value| == n)
    decreases i
  {
    if i == 0 then [] else Round(s, n, chosen, r, i - 1) + ShownAt(s, n, chosen, r, i - 1)
  }

  function Rounds(s: Setup, n: nat, chosen: Option<seq<bool>>, r: nat): seq<Shown>
    requires chosen.Some? ==> |chosen.value| == n
  {
    if r == 0 then [] else Rounds(s, n, chosen, r - 1) + Round(s, n, chosen, r - 1, n)
  }

  lemma ModNext(i: nat, g: nat)
    requires g > 0
    ensures (i + 1) % g == if i % g + 1 == g then 0 else i % g + 1
  {
    var q := i / g;
    assert i == g * q + i % g;
    if i % g + 1 == g {
      assert i + 1 == g * (q + 1);
      Multiple(g, q + 1, 0);
    } else {
      Multiple(g, q, i % g + 1);
    }
  }

  lemma Multiple(g: nat, q: nat, d: nat)
    requires d < g
    ensures (g * q + d) % g == d
  {
    var x := g * q + d;
    var k := q - x / g;
    assert g * k == g * q - g * (x / g);
    assert k > 0 ==> g * k >= g;
    assert k < 0 ==> g * k <= 0 - g;
  }

  // The two parities that can follow a frame.
  method ShowChain(s: Setup, n: nat, i: nat) returns (shown: seq<Shown>)
    requires GoodSetup(s) && i < n
    ensures shown == ChainAfter(s, n, i)
  {
    var half := s.width / 2;
    shown := [];
    if half > 0 && (i + 1) % half == 0 {
      ModSmall(i, half);
      var first := i + 1 - half;
      if first + half < n {
        var count := n - first;
        if count > s.width { count := s.width; }
        if s.width == 2 { shown := [Chain(first)]; } else { shown := [Joint(first, count)]; }
        if s.anchor > 0 && (i + 1) % s.anchor == 0 { shown := shown + [Single(i, false)]; }
      }
    }
  }

  lemma ModSmall(i: nat, half: nat)
    requires half > 0 && (i + 1) % half == 0
    ensures i + 1 >= half
  {}

  method ShowGroup(s: Setup, n: nat, i: nat, first: nat, count: nat) returns (shown: seq<Shown>, first': nat, count': nat)
    requires i < n && s.group > 0 && count == i % s.group && (count > 0 ==> first == i - count)
    ensures shown == GroupAfter(s, n, i) && (i + 1 < n ==> count' == (i + 1) % s.group && (count' > 0 ==> first' == i + 1 - count'))
  {
    ModNext(i, s.group);
    shown, first', count' := [], first, count;
    if count' == 0 { first' := i; }
    count' := count' + 1;
    if count' == s.group || i + 1 == n {
      shown := [Joint(first', count')];
      count' := 0;
    }
  }

  // One frame with what follows it.
  method ShowFrame(s: Setup, n: nat, chosen: Option<seq<bool>>, r: nat, i: nat, first: nat, count: nat)
    returns (shown: seq<Shown>, first': nat, count': nat)
    requires GoodSetup(s) && (chosen.Some? ==> |chosen.value| == n) && Counting(s, n, chosen, i, first, count) && i < n
    ensures shown == ShownAt(s, n, chosen, r, i) && Counting(s, n, chosen, i + 1, first', count')
  {
    hide ChainAfter, GroupAfter;
    shown, first', count' := [], first, count;
    if chosen.Some? {
      if chosen.value[i] { shown := [Single(i, r > 0)]; }
    } else {
      var chain := ShowChain(s, n, i);
      var group := [];
      if s.group > 0 {
        group, first', count' := ShowGroup(s, n, i, first, count);
      }
      NoGroup(s, n, i);
      shown := [Single(i, r > 0)] + chain + group;
    }
  }

  // The frames of the open group, before frame i.
  predicate Counting(s: Setup, n: nat, chosen: Option<seq<bool>>, i: nat, first: nat, count: nat) {
    chosen.None? && s.group > 0 && i < n ==> count == i % s.group && (count > 0 ==> first == i - count)
  }

  method ShowRound(s: Setup, n: nat, chosen: Option<seq<bool>>, r: nat) returns (shown: seq<Shown>)
    requires GoodSetup(s) && (chosen.Some? ==> |chosen.value| == n)
    ensures shown == Round(s, n, chosen, r, n)
  {
    hide ShownAt;
    shown := [];
    var first, count := 0, 0;
    for i := 0 to n
      invariant shown == Round(s, n, chosen, r, i) && Counting(s, n, chosen, i, first, count)
    {
      var here;
      here, first, count := ShowFrame(s, n, chosen, r, i, first, count);
      shown := shown + here;
    }
  }

  // transmit, without the RGB3 branch.
  method Transmit(s: Setup, n: nat, chosen: Option<seq<bool>>) returns (shown: seq<Shown>)
    requires GoodSetup(s) && (chosen.Some? ==> |chosen.value| == n)
    ensures shown == Rounds(s, n, chosen, s.repetitions)
  {
    shown := [];
    for r := 0 to s.repetitions
      invariant shown == Rounds(s, n, chosen, r)
    {
      var round := ShowRound(s, n, chosen, r);
      shown := shown + round;
    }
  }

  lemma NoGroup(s: Setup, n: nat, i: nat)
    requires i < n
    ensures s.group == 0 ==> GroupAfter(s, n, i) == []
  {}

  // Everything shown at one frame is shown in the round.
  lemma {:induction false} InRound(s: Setup, n: nat, chosen: Option<seq<bool>>, r: nat, i: nat, k: nat, x: Shown)
    requires k < i <= n && (chosen.Some? ==> |chosen.value| == n)
    requires x in ShownAt(s, n, chosen, r, k)
    ensures x in Round(s, n, chosen, r, i)
    decreases i
  {
    hide ShownAt;
    if k < i - 1 { InRound(s, n, chosen, r, i - 1, k, x); }
  }

  // A rescue round shows the selected frames and nothing else.
  lemma {:induction false} SelectedShown(s: Setup, n: nat, chosen: seq<bool>, r: nat, i: nat, x: Shown)
    requires i <= n == |chosen|
    ensures x in Round(s, n, Some(chosen), r, i) <==> x.Single? && x.again == (r > 0) && x.i < i && chosen[x.i]
    decreases i
  {
    if i > 0 {
      SelectedShown(s, n, chosen, r, i - 1, x);
      assert ShownAt(s, n, Some(chosen), r, i - 1) == if chosen[i - 1] then [Single(i - 1, r > 0)] else [];
    }
  }

  // With C2 every round shows every frame and the chain of every two neighbours.
  lemma PairsShown(s: Setup, n: nat, r: nat, k: nat)
    requires s.width == 2 && k < n
    ensures Single(k, r > 0) in Round(s, n, None, r, n) && (k + 1 < n ==> Chain(k) in Round(s, n, None, r, n))
  {
    var here := ShownAt(s, n, None, r, k);
    assert here[0] == Single(k, r > 0);
    InRound(s, n, None, r, n, k, here[0]);
    if k + 1 < n {
      assert ChainAfter(s, n, k)[0] == Chain(k) && here[1] == Chain(k);
      InRound(s, n, None, r, n, k, here[1]);
    }
  }

  // ----- chains of any width: one loss in every half

  // Where the h-th span of `half` frames starts.
  function SpanStart(half: nat, h: nat): nat {
    h * half
  }

  lemma SpanNext(half: nat, h: nat)
    ensures SpanStart(half, h + 1) == SpanStart(half, h) + half
  {}

  // With wider chains every round shows the parity of every two neighbouring
  // halves, the last one cut at the end of the window.
  lemma HalvesShown(s: Setup, n: nat, r: nat, h: nat)
    requires GoodSetup(s) && s.width > 2 && SpanStart(s.width / 2, h + 1) < n
    ensures var first := SpanStart(s.width / 2, h); first <= n && Joint(first, Least(s.width, n - first)) in Round(s, n, None, r, n)
  {
    hide SpanStart, GroupAfter;
    var half := s.width / 2;
    SpanNext(half, h);
    var k := SpanStart(half, h + 1) - 1;
    StartMod(half, h + 1);
    var here := ShownAt(s, n, None, r, k);
    var x := Joint(k + 1 - half, Least(s.width, n - (k + 1 - half)));
    assert ChainAfter(s, n, k)[0] == x && here[1] == x;
    InRound(s, n, None, r, n, k, x);
  }

  lemma StartMod(half: nat, h: nat)
    requires half > 0
    ensures SpanStart(half, h) % half == 0
  {
    Multiple(half, h, 0);
  }

  // The parity frame of `count` neighbours from `first` on.
  ghost predicate ParityStored(e: Equations, base: nat, n: nat, first: nat, count: nat) {
    && base + first in e.parities
    && var f := e.parities[base + first];
       && f.kind == BLOCK_XOR && f.flags == FLAG_WHITENED && f.globalIndex == base + first
       && f.windowIndex == first && f.windowCount == n && f.streamId == count && f.streamOffset == 0
  }

  ghost predicate Has(base: nat, i: nat, all: set<nat>) {
    base + i in all
  }

  // All of `count` frames but one.
  ghost predicate RangeKnownBut(base: nat, first: nat, count: nat, lost: nat, all: set<nat>) {
    forall i: nat :: first <= i < first + count && i != lost ==> Has(base, i, all)
  }

  // If of `count` neighbours only one is missing, a closed set has that one too.
  lemma ParityCloses(e: Equations, base: nat, n: nat, first: nat, count: nat, lost: nat, all: set<nat>)
    requires first + count <= n <= MAX_WINDOW && first <= lost < first + count && ParityStored(e, base, n, first, count)
    requires RangeKnownBut(base, first, count, lost, all) && Closed(e, all)
    ensures base + lost in all
  {
    var f := e.parities[base + first];
    PlainBlock();
    assert ValidBlock(f);
    assert BlockWants(f, all).None?;
    var p := BlockAbsent(f, all);
    var m := lost - first;
    forall k | 0 <= k < |p| && k != m ensures !p[k] {
      assert BlockIndex(f, k) == base + (first + k);
      assert Has(base, first + k, all);
    }
    assert BlockIndex(f, m) == base + lost;
    if base + lost !in all {
      assert p[m];
      OnlyUnique(p, m);
    }
  }

  lemma PlainBlock()
    ensures FLAG_WHITENED != FLAG_GROUP_XOR_WHITENED
  {}

  // Frame i lies in span h of a window of n frames.
  predicate InSpan(half: nat, n: nat, h: nat, i: nat) {
    SpanStart(half, h) <= i < SpanStart(half, h) + half && i < n
  }

  ghost predicate SpanKnown(base: nat, half: nat, n: nat, h: nat, all: set<nat>) {
    forall i :: InSpan(half, n, h, i) ==> base + i in all
  }

  // All of span h but one frame.
  ghost predicate SpanKnownBut(base: nat, half: nat, n: nat, h: nat, lost: nat, all: set<nat>) {
    forall i :: InSpan(half, n, h, i) && i != lost ==> base + i in all
  }

  // The parities of all neighbouring halves are stored.
  ghost predicate HalvesStored(e: Equations, base: nat, n: nat, half: nat) {
    forall h: nat :: HalfStored(e, base, n, half, h)
  }

  ghost predicate HalfStored(e: Equations, base: nat, n: nat, half: nat, h: nat) {
    var first := SpanStart(half, h);
    SpanStart(half, h + 1) < n ==> first <= n && ParityStored(e, base, n, first, Least(2 * half, n - first))
  }

  // A half that is known gives the missing frame of the next one, and the other
  // way round.
  lemma HalfSpreads(e: Equations, base: nat, n: nat, half: nat, h: nat, lost: nat, all: set<nat>)
    requires n <= MAX_WINDOW && HalfStored(e, base, n, half, h) && Closed(e, all) && SpanStart(half, h + 1) < n
    requires var (known, short) := if InSpan(half, n, h, lost) then (h + 1, h) else (h, h + 1);
             SpanKnown(base, half, n, known, all) && SpanKnownBut(base, half, n, short, lost, all)
    ensures InSpan(half, n, h, lost) || InSpan(half, n, h + 1, lost) ==> base + lost in all
  {
    hide Closed, ParityStored, SpanStart;
    SpanNext(half, h);
    var first := SpanStart(half, h);
    var count := Least(2 * half, n - first);
    if InSpan(half, n, h, lost) || InSpan(half, n, h + 1, lost) {
      forall i: nat | first <= i < first + count && i != lost ensures Has(base, i, all) {
        assert InSpan(half, n, h, i) || InSpan(half, n, h + 1, i);
      }
      ParityCloses(e, base, n, first, count, lost, all);
    }
  }

  lemma SpanCompleted(base: nat, half: nat, n: nat, h: nat, lost: nat, all: set<nat>)
    requires SpanKnownBut(base, half, n, h, lost, all) && (InSpan(half, n, h, lost) ==> base + lost in all)
    ensures SpanKnown(base, half, n, h, all)
  {
    hide InSpan;
  }

  // One frame lost in every half, but none in half j: everything comes back.
  lemma {:induction false} HalvesClose(e: Equations, base: nat, n: nat, half: nat, j: nat, h: nat, lost: nat -> nat, all: set<nat>)
    requires n <= MAX_WINDOW && half > 0 && HalvesStored(e, base, n, half) && Closed(e, all)
    requires SpanStart(half, j) < n && SpanStart(half, h) < n
    requires SpanKnown(base, half, n, j, all) && forall k: nat :: SpanKnownBut(base, half, n, k, lost(k), all)
    ensures SpanKnown(base, half, n, h, all)
    decreases if h < j then j - h else h - j
  {
    hide Closed, ParityStored, SpanStart, InSpan, SpanKnown, SpanKnownBut, HalfStored;
    if h < j {
      SpanOrder(half, h + 1, j);
      HalvesClose(e, base, n, half, j, h + 1, lost, all);
      assert HalfStored(e, base, n, half, h);
      NextKnown(e, base, n, half, h, h, lost(h), all);
    } else if j < h {
      SpanOrder(half, h - 1, h);
      HalvesClose(e, base, n, half, j, h - 1, lost, all);
      assert HalfStored(e, base, n, half, h - 1);
      NextKnown(e, base, n, half, h - 1, h, lost(h), all);
    }
  }

  lemma SpanOrder(half: nat, h: nat, k: nat)
    requires h <= k
    ensures SpanStart(half, h) <= SpanStart(half, k)
  {
    assert SpanStart(half, k) == SpanStart(half, h) + (k - h) * half;
  }

  // One step of it: of halves h and h + 1, `short` lacks one frame at most.
  lemma NextKnown(e: Equations, base: nat, n: nat, half: nat, h: nat, short: nat, lost: nat, all: set<nat>)
    requires n <= MAX_WINDOW && HalfStored(e, base, n, half, h) && Closed(e, all) && SpanStart(half, h + 1) < n
    requires (short == h && SpanKnown(base, half, n, h + 1, all)) || (short == h + 1 && SpanKnown(base, half, n, h, all))
    requires SpanKnownBut(base, half, n, short, lost, all)
    ensures SpanKnown(base, half, n, short, all)
  {
    hide Closed, HalfStored, SpanKnown, SpanKnownBut;
    HalvesApart(half, n, h, lost);
    if InSpan(half, n, short, lost) { HalfSpreads(e, base, n, half, h, lost, all); }
    SpanCompleted(base, half, n, short, lost, all);
  }

  lemma HalvesApart(half: nat, n: nat, h: nat, i: nat)
    ensures !(InSpan(half, n, h, i) && InSpan(half, n, h + 1, i))
  {
    hide SpanStart;
    SpanNext(half, h);
  }

  // And the store at rest holds the whole window as it was sent.
  lemma HalvesRecovered(t: Truth, d: Dir, base: nat, n: nat, half: nat, j: nat, lost: nat -> nat)
    requires TrueDir(t, d) && Exhausted(d) && n <= MAX_WINDOW && half > 0 && HalvesStored(d.eqs, base, n, half)
    requires SpanStart(half, j) < n && SpanKnown(base, half, n, j, d.data.Keys)
    requires forall k: nat :: SpanKnownBut(base, half, n, k, lost(k), d.data.Keys)
    ensures forall i :: 0 <= i < n ==> Recovered(t, d, base, i)
  {
    hide TrueData, Exhausted, HalvesStored, Closed, TrueDir, SpanKnown, SpanKnownBut;
    ExhaustedIsClosed(t, d);
    forall i | 0 <= i < n ensures Recovered(t, d, base, i) {
      var h := SpanOf(half, n, i);
      HalvesClose(d.eqs, base, n, half, j, h, lost, d.data.Keys);
      SpanHas(base, half, n, h, i, d.data.Keys);
      StoredIsTrue(t, d, base + i);
    }
  }

  function SpanOf(half: nat, n: nat, i: nat): (h: nat)
    requires half > 0 && i < n
    ensures SpanStart(half, h) < n && InSpan(half, n, h, i)
  {
    i / half
  }

  lemma SpanHas(base: nat, half: nat, n: nat, h: nat, i: nat, all: set<nat>)
    requires SpanKnown(base, half, n, h, all) && InSpan(half, n, h, i)
    ensures base + i in all
  {}

  // ----- plain groups: one loss in every group

  // Every round shows the parity of every group; the last one may be short.
  lemma GroupsShown(s: Setup, n: nat, r: nat, g: nat)
    requires s.group > 0 && s.width == 0 && SpanStart(s.group, g) < n
    ensures var first := SpanStart(s.group, g); Joint(first, Least(s.group, n - first)) in Round(s, n, None, r, n)
  {
    hide SpanStart, ChainAfter;
    var first := SpanStart(s.group, g);
    var count := Least(s.group, n - first);
    var k := first + count - 1;
    PlaceInGroup(s.group, g, count - 1);
    ModNext(k, s.group);
    var here := ShownAt(s, n, None, r, k);
    NoChain(s, n, k);
    assert GroupAfter(s, n, k) == [Joint(first, count)];
    assert here == [Single(k, r > 0)] + [] + [Joint(first, count)];
    assert here[1] == Joint(first, count);
    InRound(s, n, None, r, n, k, here[1]);
  }

  lemma PlaceInGroup(group: nat, g: nat, d: nat)
    requires d < group
    ensures (SpanStart(group, g) + d) % group == d
  {
    Multiple(group, g, d);
  }

  lemma NoChain(s: Setup, n: nat, i: nat)
    requires i < n && s.width == 0
    ensures ChainAfter(s, n, i) == []
  {}

  ghost predicate PlainStored(e: Equations, base: nat, n: nat, group: nat, g: nat) {
    var first := SpanStart(group, g);
    first < n ==> ParityStored(e, base, n, first, Least(group, n - first))
  }

  // One frame lost in every group: the store at rest holds the whole window as
  // it was sent.
  lemma GroupsRecovered(t: Truth, d: Dir, base: nat, n: nat, group: nat, lost: nat -> nat)
    requires TrueDir(t, d) && Exhausted(d) && n <= MAX_WINDOW && group > 0
    requires forall g: nat :: PlainStored(d.eqs, base, n, group, g)
    requires forall g: nat :: SpanKnownBut(base, group, n, g, lost(g), d.data.Keys)
    ensures forall i :: 0 <= i < n ==> Recovered(t, d, base, i)
  {
    hide TrueData, Exhausted, Closed, TrueDir, SpanKnownBut, PlainStored;
    ExhaustedIsClosed(t, d);
    forall i | 0 <= i < n ensures Recovered(t, d, base, i) {
      var g := SpanOf(group, n, i);
      assert PlainStored(d.eqs, base, n, group, g);
      assert SpanKnownBut(base, group, n, g, lost(g), d.data.Keys);
      GroupHas(d.eqs, base, n, group, g, lost(g), i, d.data.Keys);
      StoredIsTrue(t, d, base + i);
    }
  }

  lemma GroupHas(e: Equations, base: nat, n: nat, group: nat, g: nat, lost: nat, i: nat, all: set<nat>)
    requires n <= MAX_WINDOW && PlainStored(e, base, n, group, g) && SpanKnownBut(base, group, n, g, lost, all)
    requires Closed(e, all) && InSpan(group, n, g, i)
    ensures base + i in all
  {
    hide Closed, ParityStored, SpanStart;
    if i == lost {
      var first := SpanStart(group, g);
      var count := Least(group, n - first);
      forall k: nat | first <= k < first + count && k != lost ensures Has(base, k, all) {
        assert InSpan(group, n, g, k);
      }
      ParityCloses(e, base, n, first, count, lost, all);
    }
  }

  // ----- the chains of C2

  // All chains of a window with n records from index `base` are stored.
  ghost predicate AllChains(e: Equations, base: nat, n: nat) {
    forall i :: 0 <= i && i + 1 < n ==> ChainAt(e, base, n, i)
  }

  ghost predicate ChainAt(e: Equations, base: nat, n: nat, i: nat) {
    && base + i in e.xors
    && var f := e.xors[base + i];
       f.kind == CHAIN_XOR && f.globalIndex == base + i && f.windowIndex == i && f.windowCount == n
  }

  lemma ChainSpreads(e: Equations, base: nat, n: nat, i: nat, all: set<nat>)
    requires AllChains(e, base, n) && i + 1 < n && Closed(e, all)
    ensures base + i in all <==> base + i + 1 in all
  {
    assert ChainAt(e, base, n, i);
    assert ChainWants(e.xors[base + i], all).None?;
  }

  // One record and all chains close to the whole window.
  lemma {:induction false} ChainsClose(e: Equations, base: nat, n: nat, j: nat, i: nat, all: set<nat>)
    requires AllChains(e, base, n) && Closed(e, all) && j < n && i < n && base + j in all
    ensures base + i in all
    decreases if i < j then j - i else i - j
  {
    if i < j {
      ChainsClose(e, base, n, j, i + 1, all);
      ChainSpreads(e, base, n, i, all);
    } else if j < i {
      ChainsClose(e, base, n, j, i - 1, all);
      ChainSpreads(e, base, n, i - 1, all);
    }
  }

  // Record i of a window is stored as it was sent.
  ghost predicate Recovered(t: Truth, d: Dir, base: nat, i: nat) {
    base + i in d.data && d.data[base + i].payload == t.payload(base + i)
  }

  // A directory in which recovery has come to rest holds the whole window,
  // every record as it was sent.
  lemma ChainWindowRecovered(t: Truth, d: Dir, base: nat, n: nat, j: nat)
    requires TrueDir(t, d) && Exhausted(d) && AllChains(d.eqs, base, n) && j < n && base + j in d.data
    ensures forall i :: 0 <= i < n ==> Recovered(t, d, base, i)
  {
    hide TrueData, Exhausted, AllChains, Closed;
    ExhaustedIsClosed(t, d);
    forall i | 0 <= i < n ensures Recovered(t, d, base, i) {
      ChainsClose(d.eqs, base, n, j, i, d.data.Keys);
      StoredIsTrue(t, d, base + i);
    }
  }

  lemma StoredIsTrue(t: Truth, d: Dir, i: nat)
    requires TrueDir(t, d) && i in d.data
    ensures d.data[i].payload == t.payload(i)
  {
    assert TrueData(t, i, d.data[i]);
  }

  // ----- losing one image

  // The parity frame of a group: three apart, from the group's first frame.
  ghost predicate GroupStored(e: Equations, base: nat, n: nat, g: Group) {
    && base + g.first in e.parities
    && var f := e.parities[base + g.first];
       && f.kind == BLOCK_XOR && f.flags == FLAG_GROUP_XOR_WHITENED && f.globalIndex == base + g.first
       && f.windowIndex == g.first && f.windowCount == n && f.streamId == g.count && f.streamOffset == 3
  }

  // If of a group only one member is missing, a closed set has that one too.
  lemma GroupCloses(e: Equations, base: nat, n: nat, start: nat, c: nat, lost: nat, all: set<nat>)
    requires c < 3 && n <= MAX_WINDOW && lost < GroupAt(n, start, c).count && GroupStored(e, base, n, GroupAt(n, start, c))
    requires forall k :: 0 <= k < GroupAt(n, start, c).count && k != lost ==> base + Member3(GroupAt(n, start, c), k) in all
    requires Closed(e, all)
    ensures base + Member3(GroupAt(n, start, c), lost) in all
  {
    var g := GroupAt(n, start, c);
    var f := e.parities[base + g.first];
    GroupInWindow(n, start, c, g.count - 1);
    assert ValidBlock(f);
    assert BlockWants(f, all).None?;
    var p := BlockAbsent(f, all);
    forall k | 0 <= k < |p| && k != lost ensures !p[k] {
      assert BlockIndex(f, k) == base + Member3(g, k);
    }
    assert BlockIndex(f, lost) == base + Member3(g, lost);
    if base + Member3(g, lost) !in all {
      assert p[lost];
      OnlyUnique(p, lost);
    }
  }

  ghost predicate StoredAt(e: Equations, base: nat, n: nat, first: nat, b: nat, c: nat) {
    var g := GroupAt(n, first + 9 * b, c);
    c < 3 && g.count > 0 ==> GroupStored(e, base, n, g)
  }

  // The block of frame i, and the place of its image in that block.
  function BlockNo(first: nat, i: nat): nat
    requires first <= i
  {
    (i - first) / 9
  }

  function ImageNo(first: nat, i: nat): nat
    requires first <= i
  {
    (i - first) % 9 / 3
  }

  // The parity frames of block b are stored.
  ghost predicate GroupsStored(e: Equations, base: nat, n: nat, first: nat, b: nat) {
    forall c: nat :: StoredAt(e, base, n, first, b, c)
  }

  // Frame i is in `all`, unless its image is the lost one of its block.
  ghost predicate KnownAt(base: nat, n: nat, first: nat, b: nat, lost: nat, all: set<nat>, i: nat) {
    first <= i < n && BlockNo(first, i) == b && ImageNo(first, i) != lost ==> base + i in all
  }

  // Where frame i sits: channel and place in its group.
  lemma PlaceOf(n: nat, first: nat, i: nat)
    requires first <= i < n
    ensures var c, k := (i - first) % 3, ImageNo(first, i); var g := GroupAt(n, first + 9 * BlockNo(first, i), c);
            Member3(g, k) == i && k < g.count
  {
    hide GroupAt, Member3;
    var d := i - first;
    Split9(d);
    PlaceIs(n, first, d / 9, d % 9 / 3, d % 3, i);
  }

  lemma ImageOf(n: nat, first: nat, b: nat, c: nat, k: nat)
    requires c < 3 && k < GroupAt(n, first + 9 * b, c).count
    ensures var i := Member3(GroupAt(n, first + 9 * b, c), k); first <= i < n && BlockNo(first, i) == b && ImageNo(first, i) == k
  {
    GroupInWindow(n, first + 9 * b, c, k);
    MemberPlace(n, first + 9 * b, c, k);
    Joined9(b, k, c);
    hide GroupAt, Member3;
  }

  // One DATA image of block b is lost, its other frames and its parity frames
  // are stored: whatever is closed under the equations has all its frames.
  lemma BlockCloses(e: Equations, base: nat, n: nat, first: nat, b: nat, lost: nat, i: nat, all: set<nat>)
    requires n <= MAX_WINDOW && GroupsStored(e, base, n, first, b) && Closed(e, all)
    requires forall j: nat :: KnownAt(base, n, first, b, lost, all, j)
    requires first <= i < n && BlockNo(first, i) == b
    ensures base + i in all
  {
    hide Closed, GroupStored, GroupsStored, GroupAt, Member3, BlockNo, ImageNo;
    assert KnownAt(base, n, first, b, lost, all, i);
    if ImageNo(first, i) == lost {
      PlaceOf(n, first, i);
      var c := (i - first) % 3;
      var g := GroupAt(n, first + 9 * b, c);
      GroupsAt(e, base, n, first, b, c);
      forall j | 0 <= j < g.count && j != lost ensures base + Member3(g, j) in all {
        ImageOf(n, first, b, c, j);
        assert KnownAt(base, n, first, b, lost, all, Member3(g, j));
      }
      GroupCloses(e, base, n, first + 9 * b, c, lost, all);
    }
  }

  lemma GroupsAt(e: Equations, base: nat, n: nat, first: nat, b: nat, c: nat)
    requires GroupsStored(e, base, n, first, b) && c < 3 && GroupAt(n, first + 9 * b, c).count > 0
    ensures GroupStored(e, base, n, GroupAt(n, first + 9 * b, c))
  {
    hide GroupStored, GroupAt;
    assert StoredAt(e, base, n, first, b, c);
  }

  // One image may be lost in every block of the window.  A store at rest that
  // holds everything else holds the lost frames too, as they were sent.
  lemma ImagesRecovered(t: Truth, d: Dir, base: nat, n: nat, first: nat, lost: nat -> nat)
    requires TrueDir(t, d) && Exhausted(d) && n <= MAX_WINDOW
    requires forall b: nat :: GroupsStored(d.eqs, base, n, first, b)
    requires forall b: nat, j: nat :: KnownAt(base, n, first, b, lost(b), d.data.Keys, j)
    ensures forall i :: first <= i < n ==> Recovered(t, d, base, i)
  {
    hide TrueData, Exhausted, GroupsStored, KnownAt, Closed, TrueDir;
    ExhaustedIsClosed(t, d);
    forall i | first <= i < n ensures Recovered(t, d, base, i) {
      var b := BlockNo(first, i);
      assert GroupsStored(d.eqs, base, n, first, b);
      BlockCloses(d.eqs, base, n, first, b, lost(b), i, d.data.Keys);
      StoredIsTrue(t, d, base + i);
    }
  }
}
