// timing32.c: a clock of 4096 units per BIOS tick, read from the tick counter
// and the phase of the timer chip.  The chip can wrap before the interrupt
// that counts the wrap has run; the pending flag makes up for it.

module Timer {
  const DAY: nat := 0x1800B0
  const UNITS: nat := 4096
  const SECOND: nat := 74574
  const WORD: nat := 0x1_0000_0000

  // The phase within a tick, from the latched count and status of counter 0.
  function Phase(count: nat, outputHigh: bool, mode: nat): (p: nat)
    requires count < 65536
    ensures p < UNITS
  {
    var value := if count == 0 then 65536 else count;
    var raw := if mode == 3 || mode == 7 then (65536 - value) / 2 + (if outputHigh then 0 else 32768)
               else if mode == 2 || mode == 6 then 65536 - value
               else 0;
    raw / 16
  }

  // The status byte: output level and mode of the counter.
  function PhaseOf(count: nat, status: nat): (p: nat)
    requires count < 65536
    ensures p < UNITS
  {
    Phase(count, status / 128 % 2 == 1, status / 2 % 8)
  }

  // The counter k clocks after a wrap: in mode 2 it counts down by one, in mode 3
  // twice by two, with the output high the first time.
  function CountAt(k: nat, square: bool): (count: nat)
    requires k < 65536
    ensures count < 65536
  {
    (if square then 65536 - 2 * (k % 32768) else 65536 - k) % 65536
  }

  lemma SquareCount(h: nat)
    requires h < 32768
    ensures var count := (65536 - 2 * h) % 65536; var value := if count == 0 then 65536 else count; (65536 - value) / 2 == h
  {}

  lemma PlainCount(k: nat)
    requires k < 65536
    ensures var count := (65536 - k) % 65536; var value := if count == 0 then 65536 else count; 65536 - value == k
  {}

  // The status byte of the read-back command: output level, three bits that do
  // not matter here, mode, and the digit format.
  function StatusByte(outputHigh: bool, middle: nat, mode: nat, bcd: bool): (s: nat)
    requires middle < 8 && mode < 8
    ensures s < 256
  {
    (if outputHigh then 128 else 0) + 16 * middle + 2 * mode + (if bcd then 1 else 0)
  }

  lemma StatusRead(outputHigh: bool, middle: nat, mode: nat, bcd: bool)
    requires middle < 8 && mode < 8
    ensures var s := StatusByte(outputHigh, middle, mode, bcd); (s / 128 % 2 == 1 <==> outputHigh) && s / 2 % 8 == mode
  {
    var s := StatusByte(outputHigh, middle, mode, bcd);
    assert s / 2 == (if outputHigh then 64 else 0) + 8 * middle + mode;
  }

  // In both modes the phase is the clocks since the wrap, sixteen to a unit; in
  // any other it stays at zero.
  lemma PhaseIsTime(k: nat, middle: nat, mode: nat, bcd: bool)
    requires k < 65536 && middle < 8 && mode < 8
    ensures var square := mode == 3 || mode == 7;
            PhaseOf(CountAt(k, square), StatusByte(k < 32768, middle, mode, bcd)) == if mode % 4 < 2 then 0 else k / 16
  {
    hide StatusByte, Phase, CountAt;
    StatusRead(k < 32768, middle, mode, bcd);
    if mode == 3 || mode == 7 {
      SquarePhase(k, mode);
    } else {
      PlainPhase(k, mode);
    }
  }

  lemma SquarePhase(k: nat, mode: nat)
    requires k < 65536 && (mode == 3 || mode == 7)
    ensures Phase(CountAt(k, true), k < 32768, mode) == k / 16
  {
    SquareCount(k % 32768);
  }

  lemma PlainPhase(k: nat, mode: nat)
    requires k < 65536 && mode < 8 && mode != 3 && mode != 7
    ensures Phase(CountAt(k, false), k < 32768, mode) == if mode % 4 < 2 then 0 else k / 16
  {
    PlainCount(k);
  }

  // The ticks counted between two readings of the BIOS counter, which starts
  // over at midnight.
  function Counted(last: nat, now: nat): (d: nat)
    requires last < DAY && now < DAY
    ensures d < DAY && (last + d) % DAY == now
  {
    if now >= last then now - last else (DAY - last) + now
  }

  // Arithmetic on 32-bit words.
  function Wrapped(n: nat): nat {
    n % WORD
  }

  lemma WrappedSum(a: nat, b: nat)
    ensures Wrapped(Wrapped(a) + Wrapped(b)) == Wrapped(a + b)
  {}

  class Clock {
    var initialized: bool
    var lastTick: nat
    var lastPhase: nat
    var pending: bool
    var total: nat
    // what total would be without wrap-around at 2^32
    ghost var exact: nat

    ghost predicate Valid()
      reads this
    {
      lastTick < DAY && lastPhase < UNITS && total == Wrapped(exact) && (initialized || total == 0)
    }

    constructor ()
      ensures Valid() && !initialized && !pending && exact == 0
    {
      initialized, lastTick, lastPhase, pending, total := false, 0, 0, false, 0;
      exact := 0;
    }

    // timer_ticks, for one consistent reading of the tick counter and of the
    // chip's latched count and status.
    // The clock never goes backwards, and its growth is the counted ticks with
    // a pending one added or paid back, except that a second wrap that finds
    // the counter unmoved and a tick already pending adds one more.
    method Ticks(tick: nat, count: nat, status: nat) returns (r: nat)
      requires Valid() && tick < DAY && count < 65536 && status < 256
      modifies this
      ensures Valid() && initialized && lastTick == tick && lastPhase == PhaseOf(count, status) && r == total
      ensures !old(initialized) ==> exact == old(exact) && pending == old(pending) && total == old(total)
      ensures old(initialized) ==> exact >= old(exact)
      ensures old(initialized) ==>
                var counted, phase := Counted(old(lastTick), tick), PhaseOf(count, status);
                exact - old(exact) == UNITS * (counted + Unit(pending) - Unit(old(pending))) + phase - old(lastPhase)
                                      + (if old(pending) && counted == 0 && phase < old(lastPhase) then UNITS else 0)
      ensures old(initialized) ==>
                var counted, phase := Counted(old(lastTick), tick), PhaseOf(count, status);
                pending <==> (old(pending) && counted == 0) ||
                             (phase < old(lastPhase) && (counted == 0 || (counted == 1 && old(pending))))
    {
      hide Wrapped, Counted, PhaseOf;
      var phase := PhaseOf(count, status);
      if !initialized {
        lastTick, lastPhase, initialized := tick, phase, true;
        return 0;
      }
      var ticks := Counted(lastTick, tick);
      if ticks > 0 && pending {
        ticks := ticks - 1;
        pending := false;
      }
      var delta;
      if phase >= lastPhase {
        delta := ticks * UNITS + phase - lastPhase;
      } else if ticks > 0 {
        delta := (ticks - 1) * UNITS + UNITS - lastPhase + phase;
      } else {
        delta := UNITS - lastPhase + phase;
        pending := true;
      }
      WrappedSum(exact, delta);
      total := Wrapped(total + Wrapped(delta));
      exact := exact + delta;
      lastTick, lastPhase := tick, phase;
      r := total;
    }
  }

  function Unit(b: bool): nat { if b then 1 else 0 }

  // ----- what the clock means

  // One reading in real time: how often the chip has wrapped, whether the
  // interrupt of the last wrap is still outstanding, and what the chip latched.
  datatype Poll = Poll(wraps: nat, late: bool, count: nat, status: nat)

  function PollPhase(p: Poll): (n: nat)
    ensures n < UNITS
  {
    if p.count < 65536 then PhaseOf(p.count, p.status) else 0
  }

  function Time(p: Poll): nat {
    UNITS * p.wraps + PollPhase(p)
  }

  predicate Latched(p: Poll) {
    p.count < 65536 && p.status < 256
  }

  // The wraps the BIOS has counted.
  function Seen(p: Poll): int {
    p.wraps - Unit(p.late)
  }

  // The BIOS counter, which stood at `base` before the first wrap.
  function Tick(base: nat, p: Poll): (t: nat)
    ensures t < DAY
  {
    (base + Seen(p) + DAY) % DAY
  }

  // Time does not run backwards, the BIOS neither; at most one interrupt is
  // outstanding, and readings are less than a day apart.
  predicate Follows(p: Poll, q: Poll) {
    Latched(p) && Latched(q) && Time(p) <= Time(q) && 0 <= Seen(q) - Seen(p) < DAY
  }

  ghost predicate History(polls: seq<Poll>) {
    polls != [] && Latched(polls[0]) && forall i :: 0 < i < |polls| ==> Follows(polls[i - 1], polls[i])
  }

  // Readings less than one tick apart, the first with no interrupt outstanding.
  ghost predicate Close(polls: seq<Poll>) {
    && History(polls) && !polls[0].late
    && forall i :: 0 < i < |polls| ==> Time(polls[i]) - Time(polls[i - 1]) < UNITS
  }

  lemma CountedIsSeen(base: nat, p: Poll, q: Poll)
    requires 0 <= Seen(q) - Seen(p) < DAY
    ensures Counted(Tick(base, p), Tick(base, q)) == Seen(q) - Seen(p)
  {
    var a, b := base + Seen(p) + DAY, base + Seen(q) + DAY;
    DayDistance(a, b);
  }

  // The distance of two counts less than a day apart, from their remainders.
  lemma DayDistance(a: nat, b: nat)
    requires a <= b < a + DAY
    ensures Counted(a % DAY, b % DAY) == b - a
  {
    var x, y := a / DAY, b / DAY;
    assert a == x * DAY + a % DAY && b == y * DAY + b % DAY;
    assert y == x || y == x + 1;
  }

  // One reading: the pending flag never claims more than is outstanding, and
  // with close readings it is exactly what is outstanding.
  lemma PendingNext(p: Poll, q: Poll, before: bool, after: bool)
    requires Follows(p, q) && (before ==> p.late)
    requires var d := Seen(q) - Seen(p);
             after <==> (before && d == 0) || (PollPhase(q) < PollPhase(p) && (d == 0 || (d == 1 && before)))
    ensures after ==> q.late
    ensures !(before && Seen(q) == Seen(p) && PollPhase(q) < PollPhase(p))
    ensures Time(q) - Time(p) < UNITS && before == p.late ==> after == q.late
  {
    hide PollPhase;
  }

  // Over any run of readings the clock is the elapsed time, up to one tick for
  // interrupts outstanding at the two ends; with readings less than a tick
  // apart it is exact.
  method Watch(c: Clock, base: nat, polls: seq<Poll>) returns (r: nat)
    requires c.Valid() && !c.initialized && !c.pending && c.exact == 0 && History(polls)
    modifies c
    ensures r == Wrapped(c.exact)
    ensures var first, last := polls[0], polls[|polls| - 1];
            c.exact == Time(last) - Time(first) + UNITS * (Unit(first.late) - (Unit(last.late) - Unit(c.pending)))
    ensures var last := polls[|polls| - 1]; c.pending ==> last.late
    ensures Close(polls) ==> c.exact == Time(polls[|polls| - 1]) - Time(polls[0])
  {
    r := c.Ticks(Tick(base, polls[0]), polls[0].count, polls[0].status);
    for i := 1 to |polls|
      invariant c.Valid() && c.initialized && r == c.total
      invariant c.lastTick == Tick(base, polls[i - 1]) && c.lastPhase == PollPhase(polls[i - 1])
      invariant c.pending ==> polls[i - 1].late
      invariant c.exact == Time(polls[i - 1]) - Time(polls[0])
                           + UNITS * (Unit(polls[0].late) - (Unit(polls[i - 1].late) - Unit(c.pending)))
      invariant Close(polls) ==> c.pending == polls[i - 1].late
    {
      hide Counted, Tick, PhaseOf;
      var p, q := polls[i - 1], polls[i];
      assert Follows(p, q);
      CountedIsSeen(base, p, q);
      ghost var before := c.pending;
      r := c.Ticks(Tick(base, q), q.count, q.status);
      PendingNext(p, q, before, c.pending);
    }
  }

  // ----- milliseconds

  // timer_elapsed_ms: the whole milliseconds, without overflowing 32 bits.
  function ElapsedMs(start: nat, end: nat): (ms: nat)
    requires start < WORD && end < WORD
  {
    var d := (end - start + WORD) % WORD;
    d / SECOND * 1000 + d % SECOND * 1000 / SECOND
  }

  // timer_wait_ms: the units to wait.
  function Need(ms: nat): nat {
    ms * 74 + (ms * 574 + 999) / 1000
  }

  lemma Elapsed(start: nat, d: nat)
    requires start < WORD && d < WORD
    ensures ((start + d) % WORD - start + WORD) % WORD == d
  {}

  // From any start, across the wrap of the 32-bit clock.
  lemma WholeMilliseconds(start: nat, d: nat)
    requires start < WORD && d < WORD
    ensures ElapsedMs(start, (start + d) % WORD) == d * 1000 / SECOND
    ensures d % SECOND * 1000 < WORD
  {
    Elapsed(start, d);
    var q, r := d / SECOND, d % SECOND;
    assert d * 1000 == q * 1000 * SECOND + r * 1000;
    var t := r * 1000 / SECOND;
    assert d * 1000 - (q * 1000 + t) * SECOND == r * 1000 - t * SECOND;
  }

  // Waiting ends at the first unit at which the milliseconds have elapsed,
  // wherever the clock stands when it begins.
  lemma WaitIsExact(start: nat, ms: nat, d: nat)
    requires start < WORD && ms < 65536 && d < WORD
    ensures Need(ms) < WORD
    ensures d >= Need(ms) <==> ElapsedMs(start, (start + d) % WORD) >= ms
  {
    hide ElapsedMs;
    WholeMilliseconds(start, d);
    NeedIs(ms);
    var e := d * 1000 / SECOND;
    assert e * SECOND <= d * 1000 < (e + 1) * SECOND;
    if ms <= e { assert ms * SECOND <= e * SECOND; } else { assert ms * SECOND >= (e + 1) * SECOND; }
  }

  lemma NeedIs(ms: nat)
    ensures Need(ms) == (ms * SECOND + 999) / 1000
  {}

  // A tick is 65536 clocks, and a day of ticks is a day of the chip up to three.
  lemma DayInClocks()
    ensures UNITS * 16 == 65536
    ensures -3 * 65536 < DAY * 65536 - 86400 * 1193182 < 3 * 65536
  {}

  // A unit is sixteen clocks of a chip that runs at 1193182 Hz: a wait is never
  // short, and at most one unit and two clocks a second too long.
  lemma WaitInClocks(ms: nat)
    ensures var clocks := 16 * Need(ms); 1193182 * ms <= 1000 * clocks < 1193184 * ms + 16000
  {
    NeedIs(ms);
    var n := Need(ms);
    assert ms * SECOND <= n * 1000 < ms * SECOND + 1000;
  }
}
