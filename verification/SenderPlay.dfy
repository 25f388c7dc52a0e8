// main() of dos_sender32 over a whole transfer: the object of SenderMachine
// driven by an arbitrary clock.  Its states are those of Run, so it never
// fails, never disturbs a shown symbol and shows the whole schedule.

module SenderPlay {
  import opened Sender
  import opened SenderMachine
  import opened SenderRuns
  import opened SenderSafety

  // Where main() is: prefilling, in its loop, or done.
  datatype Stage = Prefill | Loop | Done

  ghost function ModeAt(stage: Stage, s: Sender.State): Mode {
    match stage
    case Prefill => Prefilling(s)
    case Loop => Looping(s)
    case Done => Mode.Ended(s)
  }

  lemma RunNext(c: Config, clock: seq<bool>, i: nat)
    requires GoodConfig(c) && i < |clock|
    ensures Run(c, clock[..i + 1]) == Advance(c, Run(c, clock[..i]), clock[i])
    ensures !Run(c, clock[..i + 1]).Broken?
  {
    hide GoodConfig, Advance;
    assert clock[..i + 1][..i] == clock[..i];
    EveryRunIsSafe(c, clock[..i + 1]);
  }

  method Turn(m: Machine, stage: Stage, due: bool) returns (next: Stage)
    requires m.Valid() && !Advance(m.c, ModeAt(stage, m.Now()), due).Broken?
    modifies m.Repr()
    ensures m.Valid() && (m.encoder == old(m.encoder) || fresh(m.encoder))
    ensures Advance(m.c, old(ModeAt(stage, m.Now())), due) == ModeAt(next, m.Now())
  {
    next := stage;
    match stage
    case Prefill =>
      var rc := m.Prefill();
      if rc == 1 { next := Loop; }
    case Loop =>
      var rc := m.Iterate(due);
      if rc == 1 { next := Done; }
    case Done =>
  }

  // A transfer under `clock`.
  method Transfer(m: Machine, clock: seq<bool>) returns (stage: Stage)
    requires m.Valid() && m.Now() == Initial()
    modifies m.Repr()
    ensures m.Valid() && Run(m.c, clock) == ModeAt(stage, m.Now())
    ensures Safe(m.c, m.Now())
    ensures stage.Done? ==> m.log == FullLog(m.c.plan)
    ensures Due(clock) > Total(m.c.plan) ==> stage.Done?
  {
    stage := Prefill;
    for i := 0 to |clock|
      invariant m.Valid() && (m.encoder == old(m.encoder) || fresh(m.encoder))
      invariant Run(m.c, clock[..i]) == ModeAt(stage, m.Now())
    {
      RunNext(m.c, clock, i);
      stage := Turn(m, stage, clock[i]);
    }
    assert clock[..|clock|] == clock;
    EveryRunIsSafe(m.c, clock);
    EveryRunEnds(m.c, clock);
  }
}
