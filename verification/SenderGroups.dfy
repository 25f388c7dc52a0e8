// The records of each group as the producer reads them, and the claim of a slot.

module SenderGroups {
  import opened Gf2
  import opened Protocol
  import opened Whitening
  import opened Repair
  import opened Vga
  import opened PlaneParity
  import opened Schedule
  import opened Sender
  import opened SenderQueue

  // Group k of the schedule with its records.
  ghost function GroupOf(c: Config, k: nat): (g: Group)
    requires GoodConfig(c) && HasGroup(c.plan, k)
    ensures GoodGroup(g) && |g.records| == c.plan.width && g.session == c.session && g.start == Start(c.plan, k)
    ensures g.start + c.plan.width <= |c.records|
    ensures forall p :: 0 <= p < c.plan.width ==> g.records[p] == c.records[g.start + p]
  {
    hide Good, WhiteOutside, InsideMap;
    var i := Cut(c.plan, k);
    ClaimRangeExact(c.plan, i);
    var s := Start(c.plan, k);
    Group(c.session, WindowOf(c.plan, s), s, Place(c.plan, s), WindowCount(c.plan, s), c.records[s..s + c.plan.width])
  }

  // ----- the history ring

  // The last three records sit at their index modulo three.
  ghost predicate StreamOk(c: Config, st: Stream): (ok: bool)
    ensures ok ==> ShapedStream(c, st)
  {
    && ShapedStream(c, st)
    && st.count == (if st.global < 3 then st.global else 3) && st.head == st.global % 3
    && forall j :: st.global - st.count <= j < st.global ==> HistoryHolds(c, st, j)
  }

  predicate HistoryHolds(c: Config, st: Stream, j: int)
    requires ShapedStream(c, st)
  {
    0 <= j < |c.records| && st.history[j % 3] == c.records[j] && st.historyGlobal[j % 3] == j
  }

  lemma AdvanceKeepsStream(c: Config, st: Stream)
    requires StreamOk(c, st) && st.global < |c.records| && |c.records[st.global]| == PAYLOAD
    ensures StreamOk(c, Advanced(c, st))
  {
    var t := Advanced(c, st);
    forall j | t.global - t.count <= j < t.global ensures HistoryHolds(c, t, j) {
      if j < st.global {
        assert HistoryHolds(c, st, j);
        assert j % 3 != st.head;
      }
    }
  }

  // Logical entry l is the l-th oldest of the remembered records.
  lemma HistoryEntry(c: Config, st: Stream, l: nat)
    requires StreamOk(c, st) && l < st.count
    ensures st.history[HistoryIndex(st, l)] == c.records[st.global - st.count + l]
    ensures st.historyGlobal[HistoryIndex(st, l)] == st.global - st.count + l
  {
    assert HistoryHolds(c, st, st.global - st.count + l);
  }

  // ----- claiming

  ghost predicate SlotIs(c: Config, g: Slot, k: nat) {
    && GoodPlan(c.plan) && HasGroup(c.plan, k)
    && g.start == Start(c.plan, k) && g.start < c.plan.total
    && g.window == WindowOf(c.plan, g.start) && g.windowIndex == Place(c.plan, g.start)
    && g.windowCount == WindowCount(c.plan, g.start)
    && g.overlap == Cut(c.plan, k) - g.start
  }

  predicate SomeFree(q: Queue)
    requires |q.slots| == SLOTS
  {
    exists i :: 0 <= i < SLOTS && q.slots[i].state == Free
  }

  // A claim succeeds exactly when a group fits and a slot is free; it then
  // opens that group in a free slot and touches nothing else.
  lemma ClaimExact(c: Config, st: Stream, q: Queue, k: nat)
    requires GoodPlan(c.plan) && |c.records| == c.plan.total && StreamOk(c, st) && ShapedQueue(q)
    requires q.preparing.None? && q.ready < SLOTS && st.global < c.plan.total && st.global == Cut(c.plan, k)
    ensures Claim(c, st, q, None).Some? <==> HasGroup(c.plan, k) && SomeFree(q)
    ensures Claim(c, st, q, None).Some? ==>
              var t := Claim(c, st, q, None).value;
              var s := t.preparing.value;
              && t == Queue(q.slots[s := t.slots[s]], s, Some(s), q.ready, q.nextOrdinal + 1)
              && q.slots[s].state == Free && SlotIs(c, t.slots[s], k)
              && t.slots[s].state == Filling && t.slots[s].ordinal == q.nextOrdinal + 1 && t.slots[s].stage == 0
              && !t.slots[s].applied && t.slots[s].patches == []
  {
    hide Place, WindowCount, WindowOf, Cut, ClaimRange, Fits;
    var i := st.global;
    ClaimRangeExact(c.plan, i);
    if HasGroup(c.plan, k) {
      var range := ClaimRange(c.plan, i);
      MemberPlace(c.plan, i, 0);
      if range.overlap > 0 {
        HistoryEntry(c, st, st.count - range.overlap);
      }
      if SomeFree(q) {
        var s :| 0 <= s < SLOTS && q.slots[s].state == Free;
        ScanComplete(q, s);
      }
    }
  }

  // Claims are refused for good once the tails have begun.
  lemma ClaimRefused(c: Config, st: Stream, q: Queue, reserved: Option<nat>)
    requires GoodPlan(c.plan) && |c.records| == c.plan.total && ShapedStream(c, st) && ShapedQueue(q)
    requires st.global < c.plan.total ==> !Fits(c.plan, st.global)
    ensures Claim(c, st, q, reserved).None?
  {
    if st.global < c.plan.total {
      ClaimRangeExact(c.plan, st.global);
    }
  }

  // ----- the frames of a group

  // With a matching slot and keystream the producer's frame is the group's.
  lemma SlotFrameIs(c: Config, g: Slot, k: nat, coefficient: U8, payload: Bytes)
    requires GoodConfig(c) && SlotIs(c, g, k)
    ensures SlotFrame(c, g, coefficient, payload) == PlaneFrame(GroupOf(c, k), coefficient, payload)
  {
    hide Good, WhiteOutside, InsideMap, Place, WindowCount, WindowOf, Cut;
  }

  ghost predicate KeyOk(c: Config, w: Work) {
    && |w.key| == PAYLOAD
    && (w.keyIndex.Some? ==> w.key == Whitening.Stream([Seed(ToWord(c.session), ToWord(w.keyIndex.value))], PAYLOAD))
  }

  lemma KeyedOk(c: Config, w: Work, start: nat)
    requires ShapedWork(w) && KeyOk(c, w)
    ensures KeyOk(c, Keyed(c, w, start)) && Keyed(c, w, start).keyIndex == Some(start)
  {
    hide Whitening.Stream, Seed, ToWord;
  }

  lemma KeyedWireIs(c: Config, g: Slot, k: nat, p: nat, w: Work)
    requires GoodConfig(c) && SlotIs(c, g, k) && p < c.plan.width && KeyOk(c, w) && w.keyIndex == Some(g.start)
    ensures var record := GroupOf(c, k).records[p];
            |record| == PAYLOAD && KeyedWire(c, g, COEFFICIENTS[p], record, w.key) == BasisWire(GroupOf(c, k), p)
  {
    hide Good, WhiteOutside, InsideMap, Place, WindowCount, WindowOf, Cut, GroupOf, Sealed, Whitening.Stream, Seed, ToWord, Xor;
    var gr := GroupOf(c, k);
    var record := gr.records[p];
    assert |record| == PAYLOAD by { RecordOf(gr, p); }
    SlotFrameIs(c, g, k, COEFFICIENTS[p], record);
    var f := PlaneFrame(gr, COEFFICIENTS[p], record);
    FlagBits();
    assert Seeds(f) == [Seed(ToWord(c.session), ToWord(g.start))];
  }

  lemma RecordOf(g: Group, p: nat)
    requires GoodGroup(g) && p < |g.records|
    ensures |g.records[p]| == PAYLOAD
  {}
}
