// The slot queue of the sender: which groups are resident, in which order.

module SenderQueue {
  import opened Repair
  import opened Vga
  import opened Sender

  // Groups that are complete, and groups whose display has begun.
  function Complete(q: Queue): int {
    if q.preparing.Some? then q.nextOrdinal - 1 else q.nextOrdinal
  }

  function Played(q: Queue): int {
    Complete(q) - q.ready
  }

  predicate ReadySlot(q: Queue, i: nat, o: int)
    requires |q.slots| == SLOTS
  {
    i < SLOTS && q.slots[i].state == Ready && q.slots[i].ordinal == o
  }

  ghost predicate Waiting(q: Queue, o: int)
    requires |q.slots| == SLOTS
  {
    exists i: nat :: ReadySlot(q, i, o)
  }

  // The ordinals in the queue are exactly one run: the playing group, then the
  // ready ones without gap or repetition, then the one being filled.
  ghost predicate QueueOk(q: Queue, group: Option<nat>) {
    && ShapedQueue(q)
    && 0 <= q.ready <= Complete(q)
    && (forall i :: 0 <= i < SLOTS ==> (q.slots[i].state == Filling <==> q.preparing == Some(i)))
    && (forall i :: 0 <= i < SLOTS ==> (q.slots[i].state == Playing <==> group == Some(i)))
    && (group.Some? ==> group.value < SLOTS && 1 <= Played(q) == q.slots[group.value].ordinal)
    && (q.preparing.Some? ==> q.slots[q.preparing.value].ordinal == q.nextOrdinal >= 1)
    && (forall i :: 0 <= i < SLOTS && q.slots[i].state == Ready ==> Played(q) < q.slots[i].ordinal <= Complete(q))
    && (forall i, j :: 0 <= i < j < SLOTS && q.slots[i].state == Ready && q.slots[j].state == Ready ==>
                         q.slots[i].ordinal != q.slots[j].ordinal)
    && (forall o :: Played(q) < o <= Complete(q) ==> Waiting(q, o))
    && CountOf(q.slots, Ready, SLOTS) == q.ready
  }

  // How many of the first n slots are in a state.
  function CountOf(slots: seq<Slot>, state: SlotState, n: nat): (r: nat)
    requires n <= |slots|
    ensures r <= n
  {
    if n == 0 then 0 else CountOf(slots, state, n - 1) + if slots[n - 1].state == state then 1 else 0
  }

  lemma {:induction false} CountUpdate(slots: seq<Slot>, state: SlotState, n: nat, i: nat, g: Slot)
    requires n <= |slots| && i < |slots|
    ensures CountOf(slots[i := g], state, n)
         == CountOf(slots, state, n) + (if i < n && g.state == state then 1 else 0)
            - (if i < n && slots[i].state == state then 1 else 0)
    decreases n
  {
    if n > 0 { CountUpdate(slots, state, n - 1, i, g); }
  }

  lemma {:induction false} CountAll(slots: seq<Slot>, n: nat)
    requires n <= |slots|
    ensures CountOf(slots, Free, n) + CountOf(slots, Filling, n) + CountOf(slots, Ready, n) + CountOf(slots, Playing, n) == n
    decreases n
  {
    if n > 0 { CountAll(slots, n - 1); }
  }

  lemma {:induction false} CountNone(slots: seq<Slot>, state: SlotState, n: nat)
    requires n <= |slots| && forall i :: 0 <= i < n ==> slots[i].state != state
    ensures CountOf(slots, state, n) == 0
    decreases n
  {
    if n > 0 { CountNone(slots, state, n - 1); }
  }

  lemma {:induction false} CountOne(slots: seq<Slot>, state: SlotState, n: nat, k: nat)
    requires n <= |slots| && forall i :: 0 <= i < n && slots[i].state == state ==> i == k
    ensures CountOf(slots, state, n) <= 1
    decreases n
  {
    if n > 0 {
      CountOne(slots, state, n - 1, k);
      if slots[n - 1].state == state { CountNone(slots, state, n - 1); }
    }
  }

  // Without a free slot at least seven groups are ready.
  lemma FullQueue(q: Queue, group: Option<nat>)
    requires QueueOk(q, group) && q.preparing.None? && forall i :: 0 <= i < SLOTS ==> q.slots[i].state != Free
    ensures q.ready >= 7
  {
    CountAll(q.slots, SLOTS);
    CountNone(q.slots, Free, SLOTS);
    CountNone(q.slots, Filling, SLOTS);
    CountOne(q.slots, Playing, SLOTS, if group.Some? then group.value else 0);
  }

  lemma {:induction false} ScanFinds(q: Queue, i: nat, k: nat)
    requires ShapedQueue(q) && i <= k < SLOTS && q.slots[(q.tail + k) % SLOTS].state == Free
    ensures ScanFree(q, None, i).Some?
    decreases SLOTS - i
  {
    if i < k { ScanFinds(q, i + 1, k); }
  }

  // Unreserved claims find a free slot whenever one exists.
  lemma ScanComplete(q: Queue, s: nat)
    requires ShapedQueue(q) && s < SLOTS && q.slots[s].state == Free
    ensures ScanFree(q, None, 0).Some?
  {
    var k := (s + SLOTS - q.tail) % SLOTS;
    assert (q.tail + k) % SLOTS == s;
    ScanFinds(q, 0, k);
  }

  // The scan for the least ready ordinal finds it.
  lemma {:induction false} BestIs(slots: seq<Slot>, after: int, n: nat, k: nat)
    requires n <= |slots| && k < |slots| && slots[k].state == Ready && slots[k].ordinal > after
    requires forall i :: 0 <= i < |slots| && slots[i].state == Ready && slots[i].ordinal > after && i != k ==>
                           slots[i].ordinal > slots[k].ordinal
    ensures BestReady(slots, after, n) == Some(k) || (n <= k && (BestReady(slots, after, n).Some? ==>
              slots[BestReady(slots, after, n).value].ordinal > slots[k].ordinal))
    decreases n
  {
    if n > 0 { BestIs(slots, after, n - 1, k); }
  }

  // Both scans return the group that follows the one played last.
  lemma NextGroup(q: Queue, group: Option<nat>, after: int) returns (k: nat)
    requires QueueOk(q, group) && q.ready > 0 && after <= Played(q)
    ensures k < SLOTS && BestReady(q.slots, after, SLOTS) == Some(k) && ReadySlot(q, k, Played(q) + 1)
  {
    assert Waiting(q, Played(q) + 1);
    k :| ReadySlot(q, k, Played(q) + 1);
    BestIs(q.slots, after, SLOTS, k);
  }

  lemma NoneReady(q: Queue, group: Option<nat>, after: int)
    requires QueueOk(q, group) && q.ready == 0
    ensures BestReady(q.slots, after, SLOTS) == None
  {}

  // ----- the queue's transitions

  predicate SameLine(a: Slot, b: Slot) {
    a.state == b.state && a.ordinal == b.ordinal
  }

  lemma {:induction false} CountSame(a: seq<Slot>, b: seq<Slot>, state: SlotState, n: nat)
    requires |a| == |b| && n <= |a| && forall i :: 0 <= i < |a| ==> SameLine(a[i], b[i])
    ensures CountOf(a, state, n) == CountOf(b, state, n)
    decreases n
  {
    if n > 0 { CountSame(a, b, state, n - 1); }
  }

  // Only states and ordinals matter.
  lemma QueueFrame(a: Queue, b: Queue, group: Option<nat>)
    requires QueueOk(a, group) && ShapedQueue(b)
    requires a.preparing == b.preparing && a.ready == b.ready && a.nextOrdinal == b.nextOrdinal
    requires forall i :: 0 <= i < SLOTS ==> SameLine(a.slots[i], b.slots[i])
    ensures QueueOk(b, group)
  {
    CountSame(a.slots, b.slots, Ready, SLOTS);
    assert Played(a) == Played(b) && Complete(a) == Complete(b);
    forall o | Played(b) < o <= Complete(b) ensures Waiting(b, o) {
      assert Waiting(a, o);
      var i: nat :| ReadySlot(a, i, o);
      assert SameLine(a.slots[i], b.slots[i]);
      assert ReadySlot(b, i, o);
    }
  }

  lemma ClaimKeepsQueue(q: Queue, group: Option<nat>, s: nat, g: Slot)
    requires QueueOk(q, group) && q.preparing.None? && s < SLOTS && q.slots[s].state == Free
    requires g.state == Filling && g.ordinal == q.nextOrdinal + 1 && ShapedQueue(Queue(q.slots[s := g], s, Some(s), q.ready, q.nextOrdinal + 1))
    ensures QueueOk(Queue(q.slots[s := g], s, Some(s), q.ready, q.nextOrdinal + 1), group)
  {
    var t := Queue(q.slots[s := g], s, Some(s), q.ready, q.nextOrdinal + 1);
    CountUpdate(q.slots, Ready, SLOTS, s, g);
    forall o | Played(t) < o <= Complete(t) ensures Waiting(t, o) {
      assert Waiting(q, o);
      var i: nat :| ReadySlot(q, i, o);
      assert ReadySlot(t, i, o);
    }
  }

  lemma ReadyKeepsQueue(q: Queue, group: Option<nat>, t: Queue)
    requires QueueOk(q, group) && q.preparing.Some? && ShapedQueue(t)
    requires t.slots == q.slots[q.preparing.value := t.slots[q.preparing.value]]
    requires t.slots[q.preparing.value].state == Ready && t.slots[q.preparing.value].ordinal == q.nextOrdinal
    requires t.preparing == None && t.ready == q.ready + 1 && t.nextOrdinal == q.nextOrdinal
    ensures QueueOk(t, group)
  {
    var s := q.preparing.value;
    CountUpdate(q.slots, Ready, SLOTS, s, t.slots[s]);
    forall o | Played(t) < o <= Complete(t) ensures Waiting(t, o) {
      if o == q.nextOrdinal {
        assert ReadySlot(t, s, o);
      } else {
        assert Waiting(q, o);
        var i: nat :| ReadySlot(q, i, o);
        assert ReadySlot(t, i, o);
      }
    }
  }

  // Handing the screen to the next ready group.
  lemma HandoffKeepsQueue(q: Queue, group: Option<nat>, k: nat, t: Queue)
    requires QueueOk(q, group) && q.ready > 0 && ReadySlot(q, k, Played(q) + 1) && ShapedQueue(t)
    requires forall i :: 0 <= i < SLOTS ==>
               t.slots[i].ordinal == q.slots[i].ordinal &&
               t.slots[i].state == if i == k then Playing else if group == Some(i) then Free else q.slots[i].state
    requires t.preparing == q.preparing && t.ready == q.ready - 1 && t.nextOrdinal == q.nextOrdinal
    ensures QueueOk(t, Some(k)) && Played(t) == Played(q) + 1
  {
    HandoffCount(q, group, k, t);
    forall o | Played(t) < o <= Complete(t) ensures Waiting(t, o) {
      assert Waiting(q, o);
      var i: nat :| ReadySlot(q, i, o);
      assert ReadySlot(t, i, o);
    }
  }

  lemma HandoffCount(q: Queue, group: Option<nat>, k: nat, t: Queue)
    requires QueueOk(q, group) && k < SLOTS && q.slots[k].state == Ready && ShapedQueue(t)
    requires forall i :: 0 <= i < SLOTS ==>
               t.slots[i].ordinal == q.slots[i].ordinal &&
               t.slots[i].state == if i == k then Playing else if group == Some(i) then Free else q.slots[i].state
    ensures CountOf(t.slots, Ready, SLOTS) == q.ready - 1
  {
    var free := if group.Some? then q.slots[group.value := q.slots[group.value].(state := Free)] else q.slots;
    if group.Some? { CountUpdate(q.slots, Ready, SLOTS, group.value, free[group.value]); }
    CountUpdate(free, Ready, SLOTS, k, t.slots[k]);
    CountSame(free[k := t.slots[k]], t.slots, Ready, SLOTS);
  }

  // Releasing the last group after everything was played.
  lemma ReleaseKeepsQueue(q: Queue, g: nat, t: Queue)
    requires QueueOk(q, Some(g)) && q.ready == 0 && ShapedQueue(t)
    requires forall i :: 0 <= i < SLOTS ==>
               t.slots[i].ordinal == q.slots[i].ordinal && t.slots[i].state == if i == g then Free else q.slots[i].state
    requires t.preparing == q.preparing && t.ready == q.ready && t.nextOrdinal == q.nextOrdinal
    ensures QueueOk(t, None)
  {
    CountNone(t.slots, Ready, SLOTS);
  }

  // ----- tails

  lemma {:induction false} TailSlotComplete(s: State, i: nat, k: nat)
    requires ShapedQueue(s.queue) && i <= k < SLOTS
    requires s.queue.slots[k].state == Free && s.reserved != Some(k) && s.playback.group != Some(k)
    ensures TailSlot(s, i).Some?
    decreases SLOTS - i
  {
    if i < k { TailSlotComplete(s, i + 1, k); }
  }

  lemma {:induction false} TailSlotUnreserved(s: State, i: nat)
    requires ShapedQueue(s.queue) && i <= SLOTS
    ensures TailSlot(s, i).Some? ==> s.reserved != TailSlot(s, i)
    decreases SLOTS - i
  {
    if i < SLOTS { TailSlotUnreserved(s, i + 1); }
  }

  // With nothing ready and nothing in preparation a tail always has a slot.
  lemma TailSlotExists(s: State)
    requires QueueOk(s.queue, s.playback.group) && s.queue.ready == 0 && s.queue.preparing.None?
    ensures TailSlot(s, 0).Some?
  {
    var k: nat := if s.reserved != Some(0) && s.playback.group != Some(0) then 0
                  else if s.reserved != Some(1) && s.playback.group != Some(1) then 1 else 2;
    assert s.queue.slots[k].state == Free;
    TailSlotComplete(s, 0, k);
  }
}
