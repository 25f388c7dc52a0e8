// main.c of dos_sender32 in its own form: the queue, the work memory, the
// playback state and the record history as fields and buffers that each call
// updates in place.  Every call is proved to do to the whole state exactly
// what the step functions of module Sender say, so what is proved about their
// runs holds of this object.

module SenderMachine {
  import opened Gf2
  import opened Protocol
  import opened Whitening
  import opened V40L
  import opened Raster
  import opened Correction
  import opened Repair
  import opened Vga
  import opened PlaneParity
  import opened Schedule
  import opened Sender

  class Machine {
    const c: Config
    // the group queue
    const slots: array<Slot>
    var tail: nat
    var preparing: Option<nat>
    var ready: int
    var nextOrdinal: nat
    // the record stream and its history
    var global: nat
    const history: array<Bytes>
    const historyGlobal: array<nat>
    var head: nat
    var count: nat
    // work memory
    var record: Bytes
    const parity: array<Byte>
    const headers: array<Bytes>
    var keyIndex: Option<nat>
    const key: array<Byte>
    var input: Bytes
    var encoder: Encoder
    const codewords: array<Byte>
    const previous: array<Byte>
    const raster: array<Byte>
    var rasterReady: bool
    var phase: Phase
    var position: nat
    var zeroReady: bool
    var zeroRaster: Bytes
    const scratch: array<Byte>
    var zeroCached: bool
    var zeroCodewords: Bytes
    // the codewords of the last complete encoding
    ghost var encoded: Bytes
    // playback
    var group: Option<nat>
    var symbol: nat
    var active: bool
    var reserved: Option<nat>
    var tailPending: bool
    // video memory and the integrity oracle
    const vga: Vga
    var expected: Bytes
    var integrity: bool
    // what has been selected so far
    ghost var log: seq<Shown>

    ghost predicate Wired() {
      && slots.Length == SLOTS && history.Length == historyGlobal.Length == 3 && headers.Length == PLANES
      && parity.Length == key.Length == PAYLOAD && codewords.Length == previous.Length == CODEWORDS
      && raster.Length == scratch.Length == RASTER
      && parity != key && codewords != previous && raster != scratch
      && vga.memory.Length0 == PLANES && vga.memory.Length1 == PLANE_BYTES
    }

    ghost function StreamNow(): Stream
      reads this`global, this`head, this`count, history, historyGlobal
    {
      Sender.Stream(global, history[..], historyGlobal[..], head, count)
    }

    ghost function QueueNow(): Queue
      reads this`tail, this`preparing, this`ready, this`nextOrdinal, slots
    {
      Queue(slots[..], tail, preparing, ready, nextOrdinal)
    }

    ghost function WorkNow(): Work
      reads this`record, this`keyIndex, this`input, this`encoder, this`encoded, this`rasterReady, this`phase, this`position
      reads this`zeroReady, this`zeroRaster, encoder`block, parity, headers, key, previous, raster
    {
      Work(record, parity[..], headers[..], keyIndex, key[..], input, encoder.block, encoded, previous[..], raster[..],
           rasterReady, phase, position, zeroReady, zeroRaster)
    }

    ghost function ScreenNow(): Screen
      requires Wired()
      reads this`expected, this`integrity, vga, vga.memory
    {
      Screen(vga.Slots(), vga.slot, vga.mask, expected, integrity)
    }

    ghost function Now(): State
      requires Wired()
      reads this, slots, history, historyGlobal, parity, headers, key, previous, raster, encoder, vga, vga.memory
    {
      State(StreamNow(), QueueNow(), WorkNow(), Playback(group, symbol, active), ScreenNow(), reserved, tailPending, log)
    }

    // Between the blocks of an encoding the codeword buffer is the encoder's;
    // otherwise it holds the last complete encoding.
    ghost predicate Encoding()
      reads this`phase, this`encoder, this`encoded, this`input, encoder, codewords
    {
      && encoder.result == codewords && encoder.table == c.printer.table
      && if phase.Encode? then encoder.Valid() && encoder.data == input && encoder.block < BLOCKS else codewords[..] == encoded
    }

    // The codewords of the all-zero header are encoded once.
    ghost predicate Cached()
      requires LinearTable(c.printer.table)
      reads this`zeroCached, this`zeroCodewords
    {
      zeroCached ==> zeroCodewords == Codewords(c.printer.table, HeaderData(Zeros(HEADER)))
    }

    ghost predicate Bounded()
      reads slots
    {
      forall i :: 0 <= i < slots.Length ==> |slots[i].patches| <= MAX_PATCHES
    }

    // Outside the basis planes the producer waits in its first phase.
    ghost predicate Settled()
      reads this`preparing, this`phase, slots
    {
      if preparing.None? then phase.Begin?
      else preparing.value < slots.Length && (slots[preparing.value].stage == c.plan.width ==> phase.Begin?)
    }

    ghost predicate Valid()
      reads this, slots, history, historyGlobal, parity, headers, key, codewords, previous, raster, encoder, vga, vga.memory
    {
      && Wired() && GoodConfig(c) && Shaped(c, Now()) && Encoding()
      && Cached() && Bounded() && Settled()
    }

    constructor (config: Config)
      requires GoodConfig(config)
      ensures Valid() && c == config && Now() == Initial()
      ensures fresh(slots) && fresh(history) && fresh(historyGlobal) && fresh(parity) && fresh(headers) && fresh(key)
      ensures fresh(codewords) && fresh(previous) && fresh(raster) && fresh(scratch) && fresh(vga) && fresh(vga.memory)
      ensures fresh(encoder)
    {
      hide *;
      GoodTable(config);
      c := config;
      var slots' := Calloc(SLOTS, EmptySlot());
      tail, preparing, ready, nextOrdinal := 0, None, 0, 0;
      var history' := Calloc(3, Zeros(PAYLOAD));
      var globals' := Calloc(3, 0);
      var headers' := Calloc(PLANES, Zeros(HEADER));
      slots, history, historyGlobal, headers := slots', history', globals', headers';
      global, head, count := 0, 0, 0;
      record, input, keyIndex := Zeros(PAYLOAD), Zeros(DATA_CODEWORDS), None;
      var parity', key', codewords', previous', raster', scratch' := Buffers();
      parity, key, codewords, previous, raster, scratch := parity', key', codewords', previous', raster', scratch';
      encoder := new Encoder(config.printer.table, Zeros(DATA_CODEWORDS), codewords');
      encoded := Zeros(CODEWORDS);
      rasterReady, phase, position, zeroReady, zeroRaster := false, Begin, 0, false, Zeros(RASTER);
      zeroCached, zeroCodewords := false, Zeros(CODEWORDS);
      group, symbol, active, reserved, tailPending := None, 0, false, None, false;
      vga := new Vga();
      expected, integrity := Zeros(RASTER), true;
      log := [];
      new;
      Blank();
    }

    static method Calloc<T>(n: nat, x: T) returns (a: array<T>)
      ensures fresh(a) && AllOf(a, n, x)
    {
      a := new T[n](_ => x);
    }

    static lemma CallocLength<T>(a: array<T>, n: nat, x: T)
      requires AllOf(a, n, x)
      ensures a.Length == n
    {}

    static method Buffers()
      returns (parity: array<Byte>, key: array<Byte>, codewords: array<Byte>, previous: array<Byte>, raster: array<Byte>,
               scratch: array<Byte>)
      ensures codewords.Length == CODEWORDS
      ensures fresh(parity) && fresh(key) && fresh(codewords) && fresh(previous) && fresh(raster) && fresh(scratch)
      ensures AllOf(parity, PAYLOAD, 0) && AllOf(key, PAYLOAD, 0) && parity != key
      ensures AllOf(codewords, CODEWORDS, 0) && AllOf(previous, CODEWORDS, 0) && codewords != previous
      ensures AllOf(raster, RASTER, 0) && AllOf(scratch, RASTER, 0) && raster != scratch
    {
      hide *;
      parity := Calloc(PAYLOAD, 0);
      key := Calloc(PAYLOAD, 0);
      codewords := Calloc(CODEWORDS, 0);
      assert codewords.Length == CODEWORDS by { CallocLength(codewords, CODEWORDS, 0); }
      previous := Calloc(CODEWORDS, 0);
      raster := Calloc(RASTER, 0);
      scratch := Calloc(RASTER, 0);
    }

    static ghost predicate AllOf<T>(a: array<T>, n: nat, x: T)
      reads a
    {
      a.Length == n && forall i :: 0 <= i < n ==> a[i] == x
    }

    // A new object is in the initial state.
    lemma Blank()
      requires parity != key && codewords != previous && raster != scratch && GoodConfig(c) && vga.Valid()
      requires AllOf(scratch, RASTER, 0) && AllOf(slots, SLOTS, EmptySlot()) && AllOf(history, 3, Zeros(PAYLOAD)) && AllOf(historyGlobal, 3, 0)
      requires AllOf(parity, PAYLOAD, 0) && AllOf(key, PAYLOAD, 0) && AllOf(headers, PLANES, Zeros(HEADER))
      requires AllOf(codewords, CODEWORDS, 0) && AllOf(previous, CODEWORDS, 0) && AllOf(raster, RASTER, 0)
      requires tail == 0 && preparing == None && ready == 0 && nextOrdinal == 0 && global == head == count == 0
      requires record == Zeros(PAYLOAD) && input == Zeros(DATA_CODEWORDS) && keyIndex == None
      requires encoder.result == codewords && encoder.table == c.printer.table && encoder.block == 0
      requires encoded == Zeros(CODEWORDS) && !rasterReady && phase == Begin && position == 0
      requires !zeroReady && zeroRaster == Zeros(RASTER) && !zeroCached
      requires group == None && symbol == 0 && !active && reserved == None && !tailPending && log == []
      requires forall s, p :: 0 <= s < SLOTS && 0 <= p < PLANES ==> vga.Plane(s, p) == White()
      requires vga.slot == 0 && vga.mask == [false, false, false, false] && expected == Zeros(RASTER) && integrity
      ensures Valid() && Now() == Initial()
    {
      hide GoodConfig, Shaped;
      BlankWork();
      BlankScreen();
      assert slots[..] == seq(SLOTS, _ => EmptySlot());
      assert history[..] == [Zeros(PAYLOAD), Zeros(PAYLOAD), Zeros(PAYLOAD)] && historyGlobal[..] == [0, 0, 0];
      InitialShape(c);
    }

    lemma BlankWork()
      requires AllOf(parity, PAYLOAD, 0) && AllOf(key, PAYLOAD, 0) && AllOf(headers, PLANES, Zeros(HEADER))
      requires AllOf(codewords, CODEWORDS, 0) && AllOf(previous, CODEWORDS, 0) && AllOf(raster, RASTER, 0)
      ensures parity[..] == Zeros(PAYLOAD) == key[..] && headers[..] == seq(PLANES, _ => Zeros(HEADER))
      ensures previous[..] == Zeros(CODEWORDS) == codewords[..] && raster[..] == Zeros(RASTER)
    {
    }

    lemma BlankScreen()
      requires Wired()
      requires forall s, p :: 0 <= s < SLOTS && 0 <= p < PLANES ==> vga.Plane(s, p) == White()
      ensures vga.Slots() == seq(SLOTS, _ => seq(PLANES, _ => White()))
    {
      forall s | 0 <= s < SLOTS ensures vga.Slot(s) == seq(PLANES, _ => White()) {
        var planes := vga.Slot(s);
        assert forall p :: 0 <= p < PLANES ==> planes[p] == White();
      }
    }

    // The first free, unreserved slot from tail on; tail itself if there is none.
    method ScanSlot() returns (s: nat)
      requires slots.Length == SLOTS && ShapedQueue(QueueNow())
      ensures s < SLOTS
      ensures var found := ScanFree(QueueNow(), reserved, 0);
              s == if found.Some? then found.value else tail
    {
      ghost var q := QueueNow();
      for i := 0 to SLOTS
        invariant ScanFree(q, reserved, 0) == ScanFree(q, reserved, i)
      {
        var at := (tail + i) % SLOTS;
        if reserved != Some(at) && slots[at].state == Free { return at; }
      }
      s := tail;
    }

    // memset of the parity accumulator, and the producer back to its first phase.
    method ResetWork()
      requires Wired() && ShapedWork(WorkNow()) && Encoding() && phase.Begin?
      modifies this`phase, this`position, parity
      ensures Encoding()
      ensures phase.Begin? && WorkNow() == Claimant(old(WorkNow()))
    {
      for k := 0 to PAYLOAD
        invariant forall j :: 0 <= j < k ==> parity[j] == 0
      {
        parity[k] := 0;
      }
      assert parity[..] == Zeros(PAYLOAD);
      phase, position := Begin, 0;
    }

    // The refusals of prepare_group_claim before any slot is looked at.
    method ClaimableRange() returns (range: Claimed)
      requires Wired() && GoodPlan(c.plan) && |c.records| == c.plan.total
      requires ShapedStream(c, StreamNow()) && ShapedQueue(QueueNow())
      ensures range == Claimable(c, StreamNow(), QueueNow())
    {
      hide ClaimRange, GoodPlan, HistoryIndex;
      if preparing.Some? || ready >= SLOTS || global >= c.plan.total { return Refused; }
      range := ClaimRange(c.plan, global);
      if range.Claimed? && range.overlap > 0 {
        if count < range.overlap || historyGlobal[HistoryAt(count - range.overlap)] != range.start { return Refused; }
      }
    }

    // The slot's new contents; it becomes the group being prepared.
    method Take(s: nat, range: Claimed)
      requires slots.Length == SLOTS && s < SLOTS && GoodPlan(c.plan) && global < c.plan.total
      requires range == ClaimRange(c.plan, global) && range.Claimed? && Bounded()
      modifies this`tail, this`preparing, this`nextOrdinal, slots
      ensures Bounded() && preparing == Some(s)
      ensures QueueNow() == Queue(old(slots[..])[s := ClaimedSlot(c.plan, global, old(nextOrdinal) + 1, range)], s, Some(s), ready,
                                  old(nextOrdinal) + 1)
    {
      hide ClaimRange, GoodPlan;
      slots[s] := ClaimedSlot(c.plan, global, nextOrdinal + 1, range);
      tail, preparing, nextOrdinal := s, Some(s), nextOrdinal + 1;
    }

    lemma BeginSettled()
      requires phase.Begin? && preparing.Some? && preparing.value < slots.Length
      ensures Settled()
    {}

    // prepare_group_claim.
    method Claim() returns (ok: bool)
      requires Wired() && GoodPlan(c.plan) && |c.records| == c.plan.total
      requires ShapedStream(c, StreamNow()) && ShapedQueue(QueueNow()) && ShapedWork(WorkNow())
      requires Encoding() && Bounded() && Settled()
      modifies this`tail, this`preparing, this`nextOrdinal, this`phase, this`position, slots, parity
      ensures Encoding() && Bounded() && Settled()
      ensures var q := Sender.Claim(c, old(StreamNow()), old(QueueNow()), reserved);
              if ok then q == Some(QueueNow()) && WorkNow() == Claimant(old(WorkNow()))
              else q == None && QueueNow() == old(QueueNow()) && WorkNow() == old(WorkNow())
    {
      hide ScanFree, Claimable, ClaimRange, ClaimedSlot, GoodPlan, ShapedStream, ShapedQueue, ShapedWork, WorkNow, Claimant, Encoding, Bounded, Settled;
      ok := false;
      var range := ClaimableRange();
      if range.Claimed? {
        var s := ScanSlot();
        if slots[s].state == Free {
          WaitsAtStart();
          Take(s, range);
          ResetWork();
          BeginSettled();
          ok := true;
        }
      }
    }

    // history_index.
    function HistoryAt(logical: int): (i: nat)
      reads this`count, this`head, this`global, history, historyGlobal
      ensures i < 3 && i == HistoryIndex(StreamNow(), logical)
    {
      ((if count < 3 then 0 else head) + logical) % 3
    }

    // earliest_ready_group and next_ready_group.
    method BestReady(after: int) returns (best: Option<nat>)
      requires slots.Length == SLOTS
      ensures best == Sender.BestReady(slots[..], after, SLOTS)
    {
      best := None;
      for i := 0 to SLOTS
        invariant best == Sender.BestReady(slots[..], after, i)
      {
        if slots[i].state == Ready && slots[i].ordinal > after &&
           (best.None? || slots[i].ordinal < slots[best.value].ordinal) {
          best := Some(i);
        }
      }
    }

    // choose_tail_slot.
    method ChooseTail() returns (r: Option<nat>)
      requires Wired() && ShapedQueue(QueueNow())
      ensures r == TailSlot(Now(), 0)
    {
      ghost var s := Now();
      for i := 0 to SLOTS
        invariant TailSlot(s, 0) == TailSlot(s, i)
      {
        if slots[i].state == Free && reserved != Some(i) && group != Some(i) { return Some(i); }
      }
      r := None;
    }

    // stream_next: the record, already produced, enters the history.
    method StreamNext() returns (r: Option<Bytes>)
      requires Wired() && ShapedStream(c, StreamNow()) && forall i :: 0 <= i < |c.records| ==> |c.records[i]| == PAYLOAD
      modifies this`global, this`head, this`count, history, historyGlobal
      ensures r == if old(global) < |c.records| then Some(c.records[old(global)]) else None
      ensures r.Some? ==> StreamNow() == Advanced(c, old(StreamNow()))
      ensures r.None? ==> StreamNow() == old(StreamNow())
    {
      if global >= |c.records| { return None; }
      r := Some(c.records[global]);
      history[head] := c.records[global];
      historyGlobal[head] := global;
      head := (head + 1) % 3;
      if count < 3 { count := count + 1; }
      global := global + 1;
    }

    // The record of the basis plane to prepare.
    method Fetch(g: Slot) returns (r: Option<Bytes>)
      requires Wired() && GoodPlan(c.plan) && |c.records| == c.plan.total && g.stage < c.plan.width
      requires ShapedStream(c, StreamNow()) && ShapedWork(WorkNow())
      requires forall i :: 0 <= i < |c.records| ==> |c.records[i]| == PAYLOAD
      modifies this`global, this`head, this`count, history, historyGlobal
      ensures r.Some? ==> |r.value| == PAYLOAD
      ensures var b := BeginBasis(c, old(StreamNow()), g, WorkNow());
              && (r.Some? <==> b.Some?)
              && (r.Some? ==> StreamNow() == b.value.stream && b.value.work == BasisWork(c, g, WorkNow(), r.value))
    {
      hide ShapedWork, WorkNow, BasisWork, Place, WindowCount, HistoryIndex, Advanced, GoodPlan;
      if g.stage < g.overlap {
        return Some(history[HistoryAt(count - g.overlap + g.stage)]);
      }
      if global >= c.plan.total { return None; }
      if Place(c.plan, global) != g.windowIndex + g.stage || WindowCount(c.plan, global) != g.windowCount { return None; }
      r := StreamNext();
    }

    method AddParity(r: Bytes)
      requires parity.Length == PAYLOAD == |r|
      modifies parity
      ensures parity[..] == Xor(old(parity[..]), r)
    {
      hide Add;
      for k := 0 to PAYLOAD
        invariant forall j :: 0 <= j < PAYLOAD ==> parity[j] == if j < k then Add(old(parity[j]), r[j]) else old(parity[j])
      {
        parity[k] := Add(parity[k], r[k]);
      }
    }

    // The keystream is kept while the group lasts.
    method EnsureKey(start: nat)
      requires Wired() && start < 0x1_0000_0000 && ShapedWork(WorkNow())
      modifies this`keyIndex, key
      ensures WorkNow() == Keyed(c, old(WorkNow()), start)
    {
      hide Seed, ToWord, Whitening.Stream;
      if keyIndex != Some(start) {
        GenerateKeystream(key, ToWord(c.session), ToWord(start));
        keyIndex := Some(start);
      }
    }

    // The record joins the parity, its frame the input of a fresh encoder.
    method FillFrame(p: nat, r: Bytes, wire: Bytes)
      requires Wired() && ShapedTable(c.printer.table) && ShapedWork(WorkNow())
      requires p < PLANES && |r| == PAYLOAD && |wire| == HEADER + PAYLOAD
      modifies this`record, this`input, this`phase, this`position, this`encoder, parity, headers
      ensures WorkNow() == Filled(old(WorkNow()), p, r, wire)
      ensures Encoding() && fresh(encoder)
    {
      hide ShapedTable, Xor, Zeros, Input;
      AddParity(r);
      headers[p] := wire[..HEADER];
      record, input := r, Input(wire);
      encoder := new Encoder(c.printer.table, input, codewords);
      phase, position := Encode, 0;
    }

    // BASIS_BEGIN past the record.
    method FillBasis(g: Slot, r: Bytes)
      requires Wired() && GoodPlan(c.plan) && ShapedTable(c.printer.table) && ShapedWork(WorkNow())
      requires g.stage < c.plan.width && |r| == PAYLOAD
      modifies this`record, this`keyIndex, this`input, this`phase, this`position, this`encoder, parity, headers, key
      ensures WorkNow() == BasisWork(c, g, old(WorkNow()), r)
      ensures Encoding() && fresh(encoder)
    {
      hide KeyedWire, ShapedTable, Keyed, Filled, Encoding;
      EnsureKey(g.start);
      FillFrame(g.stage, r, KeyedWire(c, g, COEFFICIENTS[g.stage], r, key[..]));
    }

    // BASIS_BEGIN.
    method BeginPlane(g: Slot) returns (ok: bool)
      requires Wired() && GoodPlan(c.plan) && |c.records| == c.plan.total && ShapedTable(c.printer.table)
      requires ShapedStream(c, StreamNow()) && ShapedWork(WorkNow()) && g.stage < c.plan.width
      requires forall i :: 0 <= i < |c.records| ==> |c.records[i]| == PAYLOAD
      modifies this`global, this`head, this`count, history, historyGlobal
      modifies this`record, this`keyIndex, this`input, this`phase, this`position, this`encoder, parity, headers, key
      ensures var b := BeginBasis(c, old(StreamNow()), g, old(WorkNow()));
              if ok then b == Some(Begun(StreamNow(), WorkNow())) else b == None
      ensures encoder == old(encoder) || fresh(encoder)
      ensures ok ==> Encoding() && fresh(encoder)
    {
      hide BeginBasis, BasisWork, ShapedStream, ShapedWork, StreamNow, WorkNow, GoodPlan, ShapedTable, Encoding;
      var r := Fetch(g);
      if r.None? { return false; }
      FillBasis(g, r.value);
      ok := true;
    }

    // BASIS_ENCODE: up to five blocks.
    method EncodePlane()
      requires Wired() && phase.Encode? && Encoding() && ShapedTable(c.printer.table) && ShapedWork(WorkNow())
      modifies this`phase, this`encoded, encoder`dataOffset, encoder`block, codewords
      ensures WorkNow() == EncodeWork(c, old(WorkNow())) && Encoding()
    {
      hide ShapedTable, Codewords;
      var rc := 0;
      ghost var first := encoder.block;
      var blocks := ENCODE_BLOCKS;
      while rc == 0 && blocks != 0
        invariant encoder.Valid() && encoder.data == input && encoder.result == codewords && encoder.table == c.printer.table
        invariant phase == old(phase) && encoded == old(encoded)
        invariant rc == 0 || rc == 1
        invariant rc == 0 ==> encoder.block < BLOCKS && encoder.block == first + ENCODE_BLOCKS - blocks
        invariant rc == 1 ==> first + ENCODE_BLOCKS >= BLOCKS && encoder.block == BLOCKS && codewords[..] == Codewords(c.printer.table, input)
      {
        rc := encoder.Step();
        blocks := blocks - 1;
      }
      if rc == 1 {
        encoded := codewords[..];
        phase := if rasterReady then Delta else Matrix;
      }
    }

    // BASIS_DELTA.
    method DeltaPlane()
      requires Wired() && phase.Delta? && Encoding() && ShapedMap(c.printer.map32) && ShapedWork(WorkNow())
      modifies this`phase, this`position, previous, raster
      ensures WorkNow() == DeltaWork(c, old(WorkNow())) && Encoding()
    {
      hide ShapedMap, Scatter, Xor;
      var n := if DELTA_CHUNK > CODEWORDS - position then CODEWORDS - position else DELTA_CHUNK;
      DeltaRange(c.printer.map32, codewords[..], previous, raster, position, n);
      position := position + n;
      if position >= CODEWORDS { phase := Phase.Store; }
    }

    // The matrix path: template and scatter from scratch.
    method MatrixRaster(cw: Bytes)
      requires Wired() && |cw| == CODEWORDS && ShapedMap(c.printer.map32) && |c.printer.template| == RASTER
      modifies this`rasterReady, previous, raster
      ensures rasterReady && raster[..] == Canonical(c.printer.template, c.printer.map32, cw) && previous[..] == cw
    {
      hide ShapedMap, Canonical;
      var r := Canonical(c.printer.template, c.printer.map32, cw);
      forall i | 0 <= i < RASTER { raster[i] := r[i]; }
      assert raster[..] == r;
      forall i | 0 <= i < CODEWORDS { previous[i] := cw[i]; }
      assert previous[..] == cw;
      rasterReady := true;
    }

    // BASIS_MATRIX.
    method MatrixPlane()
      requires Wired() && phase.Matrix? && Encoding() && ShapedWork(WorkNow())
      requires ShapedMap(c.printer.map32) && |c.printer.template| == RASTER
      modifies this`phase, this`rasterReady, previous, raster
      ensures WorkNow() == MatrixWork(c, old(WorkNow())) && Encoding()
    {
      hide ShapedMap, Canonical;
      MatrixRaster(codewords[..]);
      phase := Phase.Store;
    }

    // ----- video memory

    // The planes after one of them changed.
    lemma PlanesAre(before: seq<seq<Bytes>>, s: nat, p: nat, r: Bytes)
      requires Wired() && s < SLOTS && p < PLANES && |r| == RASTER
      requires |before| == SLOTS && forall s' :: 0 <= s' < SLOTS ==> |before[s']| == PLANES
      requires vga.Plane(s, p) == r
      requires forall s', p' :: 0 <= s' < SLOTS && 0 <= p' < PLANES && (p' != p || s' != s) ==> vga.Plane(s', p') == before[s'][p']
      ensures vga.Slots() == before[s := before[s][p := r]]
    {
      var after := before[s := before[s][p := r]];
      forall s' | 0 <= s' < SLOTS ensures vga.Slot(s') == after[s'] {}
    }

    // The host's check after every write: a selected symbol must not change.
    method Check()
      requires Wired() && vga.Valid()
      modifies this`integrity
      ensures integrity == (old(integrity) && (vga.mask == DARK || Compose(vga.Slots()[vga.slot], vga.mask) == expected))
    {
      if vga.mask != DARK && vga.Visible() != expected { integrity := false; }
    }

    method Write(s: nat, p: nat, r: Bytes)
      requires Wired() && vga.Valid() && ShapedScreen(ScreenNow()) && s < SLOTS && p < PLANES && |r| == RASTER
      modifies this`integrity, vga.memory
      ensures ScreenNow() == Written(old(ScreenNow()), s, p, r)
    {
      hide Compose;
      ghost var before := vga.Slots();
      var ok := vga.StoreFast(p, s, r);
      PlanesAre(before, s, p, r);
      Check();
    }

    // store_basis_plane.
    method StoreBasis(s: nat, p: nat)
      requires Wired() && vga.Valid() && ShapedScreen(ScreenNow()) && s < SLOTS && p < PLANES
      modifies this`integrity, vga.memory
      ensures ScreenNow() == Stored(c, old(ScreenNow()), s, p, WorkNow().raster)
    {
      hide Compose, Upload;
      ghost var before := vga.Slots();
      var ok;
      if c.partialVga {
        ok := vga.StoreQr(p, s, raster[..], QR);
      } else {
        ok := vga.StoreFast(p, s, raster[..]);
      }
      PlanesAre(before, s, p, vga.Plane(s, p));
      Check();
    }

    // apply_group_correction and restore_group_correction past their guards.
    method Toggle(s: nat)
      requires Wired() && vga.Valid() && ShapedScreen(ScreenNow()) && s < SLOTS && |zeroRaster| == RASTER && ShapedWork(WorkNow())
      requires ShapedPatches(slots[s].patches) && |slots[s].patches| <= MAX_PATCHES
      modifies this`integrity, vga.memory
      ensures ScreenNow() == Toggled(c, old(ScreenNow()), s, WorkNow(), slots[s].patches)
    {
      hide Compose, Corrected, ShapedPatches, ShapedWork;
      ghost var before := vga.Slots();
      var ok := vga.Correct(0, s, if c.plan.width == 4 then Some(zeroRaster) else None, slots[s].patches);
      PlanesAre(before, s, 0, vga.Plane(s, 0));
      Check();
    }

    // show_plane_symbol.
    method Select(s: nat, mask: seq<bool>)
      requires Wired() && vga.Valid() && ShapedScreen(ScreenNow()) && s < SLOTS && |mask| == PLANES && mask != DARK
      modifies this`expected, vga
      ensures vga.Valid() && ScreenNow() == Selected(old(ScreenNow()), s, mask)
    {
      hide Compose;
      var ok := vga.Show(s, mask);
      expected := vga.Visible();
    }

    // vga32_show_data_qr.
    method ShowData(s: nat)
      requires Wired() && vga.Valid() && ShapedScreen(ScreenNow()) && s < SLOTS
      modifies this`expected, this`integrity, vga, vga.memory
      ensures vga.Valid() && ScreenNow() == Sender.ShownTail(old(ScreenNow()), s, raster[..])
    {
      hide Written, Selected, ShapedScreen;
      var r := raster[..];
      Write(s, 0, r);
      Write(s, 1, r);
      Write(s, 2, r);
      Write(s, 3, r);
      Select(s, [true, true, true, true]);
    }

    // ----- the correction of a complete group

    // The parity frame's header against the headers of the members.
    method HeaderDifference(g: Slot) returns (d: Bytes)
      requires Wired() && GoodPlan(c.plan) && ShapedWork(WorkNow())
      ensures d == SlotHeaderDelta(c, g, WorkNow())
    {
      hide Wire, Xor, XorAll;
      var wire := Wire(SlotFrame(c, g, if c.plan.width == 3 then 7 else 15, parity[..]));
      ghost var first := wire[..HEADER];
      ghost var list := headers[..c.plan.width];
      d := wire[..HEADER];
      NoHeaders(first, list);
      for p := 0 to c.plan.width
        invariant |d| == HEADER && d == Xor(first, XorAll(list[..p], HEADER))
      {
        NextHeader(first, list, p);
        d := Xor(d, headers[p]);
      }
      assert list[..c.plan.width] == list;
    }

    method CacheZero()
      requires Good(c.printer) && Cached()
      modifies this`zeroCached, this`zeroCodewords
      ensures Cached() && zeroCached
    {
      hide LinearTable, ShapedMap, Codewords, HeaderData;
      if !zeroCached {
        var zero := new Byte[CODEWORDS];
        HeaderCorrection(c.printer.table, Zeros(HEADER), zero);
        zeroCodewords, zeroCached := zero[..], true;
      }
    }

    // The zero symbol: its codewords and its raster, each built on first use.
    method ZeroSymbol()
      requires Wired() && Good(c.printer) && ShapedWork(WorkNow()) && Cached()
      modifies this`zeroReady, this`zeroRaster, this`zeroCached, this`zeroCodewords
      ensures Cached() && zeroCached && WorkNow() == CorrectionWork(c, old(WorkNow()))
    {
      hide LinearTable, ShapedMap, Canonical, Codewords, ShapedWork, HeaderData;
      CacheZero();
      if !zeroReady {
        zeroRaster := Canonical(c.printer.template, c.printer.map32, zeroCodewords);
        zeroReady := true;
      }
    }

    // qr_prepare_correction_patches.
    method CorrectionPatches(g: Slot) returns (ok: bool, patches: seq<Patch>)
      requires Wired() && GoodPlan(c.plan) && Good(c.printer) && ShapedWork(WorkNow()) && Cached() && zeroCached
      modifies scratch
      ensures var p := SlotPatches(c, g, old(WorkNow()));
              if ok then p == Some(patches) && |patches| <= MAX_PATCHES else p == None
    {
      hide LinearTable, ShapedMap, Codewords, Scatter, NonZero, PatchesUpTo, SlotHeaderDelta, ShapedPatches, WorkNow, ShapedWork, Xor, HeaderData;
      var delta := HeaderDifference(g);
      var correction := new Byte[CODEWORDS];
      HeaderCorrection(c.printer.table, delta, correction);
      ok, patches := PreparePatches(c.printer.map32, zeroCodewords, correction[..], scratch);
      PatchTotal(SlotDifference(c, g, WorkNow()));
    }

    // ----- prepare_group_step

    // What Valid says, component by component.
    lemma Parts()
      requires Valid()
      ensures GoodConfig(c) && |c.records| == c.plan.total && forall i :: 0 <= i < |c.records| ==> |c.records[i]| == PAYLOAD
      ensures ShapedTable(c.printer.table) && ShapedMap(c.printer.map32) && |c.printer.template| == RASTER
      ensures Wired() && vga.Valid() && Encoding() && Bounded() && GoodPlan(c.plan) && Good(c.printer) && Cached()
      ensures ShapedStream(c, StreamNow()) && ShapedQueue(QueueNow()) && ShapedWork(WorkNow()) && ShapedScreen(ScreenNow())
      ensures Shaped(c, Now()) && Settled()
      ensures Now() == State(StreamNow(), QueueNow(), WorkNow(), Playback(group, symbol, active), ScreenNow(), reserved, tailPending, log)
    {
      hide StreamNow, QueueNow, WorkNow, ShapedStream, ShapedQueue, ShapedWork, Encoding, LinearTable, Codewords, Bounded, Settled;
      ConfigParts(c);
    }

    lemma NowIs()
      requires Wired()
      ensures Now() == State(StreamNow(), QueueNow(), WorkNow(), Playback(group, symbol, active), ScreenNow(), reserved, tailPending, log)
    {
      hide StreamNow, QueueNow, WorkNow, ScreenNow;
    }

    lemma Sizes()
      requires Wired()
      ensures slots.Length == |QueueNow().slots| == SLOTS && QueueNow().slots == slots[..] && QueueNow().preparing == preparing
      ensures phase == WorkNow().phase && StreamNow().global == global && QueueNow().ready == ready
      ensures scratch.Length == raster.Length == RASTER && codewords.Length == previous.Length == CODEWORDS
      ensures parity.Length == key.Length == PAYLOAD && history.Length == historyGlobal.Length == 3 && headers.Length == PLANES
      ensures raster != scratch
      ensures Settled() && preparing.Some? && preparing.value < SLOTS && slots[preparing.value].stage == c.plan.width ==> phase.Begin?
    {}

    lemma Whole()
      requires Wired() && GoodConfig(c) && Shaped(c, Now()) && Encoding() && Bounded() && Settled()
      requires Good(c.printer) && Cached()
      ensures Valid()
    {
      hide GoodConfig, Shaped, Now, Encoding, Bounded, Good, Cached, Settled;
    }

    lemma Assembled(t: State)
      requires Wired() && GoodConfig(c) && Shaped(c, t) && Encoding() && Bounded() && Settled()
      requires Good(c.printer) && Cached()
      requires t == State(StreamNow(), QueueNow(), WorkNow(), Playback(group, symbol, active), ScreenNow(), reserved, tailPending, log)
      ensures Valid() && Now() == t
    {
      hide *;
      NowIs();
      Whole();
    }

    method MarkStored(i: nat)
      requires Wired() && ShapedQueue(QueueNow()) && i < SLOTS && phase.Store? && Encoding() && Bounded()
      modifies this`phase, slots
      ensures QueueNow() == var q := old(QueueNow()); q.(slots := q.slots[i := q.slots[i].(stage := q.slots[i].stage + 1)])
      ensures WorkNow() == old(WorkNow()).(phase := Begin)
      ensures Encoding() && Bounded() && phase.Begin?
    {
      slots[i] := slots[i].(stage := slots[i].stage + 1);
      phase := Begin;
    }

    // BASIS_STORE.
    method StorePlane(i: nat)
      requires Valid() && preparing == Some(i) && i < SLOTS && slots[i].stage < c.plan.width && phase.Store?
      modifies this`phase, this`integrity, slots, vga.memory
      ensures Valid() && Now() == StoreStep(c, old(Now()), i)
    {
      hide GoodConfig, Good, Valid, StreamNow, WorkNow, ScreenNow, ShapedStream, ShapedWork, ShapedScreen, ShapedQueue, Encoding, Cached, Bounded, Stored;
      Parts();
      ghost var t := StoreStep(c, Now(), i);
      StoreBasis(i, slots[i].stage);
      MarkStored(i);
      assert Now() == t;
      Whole();
    }

    method MarkReady(i: nat, patches: seq<Patch>)
      requires Wired() && ShapedQueue(QueueNow()) && i < SLOTS && !phase.Encode? && Encoding() && Bounded()
      requires ShapedPatches(patches) && |patches| <= MAX_PATCHES
      modifies this`phase, this`tail, this`preparing, this`ready, slots
      ensures QueueNow() == Completed(old(QueueNow()), i, patches)
      ensures WorkNow() == old(WorkNow()).(phase := Begin)
      ensures Encoding() && Bounded() && Settled()
    {
      hide ShapedPatches;
      slots[i] := slots[i].(state := Ready, patches := patches);
      ready := ready + 1;
      tail := (tail + 1) % SLOTS;
      preparing := None;
      phase := Begin;
    }

    method CorrectGroup(g: Slot) returns (ok: bool, patches: seq<Patch>)
      requires Wired() && GoodPlan(c.plan) && Good(c.printer) && ShapedWork(WorkNow()) && Cached()
      modifies this`zeroReady, this`zeroRaster, this`zeroCached, this`zeroCodewords, scratch
      ensures Cached() && ShapedWork(WorkNow()) && WorkNow() == CorrectionWork(c, old(WorkNow()))
      ensures SlotPatches(c, g, WorkNow()) == if ok then Some(patches) else None
      ensures ok ==> |patches| <= MAX_PATCHES
    {
      hide CorrectionWork, WorkNow, ShapedWork, SlotPatches, GoodPlan, Good, Cached;
      ZeroSymbol();
      ok, patches := CorrectionPatches(g);
    }

    method Complete(i: nat, patches: seq<Patch>, ghost s: State)
      requires Wired() && GoodConfig(c) && Good(c.printer) && Cached() && Encoding() && Bounded() && i < SLOTS && !phase.Encode?
      requires Shaped(c, s) && ShapedWork(WorkNow()) && ShapedPatches(patches) && |patches| <= MAX_PATCHES
      requires ShapedQueue(QueueNow()) && Now() == s.(work := WorkNow())
      modifies this`phase, this`tail, this`preparing, this`ready, slots
      ensures Valid() && Now() == Sender.Finish(c, s, i, old(WorkNow()), patches)
    {
      hide GoodConfig, Good, Valid, StreamNow, WorkNow, ScreenNow, ShapedStream, ShapedWork, ShapedScreen, ShapedQueue, Encoding, Cached, Bounded, Completed, ShapedPatches,
           Sender.Finish, Shaped, GoodPlan, Now, Settled, QueueNow, Wired;
      NowIs();
      FinishIs(c, s, i, WorkNow(), patches);
      MarkReady(i, patches);
      NowIs();
      Whole();
    }

    // The correction step: the group becomes ready.
    method FinishGroup(i: nat) returns (ok: bool)
      requires Valid() && preparing == Some(i) && i < SLOTS && slots[i].stage == c.plan.width
      modifies this`zeroReady, this`zeroRaster, this`zeroCached, this`zeroCodewords, scratch
      modifies this`phase, this`tail, this`preparing, this`ready, slots
      ensures var r := ReadyStep(c, old(Now()), i);
              if ok then Valid() && r == Some(Now()) else r == None
    {
      hide GoodConfig, Good, Valid, StreamNow, WorkNow, ScreenNow, ShapedStream, ShapedWork, ShapedScreen, ShapedQueue, Encoding, Cached, Bounded, SlotPatches, CorrectionWork, Completed,
           ShapedPatches, Sender.Finish, Shaped, ReadyStep, GoodPlan, Now, Settled, QueueNow, Wired;
      Parts();
      Sizes();
      ghost var s := Now();
      var patches;
      ok, patches := CorrectGroup(slots[i]);
      ReadyIs(c, s, i, if ok then Some(patches) else None);
      if ok {
        NowIs();
        Complete(i, patches, s);
      }
    }

    // A producer that is inside the basis planes may be in any phase.
    lemma InPlane()
      requires preparing.Some? && preparing.value < slots.Length && slots[preparing.value].stage != c.plan.width
      ensures Settled()
    {}

    method EncodeStep(i: nat)
      requires Valid() && preparing == Some(i) && i < SLOTS && slots[i].stage < c.plan.width && phase.Encode?
      modifies this`phase, this`encoded, encoder`dataOffset, encoder`block, codewords
      ensures Valid() && Some(Now()) == BasisStep(c, old(Now()), i)
    {
      hide GoodConfig, Good, Valid, StreamNow, WorkNow, ScreenNow, QueueNow, ShapedStream, ShapedWork, ShapedScreen, ShapedQueue, Encoding, Cached, Bounded,
           Now, Settled, Wired, GoodPlan, EncodeWork, Shaped, BasisStep;
      Parts();
      Sizes();
      ghost var s := Now();
      EncodePlane();
      BasisIs(c, s, i);
      InPlane();
      Assembled(s.(work := WorkNow()));
    }

    method DeltaStep(i: nat)
      requires Valid() && preparing == Some(i) && i < SLOTS && slots[i].stage < c.plan.width && phase.Delta?
      modifies this`phase, this`position, previous, raster
      ensures Valid() && Some(Now()) == BasisStep(c, old(Now()), i)
    {
      hide GoodConfig, Good, Valid, StreamNow, WorkNow, ScreenNow, QueueNow, ShapedStream, ShapedWork, ShapedScreen, ShapedQueue, Encoding, Cached, Bounded,
           Now, Settled, Wired, GoodPlan, DeltaWork, Shaped, BasisStep;
      Parts();
      Sizes();
      ghost var s := Now();
      DeltaPlane();
      BasisIs(c, s, i);
      InPlane();
      Assembled(s.(work := WorkNow()));
    }

    method MatrixStep(i: nat)
      requires Valid() && preparing == Some(i) && i < SLOTS && slots[i].stage < c.plan.width && phase.Matrix?
      modifies this`phase, this`rasterReady, previous, raster
      ensures Valid() && Some(Now()) == BasisStep(c, old(Now()), i)
    {
      hide GoodConfig, Good, Valid, StreamNow, WorkNow, ScreenNow, QueueNow, ShapedStream, ShapedWork, ShapedScreen, ShapedQueue, Encoding, Cached, Bounded,
           Now, Settled, Wired, GoodPlan, MatrixWork, Shaped, BasisStep;
      Parts();
      Sizes();
      ghost var s := Now();
      MatrixPlane();
      BasisIs(c, s, i);
      InPlane();
      Assembled(s.(work := WorkNow()));
    }

    method BeginStep(i: nat) returns (ok: bool)
      requires Valid() && preparing == Some(i) && i < SLOTS && slots[i].stage < c.plan.width && phase.Begin?
      modifies this`global, this`head, this`count, history, historyGlobal
      modifies this`record, this`keyIndex, this`input, this`phase, this`position, this`encoder, parity, headers, key
      ensures var r := BasisStep(c, old(Now()), i);
              if ok then Valid() && r == Some(Now()) else r == None
      ensures encoder == old(encoder) || fresh(encoder)
    {
      hide GoodConfig, Good, Valid, StreamNow, WorkNow, ScreenNow, QueueNow, ShapedStream, ShapedWork, ShapedScreen, ShapedQueue, Encoding, Cached, Bounded,
           Now, Settled, Wired, GoodPlan, BeginBasis, Shaped, BasisStep;
      Parts();
      Sizes();
      ghost var s := Now();
      ok := BeginPlane(slots[i]);
      BasisIs(c, s, i);
      if ok {
        InPlane();
        Assembled(s.(stream := StreamNow(), work := WorkNow()));
      }
    }

    // Everything a call may touch.
    ghost function Repr(): set<object>
      reads this
    {
      {this, slots, history, historyGlobal, parity, headers, key, codewords, previous, raster, scratch, encoder, vga, vga.memory}
    }

    // prepare_group_step.
    method GroupStep() returns (ok: bool)
      requires Valid() && preparing.Some?
      modifies Repr()
      ensures encoder == old(encoder) || fresh(encoder)
      ensures var r := Step(c, old(Now()));
              if ok then Valid() && r == Some(Now()) else r == None
    {
      hide GoodConfig, Good, Valid, StreamNow, WorkNow, ScreenNow, QueueNow, ShapedStream, ShapedWork, ShapedScreen, ShapedQueue, Encoding, Cached, Bounded,
           Now, Settled, Wired, GoodPlan, Shaped, BasisStep, ReadyStep, StoreStep;
      Parts();
      Sizes();
      PreparingSlot(c, Now());
      var i := preparing.value;
      ok := true;
      if slots[i].stage < c.plan.width {
        BasisIs(c, Now(), i);
        match phase
        case Begin => ok := BeginStep(i);
        case Encode => EncodeStep(i);
        case Delta => DeltaStep(i);
        case Matrix => MatrixStep(i);
        case Store => StorePlane(i);
      } else if slots[i].stage == c.plan.width {
        ok := FinishGroup(i);
      }
    }

    // ----- playback

    // What playback needs of the object.
    ghost predicate Playable()
      reads this, slots, history, historyGlobal, parity, headers, key, previous, raster, encoder, vga, vga.memory
    {
      Wired() && vga.Valid() && Shaped(c, Now()) && Bounded() && Settled()
    }

    lemma PlayParts()
      requires Playable()
      ensures Wired() && vga.Valid() && Bounded() && Settled() && Shaped(c, Now())
      ensures ShapedStream(c, StreamNow()) && ShapedQueue(QueueNow()) && ShapedWork(WorkNow()) && ShapedScreen(ScreenNow())
      ensures Now() == State(StreamNow(), QueueNow(), WorkNow(), Playback(group, symbol, active), ScreenNow(), reserved, tailPending, log)
      ensures slots.Length == SLOTS && QueueNow().slots == slots[..] && (group.Some? ==> group.value < SLOTS) && (active ==> group.Some?)
    {
      hide StreamNow, WorkNow, ScreenNow, ShapedStream, ShapedQueue, ShapedWork, ShapedScreen, Bounded, Settled;
    }

    lemma Played(t: State)
      requires Wired() && vga.Valid() && Bounded() && Settled() && Shaped(c, t)
      requires t == State(StreamNow(), QueueNow(), WorkNow(), Playback(group, symbol, active), ScreenNow(), reserved, tailPending, log)
      ensures Playable() && Now() == t
    {
      hide Wired, Bounded, Settled, Shaped, StreamNow, QueueNow, WorkNow, ScreenNow;
    }

    // apply_group_correction (want) and restore_group_correction (not want).
    method CorrectSlot(i: nat, want: bool)
      requires Playable() && i < SLOTS
      modifies this`integrity, vga.memory, slots
      ensures Playable() && Now() == SetCorrection(c, old(Now()), i, want)
    {
      hide GoodConfig, Good, Valid, StreamNow, WorkNow, ScreenNow, QueueNow, ShapedStream, ShapedWork, ShapedScreen, ShapedQueue, Encoding, Cached, Bounded,
           Now, Settled, Wired, GoodPlan, Shaped, Playable, Toggled;
      PlayParts();
      Sizes();
      ghost var s := Now();
      if slots[i].applied != want {
        PatchesIn(i);
        Toggle(i);
        SetApplied(i, want);
      }
      Played(SetCorrection(c, s, i, want));
    }

    lemma PatchesIn(i: nat)
      requires Wired() && i < SLOTS && Bounded() && ShapedQueue(QueueNow()) && ShapedWork(WorkNow())
      ensures ShapedPatches(slots[i].patches) && |slots[i].patches| <= MAX_PATCHES && |zeroRaster| == RASTER
    {}

    method SetApplied(i: nat, want: bool)
      requires Wired() && i < SLOTS && Bounded() && Settled()
      modifies slots
      ensures Bounded() && Settled()
      ensures QueueNow() == var q := old(QueueNow()); q.(slots := q.slots[i := q.slots[i].(applied := want)])
    {
      slots[i] := slots[i].(applied := want);
    }

    method SetSlotState(i: nat, state: SlotState)
      requires Playable() && i < SLOTS
      modifies slots
      ensures Playable() && Now() == SetState(c, old(Now()), i, state)
    {
      hide GoodConfig, Good, Valid, StreamNow, WorkNow, ScreenNow, QueueNow, ShapedStream, ShapedWork, ShapedScreen, ShapedQueue, Encoding, Cached, Bounded,
           Now, Settled, Wired, GoodPlan, Shaped, Playable;
      PlayParts();
      Sizes();
      ghost var s := Now();
      MarkState(i, state);
      Played(SetState(c, s, i, state));
    }

    method MarkState(i: nat, state: SlotState)
      requires Wired() && i < SLOTS && Bounded() && Settled()
      modifies slots
      ensures Bounded() && Settled()
      ensures QueueNow() == var q := old(QueueNow()); q.(slots := q.slots[i := q.slots[i].(state := state)])
    {
      slots[i] := slots[i].(state := state);
    }

    // show_plane_symbol.
    method ShowSymbol(i: nat, mask: seq<bool>, ghost shown: Shown)
      requires Playable() && i < SLOTS && |mask| == PLANES && mask != DARK
      modifies this`expected, this`log, vga
      ensures Playable() && Now() == ShowPlane(c, old(Now()), i, mask, shown)
    {
      hide GoodConfig, Good, Valid, StreamNow, WorkNow, ScreenNow, QueueNow, ShapedStream, ShapedWork, ShapedScreen, ShapedQueue, Encoding, Cached, Bounded,
           Now, Settled, Wired, GoodPlan, Shaped, Playable, Selected;
      PlayParts();
      Sizes();
      ghost var s := Now();
      Select(i, mask);
      log := log + [shown];
      Played(ShowPlane(c, s, i, mask, shown));
    }

    lemma OneOfFour(w: nat, p: nat)
      requires (w == 3 || w == 4) && p < w
      ensures FirstPlanes(w) != DARK && OnePlane(p) != DARK && OnePlane(0) != DARK
    {
      assert FirstPlanes(w)[0] && OnePlane(p)[p] && OnePlane(0)[0];
    }

    // The next symbol of the group on screen.
    method AdvanceSymbol()
      requires Playable() && GoodPlan(c.plan) && group.Some? && symbol < c.plan.width
      modifies this`symbol, this`expected, this`integrity, this`log, vga, vga.memory, slots
      ensures Playable() && Now() == NextSymbol(c, old(Now()))
    {
      hide GoodConfig, Good, Valid, StreamNow, WorkNow, ScreenNow, QueueNow, ShapedStream, ShapedWork, ShapedScreen, ShapedQueue, Encoding, Cached, Bounded,
           Now, Settled, Wired, GoodPlan, Shaped, Playable, SetCorrection, ShowPlane;
      PlayParts();
      PlanWidth(c.plan);
      OneOfFour(c.plan.width, 0);
      ghost var s := Now();
      var i := group.value;
      symbol := symbol + 1;
      ghost var o := slots[i].ordinal;
      SymbolShape(c, s);
      Played(s.(playback := s.playback.(symbol := s.playback.symbol + 1)));
      if symbol == c.plan.width {
        CorrectSlot(i, true);
        ShowSymbol(i, FirstPlanes(c.plan.width), Parity(o));
      } else {
        OneOfFour(c.plan.width, symbol);
        ShowSymbol(i, OnePlane(symbol), Basis(o, symbol));
        if symbol == 1 { CorrectSlot(i, true); }
      }
    }

    // Start playing slot n; the group shown before is restored and released.
    method HandOver(n: nat)
      requires Playable() && n < SLOTS
      modifies this`reserved, this`ready, this`group, this`symbol, this`active
      modifies this`expected, this`integrity, this`log, vga, vga.memory, slots
      ensures Playable() && Now() == Handoff(c, old(Now()), n)
    {
      hide GoodConfig, Good, Valid, StreamNow, WorkNow, ScreenNow, QueueNow, ShapedStream, ShapedWork, ShapedScreen, ShapedQueue, Encoding, Cached, Bounded,
           Now, Settled, Wired, GoodPlan, Shaped, Playable, SetCorrection, ShowPlane, SetState, Handoff;
      PlayParts();
      OneOfFour(3, 0);
      ghost var s := Now();
      ShowSymbol(n, OnePlane(0), Basis(slots[n].ordinal, 0));
      FreeReservation();
      if group.Some? && active {
        PlayParts();
        CorrectSlot(group.value, false);
        SetSlotState(group.value, Free);
      }
      SetSlotState(n, Playing);
      StartGroup(n);
      HandoffIs(c, s, n);
    }

    method FreeReservation()
      requires Playable()
      modifies this`reserved
      ensures Playable() && Now() == old(Now()).(reserved := None)
    {
      hide GoodConfig, Good, Valid, StreamNow, WorkNow, ScreenNow, QueueNow, ShapedStream, ShapedWork, ShapedScreen, ShapedQueue, Encoding, Cached, Bounded,
           Now, Settled, Wired, GoodPlan, Shaped, Playable;
      PlayParts();
      ghost var s := Now();
      reserved := None;
      StartShape(c, s, 0);
      Played(s.(reserved := None));
    }

    method StartGroup(n: nat)
      requires Playable() && n < SLOTS
      modifies this`ready, this`group, this`symbol, this`active
      ensures Playable()
      ensures Now() == Started(old(Now()), n)
    {
      hide GoodConfig, Good, Valid, StreamNow, WorkNow, ScreenNow, ShapedStream, ShapedWork, ShapedScreen, ShapedQueue, Encoding, Cached, Bounded,
           Now, Settled, Wired, GoodPlan, Shaped, Playable;
      PlayParts();
      ghost var s := Now();
      ready := ready - 1;
      group, symbol, active := Some(n), 0, true;
      StartShape(c, s, n);
      Played(Started(s, n));
    }

    // playback_tick: 2 when the last group has been shown to the end, -1 on failure.
    method PlaybackTick(due: bool, eof: bool) returns (rc: int)
      requires Playable() && GoodPlan(c.plan)
      modifies this`reserved, this`ready, this`group, this`symbol, this`active
      modifies this`expected, this`integrity, this`log, vga, vga.memory, slots
      ensures var r := Tick(c, old(Now()), due, eof);
              if rc < 0 then r == Failed else Playable() && r == Ticked(Now(), rc == 2)
    {
      hide GoodConfig, Good, Valid, StreamNow, WorkNow, ScreenNow, QueueNow, ShapedStream, ShapedWork, ShapedScreen, ShapedQueue, Encoding, Cached, Bounded,
           Now, Settled, Wired, GoodPlan, Shaped, Playable, Handoff, NextSymbol, Sender.BestReady;
      PlayParts();
      Fields();
      ghost var s := Now();
      rc := 0;
      if !active {
        if ready == 0 { return; }
        var e := BestReady(-1);
        if e.None? { return -1; }
        HandOver(e.value);
        return 1;
      }
      if !due { return; }
      if symbol < c.plan.width {
        AdvanceSymbol();
        return 1;
      }
      var n := BestReady(slots[group.value].ordinal);
      if n.None? {
        if !eof || preparing.Some? { return; }
        active := false;
        StoppedShape(c, s);
        Played(s.(playback := s.playback.(active := false)));
        return 2;
      }
      HandOver(n.value);
      rc := 1;
    }

    lemma Fields()
      requires Wired()
      ensures QueueNow().ready == ready && QueueNow().preparing == preparing && QueueNow().slots == slots[..]
    {}

    // ----- DATA tails

    // qr_render: the encoding, then the raster by difference or from scratch.
    method EncodeTail(r: Bytes, frame: Bytes)
      requires Wired() && ShapedTable(c.printer.table) && ShapedWork(WorkNow())
      requires !phase.Encode? && Encoding() && |r| == PAYLOAD && |frame| == DATA_CODEWORDS
      modifies this`record, this`input, this`encoded, codewords
      ensures WorkNow() == old(WorkNow()).(record := r, input := frame, codewords := Codewords(c.printer.table, frame))
      ensures Encoding() && !phase.Encode?
    {
      hide ShapedTable, Codewords;
      record, input := r, frame;
      EncodePrepacked(c.printer.table, input, codewords);
      encoded := codewords[..];
    }

    method DrawTail()
      requires Wired() && ShapedMap(c.printer.map32) && |c.printer.template| == RASTER
      requires ShapedWork(WorkNow()) && !phase.Encode? && Encoding()
      modifies this`rasterReady, previous, raster
      ensures WorkNow() == Drawn(c, old(WorkNow())) && Encoding()
    {
      hide ShapedMap, Canonical, Scatter, Xor;
      if rasterReady {
        DeltaRange(c.printer.map32, codewords[..], previous, raster, 0, CODEWORDS);
        assert previous[..] == encoded;
      } else {
        MatrixRaster(codewords[..]);
      }
    }

    method RenderTail(r: Bytes, frame: Bytes)
      requires Wired() && ShapedTable(c.printer.table) && ShapedMap(c.printer.map32) && |c.printer.template| == RASTER
      requires ShapedWork(WorkNow()) && !phase.Encode? && Encoding() && |r| == PAYLOAD && |frame| == DATA_CODEWORDS
      modifies this`record, this`input, this`encoded, this`rasterReady, codewords, previous, raster
      ensures WorkNow() == Rendered(c, old(WorkNow()).(record := r), frame) && Encoding()
    {
      hide WorkNow, Encoding, Rendered, Drawn, ShapedTable, ShapedMap, Codewords;
      ghost var w := WorkNow();
      RenderedIs(c, w.(record := r), frame);
      EncodeTail(r, frame);
      DrawTail();
    }

    // The record and the rendering of show_tail.
    method TailRecord() returns (ok: bool)
      requires Wired() && TailReady(c, StreamNow(), WorkNow()) && !phase.Encode? && Encoding()
      modifies this`global, this`head, this`count, history, historyGlobal
      modifies this`record, this`input, this`encoded, this`rasterReady, codewords, previous, raster
      ensures ok <==> old(global) < c.plan.total
      ensures ok ==> Encoding() && StreamNow() == Advanced(c, old(StreamNow())) && global == old(global) + 1
      ensures ok ==> WorkNow() == TailWork(c, old(StreamNow()), old(WorkNow()))
    {
      hide WorkNow, Encoding, ShapedTable, ShapedMap, ShapedWork, Rendered, TailInput, GoodPlan;
      var i := global;
      var r := StreamNext();
      if r.None? { return false; }
      RenderTail(r.value, TailInput(c, i));
      ok := true;
    }

    // show_tail.
    method TailFrameShown(slot: nat) returns (ok: bool)
      requires Valid() && slot < SLOTS && preparing.None?
      modifies this`global, this`head, this`count, history, historyGlobal
      modifies this`record, this`input, this`encoded, this`rasterReady, codewords, previous, raster
      modifies this`reserved, this`expected, this`integrity, this`log, vga, vga.memory
      ensures var r := ShownTailState(c, old(Now()), slot);
              if ok then Valid() && r == Some(Now()) else r == None
    {
      hide GoodConfig, Good, Valid, StreamNow, WorkNow, ScreenNow, QueueNow, ShapedStream, ShapedWork, ShapedScreen, ShapedQueue, Encoding, Cached, Bounded,
           Now, Settled, GoodPlan, Shaped, Playable, Wired, TailReady, TailWork, Advanced, TailShown, ShownTailState, Sender.ShownTail;
      Parts();
      Sizes();
      WaitsAtStart();
      ghost var s := Now();
      ghost var i := global;
      ShowsRaster();
      TailIs(c, s, slot);
      ok := TailRecord();
      if ok {
        SelectTail(slot, s);
      }
    }

    method SelectTail(slot: nat, ghost s: State)
      requires Wired() && GoodConfig(c) && Good(c.printer) && Cached() && Encoding() && Bounded() && Settled() && slot < SLOTS
      requires Shaped(c, s) && TailReady(c, s.stream, s.work) && s.stream.global < c.plan.total && ShapedWork(WorkNow())
      requires vga.Valid() && ShapedScreen(ScreenNow())
      requires global == s.stream.global + 1 && s.stream.global < |c.records| && |c.records[s.stream.global]| == PAYLOAD
      requires ShapedStream(c, s.stream) && StreamNow() == Advanced(c, s.stream)
      requires State(s.stream, QueueNow(), s.work, Playback(group, symbol, active), ScreenNow(), reserved, tailPending, log) == s
      modifies this`reserved, this`expected, this`integrity, this`log, vga, vga.memory
      ensures Valid() && Now() == TailShown(c, s, slot, old(WorkNow()))
    {
      hide GoodConfig, Good, Valid, StreamNow, WorkNow, ScreenNow, QueueNow, ShapedStream, ShapedWork, ShapedScreen, ShapedQueue, Encoding, Cached, Bounded,
           Now, Settled, GoodPlan, Shaped, Playable, Wired, TailReady, Advanced, TailShown, Sender.ShownTail;
      Sizes();
      ghost var w := WorkNow();
      SelectData(slot, global - 1);
      TailShownIs(c, s, slot, w);
      Assembled(TailShown(c, s, slot, w));
    }

    method SelectData(slot: nat, i: nat)
      requires Wired() && Good(c.printer) && Cached() && Encoding() && Bounded() && Settled() && slot < SLOTS
      requires vga.Valid() && ShapedScreen(ScreenNow()) && ShapedWork(WorkNow())
      modifies this`reserved, this`expected, this`integrity, this`log, vga, vga.memory
      ensures Cached() && Encoding() && Bounded() && Settled() && vga.Valid()
      ensures QueueNow() == old(QueueNow()) && StreamNow() == old(StreamNow()) && WorkNow() == old(WorkNow())
      ensures ScreenNow() == Sender.ShownTail(old(ScreenNow()), slot, WorkNow().raster)
      ensures reserved == Some(slot) && log == old(log) + [Tail(i)]
    {
      hide GoodConfig, Good, Valid, StreamNow, WorkNow, ScreenNow, QueueNow, ShapedStream, ShapedScreen, ShapedQueue, Encoding, Cached, Bounded,
           Now, Settled, GoodPlan, Playable, Sender.ShownTail, ShapedPatches, Wired;
      Sizes();
      ShowsRaster();
      ShowData(slot);
      reserved := Some(slot);
      log := log + [Tail(i)];
    }

    // The main loop's release of a finished group behind the tail.
    method Release(slot: nat)
      requires Playable() && !active
      modifies this`group, this`integrity, vga.memory, slots
      ensures Playable() && Now() == Released(c, old(Now()), slot)
    {
      hide GoodConfig, Good, Valid, StreamNow, WorkNow, ScreenNow, QueueNow, ShapedStream, ShapedWork, ShapedScreen, ShapedQueue, Encoding, Cached, Bounded,
           Now, Settled, GoodPlan, Shaped, Playable, Wired, SetCorrection, SetState;
      PlayParts();
      Sizes();
      ghost var s := Now();
      if group.Some? {
        var g := group.value;
        if slots[g].state == Playing {
          ForgetShape(c, s, g);
          if g != slot {
            CorrectSlot(g, false);
          } else {
            SetApplied(g, false);
            Played(s.(queue := s.queue.(slots := s.queue.slots[g := s.queue.slots[g].(applied := false)])));
          }
          PlaybackKept(c, s, g);
          PlaybackKept(c, Now(), g);
          SetSlotState(g, Free);
          ClearGroup();
        }
      }
    }

    method ClearGroup()
      requires Playable() && !active
      modifies this`group
      ensures Playable() && Now() == var s := old(Now()); s.(playback := s.playback.(group := None))
    {
      hide GoodConfig, Good, Valid, StreamNow, WorkNow, ScreenNow, QueueNow, ShapedStream, ShapedWork, ShapedScreen, ShapedQueue, Encoding, Cached, Bounded,
           Now, Settled, GoodPlan, Shaped, Playable, Wired;
      PlayParts();
      ghost var s := Now();
      ClearShape(c, s);
      group := None;
      Played(s.(playback := s.playback.(group := None)));
    }

    lemma CanPlay()
      requires Valid()
      ensures Playable() && Encoding() && GoodConfig(c) && GoodPlan(c.plan) && Good(c.printer) && Cached()
    {
      hide GoodConfig, Good, Valid, StreamNow, WorkNow, ScreenNow, QueueNow, ShapedStream, ShapedWork, ShapedScreen, ShapedQueue, Encoding, Cached, Bounded,
           Now, Settled, GoodPlan, Shaped, Wired;
      Parts();
    }

    lemma StillValid()
      requires Playable() && Encoding() && GoodConfig(c) && Good(c.printer) && Cached()
      ensures Valid()
    {
      hide GoodConfig, Good, Valid, StreamNow, WorkNow, ScreenNow, QueueNow, ShapedStream, ShapedWork, ShapedScreen, ShapedQueue, Encoding, Cached, Bounded,
           Now, Settled, GoodPlan, Shaped, Wired;
      Whole();
    }

    // The claim attempt of one iteration of the main loop.
    method TryClaim() returns (claimed: bool)
      requires Valid()
      modifies this`tail, this`preparing, this`nextOrdinal, this`phase, this`position, this`tailPending, slots, parity
      ensures Valid() && (Now(), claimed) == Sender.TryClaim(c, old(Now()))
    {
      hide GoodConfig, Good, Valid, StreamNow, WorkNow, ScreenNow, ShapedStream, ShapedWork, ShapedScreen, ShapedQueue, Encoding, Cached, Bounded,
           Now, Settled, GoodPlan, Shaped, Playable, Wired, Sender.Claim, Sender.TryClaim, Claimant;
      Parts();
      Sizes();
      ghost var s := Now();
      TryClaimIs(c, s);
      claimed := false;
      if preparing.None? && ready < SLOTS && global < c.plan.total {
        claimed := Claim();
        tailPending := !claimed;
        Assembled(Sender.TryClaim(c, s).0);
      }
    }

    method ReleaseTurn(slot: nat)
      requires Valid() && !active
      modifies this`group, this`integrity, vga.memory, slots
      ensures Valid() && Now() == Released(c, old(Now()), slot)
    {
      hide GoodConfig, Good, Valid, StreamNow, WorkNow, ScreenNow, QueueNow, ShapedStream, ShapedWork, ShapedScreen, ShapedQueue, Encoding, Cached, Bounded,
           Now, Settled, GoodPlan, Shaped, Playable, Wired, Released;
      Parts();
      Sizes();
      CanPlay();
      Release(slot);
      StillValid();
    }

    method TickTurn(due: bool, eof: bool) returns (rc: int)
      requires Valid()
      modifies this`reserved, this`ready, this`group, this`symbol, this`active
      modifies this`expected, this`integrity, this`log, vga, vga.memory, slots
      ensures var r := Tick(c, old(Now()), due, eof);
              if rc < 0 then r == Failed else Valid() && r == Ticked(Now(), rc == 2)
    {
      hide GoodConfig, Good, Valid, StreamNow, WorkNow, ScreenNow, QueueNow, ShapedStream, ShapedWork, ShapedScreen, ShapedQueue, Encoding, Cached, Bounded,
           Now, Settled, GoodPlan, Shaped, Playable, Wired, Tick;
      Parts();
      Sizes();
      CanPlay();
      rc := PlaybackTick(due, eof);
      if rc >= 0 { StillValid(); }
    }

    // The facts the main loop's guards read.
    lemma Guards()
      requires Valid()
      ensures Now().queue.ready == ready && Now().queue.preparing == preparing && Now().stream.global == global
      ensures Now().playback.active == active && Now().tailPending == tailPending && Now().reserved == reserved
      ensures Wired() && GoodPlan(c.plan) && |c.records| == c.plan.total && Shaped(c, Now()) && GoodConfig(c)
    {
      hide Good, WorkNow, ScreenNow, ShapedStream, ShapedWork, ShapedScreen, ShapedQueue, Encoding, Cached, Bounded, Settled;
    }

    // A tail frame, and the release of the group it covers.
    method TailTurn() returns (ok: bool)
      requires Valid() && !active && preparing.None?
      modifies this`global, this`head, this`count, history, historyGlobal
      modifies this`record, this`input, this`encoded, this`rasterReady, codewords, previous, raster
      modifies this`reserved, this`expected, this`integrity, this`log, vga, vga.memory, this`group, slots, this`tailPending
      ensures var r := TailTurned(c, old(Now()));
              if ok then Valid() && r == Some(Now()) else r == None
    {
      hide GoodConfig, Good, Valid, StreamNow, WorkNow, ScreenNow, QueueNow, ShapedStream, ShapedWork, ShapedScreen, ShapedQueue, Encoding, Cached, Bounded,
           Now, Settled, GoodPlan, Shaped, Playable, Wired, Released, TailSlot, ShownTailState, TailTurned;
      Queued();
      Guards();
      ghost var s := Now();
      TailTurnedNone(c, s);
      var slot := ChooseTail();
      if slot.None? { return false; }
      TailTurnedIs(c, s, slot.value);
      ok := TailFrameShown(slot.value);
      if ok {
        Guards();
        ReleaseTurn(slot.value);
        SettleTail();
      }
    }

    lemma Queued()
      requires Valid()
      ensures Wired() && ShapedQueue(QueueNow())
    {
      hide GoodConfig, Good, StreamNow, WorkNow, ScreenNow, QueueNow, ShapedStream, ShapedWork, ShapedScreen, ShapedQueue, Encoding;
    }

    method SettleTail()
      requires Valid()
      modifies this`tailPending
      ensures Valid() && Now() == old(Now()).(tailPending := false)
    {
      hide GoodConfig, Good, Valid, StreamNow, WorkNow, ScreenNow, QueueNow, ShapedStream, ShapedWork, ShapedScreen, ShapedQueue, Encoding, Cached, Bounded,
           Now, Settled, GoodPlan, Shaped, Playable, Wired;
      Parts();
      ghost var s := Now();
      PendingShape(c, s);
      tailPending := false;
      Assembled(s.(tailPending := false));
    }

    // The end of an iteration: a tail frame when nothing else is left to show.
    method FinishIteration(claimed: bool) returns (rc: int)
      requires Valid()
      modifies this`global, this`head, this`count, history, historyGlobal
      modifies this`record, this`input, this`encoded, this`rasterReady, codewords, previous, raster
      modifies this`reserved, this`expected, this`integrity, this`log, vga, vga.memory, this`group, slots, this`tailPending
      ensures Ended(rc, AfterStep(c, old(Now()), claimed))
    {
      hide GoodConfig, Good, Valid, StreamNow, WorkNow, ScreenNow, QueueNow, ShapedStream, ShapedWork, ShapedScreen, ShapedQueue, Encoding, Cached, Bounded,
           Now, Settled, GoodPlan, Shaped, Playable, Wired, AfterStep, TailTurned;
      Guards();
      AfterStepIs(c, Now(), claimed);
      if !active && ready == 0 && preparing.None? && global < c.plan.total && !claimed {
        var ok := TailTurn();
        if !ok { return -1; }
        Guards();
      }
      rc := if !active && ready == 0 && preparing.None? && global >= c.plan.total then 1 else 0;
    }

    // The outcome an iteration reports: -1 aborted, 1 finished, 0 still running.
    ghost predicate Ended(rc: int, r: Outcome)
      reads this, slots, history, historyGlobal, parity, headers, key, codewords, previous, raster, encoder, vga, vga.memory
    {
      if rc < 0 then r == Aborted else Valid() && r == if rc == 1 then Finished(Now()) else Running(Now())
    }

    // One iteration of the main loop.
    method Iterate(due: bool) returns (rc: int)
      requires Valid()
      modifies Repr()
      ensures encoder == old(encoder) || fresh(encoder)
      ensures Ended(rc, Sender.Iterate(c, old(Now()), due))
    {
      hide GoodConfig, Good, Valid, StreamNow, WorkNow, ScreenNow, QueueNow, ShapedStream, ShapedWork, ShapedScreen, ShapedQueue, Encoding, Cached, Bounded,
           Now, Settled, GoodPlan, Shaped, Playable, Wired, Tick, Sender.Iterate, ProducerTurn;
      Guards();
      IterateIs(c, Now(), due);
      var eof := (global >= c.plan.total || tailPending) && preparing.None? && ready == 0;
      var tick := TickTurn(due, eof);
      if tick < 0 { return -1; }
      Guards();
      if tick == 2 && global >= c.plan.total { return 1; }
      rc := Produce();
    }

    // A claim, a producer step, and a tail when nothing else is left.
    method Produce() returns (rc: int)
      requires Valid()
      modifies Repr()
      ensures encoder == old(encoder) || fresh(encoder)
      ensures Ended(rc, ProducerTurn(c, old(Now())))
    {
      hide GoodConfig, Good, Valid, StreamNow, WorkNow, ScreenNow, QueueNow, ShapedStream, ShapedWork, ShapedScreen, ShapedQueue, Encoding, Cached, Bounded,
           Now, Settled, GoodPlan, Shaped, Playable, Wired, AfterStep, Sender.TryClaim, Step;
      Guards();
      var claimed := TryClaim();
      Guards();
      if preparing.Some? {
        var ok := GroupStep();
        if !ok { return -1; }
      }
      rc := FinishIteration(claimed);
    }

    // One producer step while prefilling: -1 aborted, 1 prefilled, 0 more.
    method Prefill() returns (rc: int)
      requires Valid()
      modifies Repr()
      ensures encoder == old(encoder) || fresh(encoder)
      ensures var r := PrefillStep(c, old(Now()));
              if rc < 0 then r == PrefillAborted
              else Valid() && r == if rc == 1 then PrefillDone(Now()) else PrefillMore(Now())
    {
      hide GoodConfig, Good, Valid, StreamNow, WorkNow, ScreenNow, QueueNow, ShapedStream, ShapedWork, ShapedScreen, ShapedQueue, Encoding, Cached, Bounded,
           Now, Settled, GoodPlan, Shaped, Playable, Wired, Step, Sender.Claim, Claimant;
      Guards();
      Parts();
      Sizes();
      if preparing.Some? {
        var ok := GroupStep();
        return if ok then 0 else -1;
      }
      if ready >= 2 { return 1; }
      ghost var s := Now();
      ghost var t := PrefillStep(c, s);
      var ok := Claim();
      if !ok {
        Assembled(s);
        return 1;
      }
      Assembled(t.state);
      rc := 0;
    }

    lemma WaitsAtStart()
      requires Settled() && preparing.None?
      ensures phase.Begin?
    {}

    lemma ShowsRaster()
      requires Wired()
      ensures WorkNow().raster == raster[..] && StreamNow().global == global
    {}
  }

  ghost function Drawn(c: Config, w: Work): (t: Work)
    requires ShapedMap(c.printer.map32) && |c.printer.template| == RASTER && ShapedWork(w)
  {
    if w.rasterReady then
      w.(previous := w.codewords, raster := Xor(w.raster, Scatter(c.printer.map32, Xor(w.previous, w.codewords))))
    else
      w.(previous := w.codewords, raster := Canonical(c.printer.template, c.printer.map32, w.codewords), rasterReady := true)
  }

  lemma RenderedIs(c: Config, w: Work, input: Bytes)
    requires ShapedTable(c.printer.table) && ShapedMap(c.printer.map32) && |c.printer.template| == RASTER
    requires ShapedWork(w) && |input| == DATA_CODEWORDS
    ensures ShapedWork(w.(input := input, codewords := Codewords(c.printer.table, input)))
    ensures Rendered(c, w, input) == Drawn(c, w.(input := input, codewords := Codewords(c.printer.table, input)))
  {
    hide Codewords, Scatter, Canonical, Xor, ShapedTable, ShapedMap;
  }

  // The data codewords of the frame of one tail record.
  function TailInput(c: Config, i: nat): (r: Bytes)
    requires GoodPlan(c.plan) && |c.records| == c.plan.total && i < c.plan.total && |c.records[i]| == PAYLOAD
    ensures |r| == DATA_CODEWORDS
  {
    hide Wire;
    Input(Wire(TailFrame(c, i)))
  }

  ghost predicate TailReady(c: Config, st: Stream, w: Work) {
    && GoodPlan(c.plan) && |c.records| == c.plan.total && (forall i :: 0 <= i < |c.records| ==> |c.records[i]| == PAYLOAD)
    && ShapedTable(c.printer.table) && ShapedMap(c.printer.map32) && |c.printer.template| == RASTER
    && ShapedStream(c, st) && ShapedWork(w)
  }

  ghost function TailWork(c: Config, st: Stream, w: Work): (t: Work)
    requires TailReady(c, st, w) && st.global < c.plan.total
    ensures ShapedWork(t)
  {
    hide GoodPlan, ShapedTable, ShapedMap, TailInput, Rendered;
    Rendered(c, w.(record := c.records[st.global]), TailInput(c, st.global))
  }

  // The tail selected, with its raster rendered.
  ghost function TailShown(c: Config, s: State, slot: nat, w: Work): (t: State)
    requires Shaped(c, s) && slot < SLOTS && ShapedWork(w) && TailReady(c, s.stream, s.work) && s.stream.global < c.plan.total
    ensures Shaped(c, t)
  {
    hide Sender.ShownTail, ShapedScreen, Advanced, GoodPlan, ShapedTable, ShapedMap;
    s.(stream := Advanced(c, s.stream), work := w, screen := Sender.ShownTail(s.screen, slot, w.raster),
       reserved := Some(slot), log := s.log + [Tail(s.stream.global)])
  }

  lemma TailShownIs(c: Config, s: State, slot: nat, w: Work)
    requires Shaped(c, s) && slot < SLOTS && ShapedWork(w) && TailReady(c, s.stream, s.work) && s.stream.global < c.plan.total
    ensures |w.raster| == RASTER && ShapedScreen(s.screen) && ShapedStream(c, s.stream) && s.stream.global < |c.records|
    ensures |c.records[s.stream.global]| == PAYLOAD
    ensures TailShown(c, s, slot, w) ==
            s.(stream := Advanced(c, s.stream), work := w, screen := Sender.ShownTail(s.screen, slot, w.raster),
               reserved := Some(slot), log := s.log + [Tail(s.stream.global)])
  {
    hide Sender.ShownTail, ShapedScreen, Advanced, GoodPlan, ShapedTable, ShapedMap;
  }

  // show_tail up to the release of the slot it covers.
  ghost function ShownTailState(c: Config, s: State, slot: nat): (r: Option<State>)
    requires GoodConfig(c) && Shaped(c, s) && slot < SLOTS
    ensures r.Some? ==> Shaped(c, r.value)
  {
    hide *;
    ReadyForTail(c, s);
    if s.stream.global >= c.plan.total then None else Some(TailShown(c, s, slot, TailWork(c, s.stream, s.work)))
  }

  lemma ReadyForTail(c: Config, s: State)
    requires GoodConfig(c) && Shaped(c, s)
    ensures TailReady(c, s.stream, s.work)
  {}

  lemma TailIs(c: Config, s: State, slot: nat)
    requires GoodConfig(c) && Shaped(c, s) && slot < SLOTS
    ensures TailReady(c, s.stream, s.work)
    ensures ShownTailState(c, s, slot) ==
            if s.stream.global >= c.plan.total then None else Some(TailShown(c, s, slot, TailWork(c, s.stream, s.work)))
  {
    hide TailShown, TailWork, TailReady, Shaped, GoodConfig;
    ReadyForTail(c, s);
  }

  lemma PlaybackKept(c: Config, s: State, g: nat)
    requires Shaped(c, s) && g < SLOTS
    ensures SetCorrection(c, s, g, false).playback == SetState(c, s, g, Free).playback == s.playback
  {
    hide ShapedStream, ShapedQueue, ShapedWork, ShapedScreen, Toggled;
  }

  // A tail turn of the main loop.
  ghost function TailTurned(c: Config, s: State): (r: Option<State>)
    requires GoodConfig(c) && Shaped(c, s) && !s.playback.active
    ensures r.Some? ==> Shaped(c, r.value)
  {
    hide ShowTail, TailSlot, GoodConfig, ShapedWork, ShapedScreen, ShapedStream;
    var slot := TailSlot(s, 0);
    if slot.None? then None
    else
      var t := ShowTail(c, s, slot.value);
      if t.None? then None else Some(t.value.(tailPending := false))
  }

  lemma ShowTailIs(c: Config, s: State, slot: nat)
    requires GoodConfig(c) && Shaped(c, s) && slot < SLOTS && !s.playback.active
    ensures var t := ShownTailState(c, s, slot);
            if t.None? then ShowTail(c, s, slot) == None
            else !t.value.playback.active && ShowTail(c, s, slot) == Some(Released(c, t.value, slot))
  {
    hide ShapedStream, ShapedWork, ShapedScreen, ShapedQueue, Rendered, Wire, TailFrame, Advanced, Sender.ShownTail, Released, Good,
         GoodPlan, WhiteOutside, InsideMap;
  }

  lemma TailTurnedNone(c: Config, s: State)
    requires GoodConfig(c) && Shaped(c, s) && !s.playback.active
    ensures ShapedQueue(s.queue) && (TailSlot(s, 0).None? ==> TailTurned(c, s) == None)
  {
    hide ShowTail, TailSlot, GoodConfig, ShapedWork, ShapedScreen, ShapedStream;
  }

  lemma TailTurnedIs(c: Config, s: State, slot: nat)
    requires GoodConfig(c) && Shaped(c, s) && !s.playback.active && ShapedQueue(s.queue)
    requires TailSlot(s, 0) == Some(slot) && slot < SLOTS
    ensures var t := ShownTailState(c, s, slot);
            if t.None? then TailTurned(c, s) == None
            else !t.value.playback.active && TailTurned(c, s) == Some(Released(c, t.value, slot).(tailPending := false))
  {
    hide ShowTail, TailSlot, GoodConfig, Shaped, Released, ShownTailState;
    ShowTailIs(c, s, slot);
  }

  lemma TryClaimIs(c: Config, s: State)
    requires GoodPlan(c.plan) && |c.records| == c.plan.total && Shaped(c, s)
    ensures ShapedStream(c, s.stream) && ShapedQueue(s.queue) && ShapedWork(s.work)
    ensures Sender.TryClaim(c, s) ==
            if s.queue.preparing.None? && s.queue.ready < SLOTS && s.stream.global < c.plan.total then
              var q := Sender.Claim(c, s.stream, s.queue, s.reserved);
              if q.Some? then (s.(queue := q.value, work := Claimant(s.work), tailPending := false), true)
              else (s.(tailPending := true), false)
            else (s, false)
    ensures Shaped(c, Sender.TryClaim(c, s).0)
  {
    hide Sender.Claim, Claimant, ShapedStream, ShapedQueue, ShapedWork, ShapedScreen;
  }

  // The producer's turn of an iteration: a claim, a step, a tail.
  ghost function ProducerTurn(c: Config, s: State): (r: Outcome)
    requires GoodConfig(c) && Shaped(c, s)
    ensures ShapedOutcome(c, r)
  {
    hide Sender.TryClaim, Step, AfterStep, Shaped;
    ConfigParts(c);
    var (s2, claimed) := Sender.TryClaim(c, s);
    var made := if s2.queue.preparing.Some? then Step(c, s2) else Some(s2);
    if made.None? then Aborted else AfterStep(c, made.value, claimed)
  }

  lemma IterateIs(c: Config, s: State, due: bool)
    requires GoodConfig(c) && Shaped(c, s)
    ensures GoodPlan(c.plan)
    ensures var eof := (AtEnd(c, s) || s.tailPending) && s.queue.preparing.None? && s.queue.ready == 0;
            var tick := Tick(c, s, due, eof);
            Sender.Iterate(c, s, due) ==
            if tick.Failed? then Aborted
            else if tick.drained && AtEnd(c, tick.state) then Finished(tick.state)
            else ProducerTurn(c, tick.state)
  {
    hide Sender.TryClaim, Step, AfterStep, Shaped, Tick;
    ConfigParts(c);
  }

  lemma AfterStepIs(c: Config, s: State, claimed: bool)
    requires GoodConfig(c) && Shaped(c, s)
    ensures AfterStep(c, s, claimed) ==
            if !s.playback.active && s.queue.ready == 0 && s.queue.preparing.None? && !AtEnd(c, s) && !claimed then
              var t := TailTurned(c, s);
              if t.None? then Aborted else Closing(c, t.value)
            else Closing(c, s)
  {
    hide GoodConfig, Shaped, ShowTail, TailSlot, Closing;
  }

  lemma PendingShape(c: Config, s: State)
    requires Shaped(c, s)
    ensures Shaped(c, s.(tailPending := false))
  {}

  lemma ForgetShape(c: Config, s: State, g: nat)
    requires Shaped(c, s) && g < SLOTS
    ensures Shaped(c, s.(queue := s.queue.(slots := s.queue.slots[g := s.queue.slots[g].(applied := false)])))
  {}

  lemma ClearShape(c: Config, s: State)
    requires Shaped(c, s) && !s.playback.active
    ensures Shaped(c, s.(playback := s.playback.(group := None)))
  {}

  // The bookkeeping of a group that starts playing.
  ghost function Started(s: State, n: nat): State {
    s.(queue := s.queue.(ready := s.queue.ready - 1), playback := Playback(Some(n), 0, true))
  }

  lemma StartShape(c: Config, s: State, n: nat)
    requires Shaped(c, s) && n < SLOTS
    ensures Shaped(c, Started(s, n)) && Shaped(c, s.(reserved := None))
  {}

  lemma StoppedShape(c: Config, s: State)
    requires Shaped(c, s)
    ensures Shaped(c, s.(playback := s.playback.(active := false)))
  {}

  lemma HandoffIs(c: Config, s: State, n: nat)
    requires Shaped(c, s) && n < SLOTS
    ensures var s1 := ShowPlane(c, s, n, OnePlane(0), Basis(s.queue.slots[n].ordinal, 0)).(reserved := None);
            Shaped(c, s1) && s1.playback == s.playback &&
            var s2 := if s.playback.group.Some? && s.playback.active then
                        SetState(c, SetCorrection(c, s1, s.playback.group.value, false), s.playback.group.value, Free)
                      else s1;
            var s3 := SetState(c, s2, n, Playing);
            Handoff(c, s, n) == Started(s3, n)
  {
    hide SetState, SetCorrection, ShapedStream, ShapedQueue, ShapedWork, ShapedScreen, Selected;
  }

  lemma PlanWidth(p: Plan)
    requires GoodPlan(p)
    ensures p.width == 3 || p.width == 4
  {}

  lemma SymbolShape(c: Config, s: State)
    requires Shaped(c, s)
    ensures Shaped(c, s.(playback := s.playback.(symbol := s.playback.symbol + 1)))
  {}

  lemma PreparingSlot(c: Config, s: State)
    requires Shaped(c, s) && s.queue.preparing.Some?
    ensures s.queue.preparing.value < SLOTS == |s.queue.slots|
  {}

  // The four phases that touch only the stream and the work memory.
  lemma BasisIs(c: Config, s: State, i: nat)
    requires GoodConfig(c) && Shaped(c, s) && i < SLOTS && s.queue.slots[i].stage < c.plan.width
    requires GoodPlan(c.plan) && |c.records| == c.plan.total && ShapedTable(c.printer.table) && ShapedMap(c.printer.map32)
    requires |c.printer.template| == RASTER && forall k :: 0 <= k < |c.records| ==> |c.records[k]| == PAYLOAD
    ensures s.work.phase.Begin? ==>
              var b := BeginBasis(c, s.stream, s.queue.slots[i], s.work);
              BasisStep(c, s, i) == if b.None? then None else Some(s.(stream := b.value.stream, work := b.value.work))
    ensures s.work.phase.Encode? ==> BasisStep(c, s, i) == Some(s.(work := EncodeWork(c, s.work)))
    ensures s.work.phase.Delta? ==> BasisStep(c, s, i) == Some(s.(work := DeltaWork(c, s.work)))
    ensures s.work.phase.Matrix? ==> BasisStep(c, s, i) == Some(s.(work := MatrixWork(c, s.work)))
    ensures s.work.phase.Store? ==> BasisStep(c, s, i) == Some(StoreStep(c, s, i))
    ensures BasisStep(c, s, i).Some? ==> Shaped(c, BasisStep(c, s, i).value)
  {
    hide GoodConfig, GoodPlan, BeginBasis, EncodeWork, DeltaWork, MatrixWork, StoreStep, ShapedStream, ShapedScreen;
  }

  lemma ReadyIs(c: Config, s: State, i: nat, p: Option<seq<Patch>>)
    requires GoodConfig(c) && Shaped(c, s) && i < SLOTS
    requires GoodPlan(c.plan) && Good(c.printer) && ShapedWork(s.work)
    requires p == SlotPatches(c, s.queue.slots[i], CorrectionWork(c, s.work))
    ensures p.Some? ==> ShapedPatches(p.value)
    ensures ReadyStep(c, s, i) == if p.None? then None else Some(Sender.Finish(c, s, i, CorrectionWork(c, s.work), p.value))
  {
    hide GoodConfig, GoodPlan, Good, ShapedStream, ShapedScreen, ShapedWork, Sender.Finish, ShapedPatches, NonZero, PatchesUpTo, Scatter, Codewords, Xor,
         XorAll, Wire, ZeroRaster;
    assert SlotHeaderDelta(c, s.queue.slots[i], CorrectionWork(c, s.work)) == SlotHeaderDelta(c, s.queue.slots[i], s.work);
  }

  lemma FinishIs(c: Config, s: State, i: nat, w: Work, patches: seq<Patch>)
    requires Shaped(c, s) && i < SLOTS && ShapedWork(w) && ShapedPatches(patches)
    ensures Sender.Finish(c, s, i, w, patches) == s.(work := w.(phase := Begin), queue := Completed(s.queue, i, patches))
  {
    hide Completed, Shaped, ShapedPatches, ShapedWork;
  }

  lemma ConfigParts(c: Config)
    requires GoodConfig(c)
    ensures GoodPlan(c.plan) && Good(c.printer) && ShapedTable(c.printer.table) && ShapedMap(c.printer.map32)
    ensures |c.printer.template| == RASTER && |c.records| == c.plan.total
    ensures forall i :: 0 <= i < |c.records| ==> |c.records[i]| == PAYLOAD
  {}

  lemma PatchTotal(d: Bytes)
    requires |d| == RASTER
    ensures |PatchesUpTo(d, RASTER)| == |NonZero(d)|
  {
    hide NonZero, PatchesUpTo;
    PatchCount(d, RASTER);
    assert Prefix(d, RASTER) == d;
  }

  lemma NoHeaders(first: Bytes, list: seq<Bytes>)
    requires |first| == HEADER && forall i :: 0 <= i < |list| ==> |list[i]| == HEADER
    ensures Xor(first, XorAll(list[..0], HEADER)) == first
  {
    XorZero(first);
  }

  lemma NextHeader(first: Bytes, list: seq<Bytes>, p: nat)
    requires |first| == HEADER && p < |list| && forall i :: 0 <= i < |list| ==> |list[i]| == HEADER
    ensures Xor(first, XorAll(list[..p + 1], HEADER)) == Xor(Xor(first, XorAll(list[..p], HEADER)), list[p])
  {
    hide Xor;
    var some := list[..p + 1];
    assert some[..p] == list[..p];
    XorAssoc(first, XorAll(list[..p], HEADER), list[p]);
  }
}
