// The frames of a window at the receiver: what each one that sender.c draws is
// taken for, and that the files the store keeps are the frames that came.

module WindowReception {
  import opened Gf2
  import opened Protocol
  import opened Repair
  import opened SessionStore
  import RgbSchedule
  import WindowRepair

  // ----- the frames of a window

  // DATA frame i of a window, as make_frame is called for it.
  ghost predicate GoodFrame(t: Truth, base: nat, frames: seq<Frame>, i: nat)
    requires i < |frames|
  {
    var f := frames[i];
    && f.kind == DATA && f.flags == 0x0008 && f.session == t.session && f.window == frames[0].window
    && f.globalIndex == base + i && f.windowIndex == i && f.windowCount == |frames| && TrueData(t, base + i, f)
  }

  ghost predicate GoodWindow(t: Truth, base: nat, frames: seq<Frame>) {
    && 1 <= |frames| <= MAX_WINDOW && 0 < t.session
    && forall i :: 0 <= i < |frames| ==> GoodFrame(t, base, frames, i)
  }

  // Members `stride` apart.
  function Picked(frames: seq<Frame>, first: nat, count: nat, stride: nat): (r: seq<Frame>)
    requires count > 0 ==> first + (count - 1) * stride < |frames|
    ensures |r| == count
    ensures forall k :: 0 <= k < count ==> first + k * stride < |frames| && r[k] == frames[first + k * stride]
  {
    InReach(first, count, stride, |frames|);
    seq(count, k requires 0 <= k < count => frames[first + k * stride])
  }

  lemma InReach(first: nat, count: nat, stride: nat, n: nat)
    requires count > 0 ==> first + (count - 1) * stride < n
    ensures forall k :: 0 <= k < count ==> first + k * stride < n
  {
    forall k | 0 <= k < count ensures first + k * stride < n {
      Steps(k, count - 1, stride);
    }
  }

  lemma Steps(a: nat, b: nat, stride: nat)
    requires a <= b
    ensures a * stride <= b * stride
  {}

  // What the receiver can do with a frame: it comes through the wire unchanged,
  // belongs to the transfer, and is one the store files.
  ghost predicate Deliverable(t: Truth, f: Frame) {
    && EncodeFrame(f).Ok? && ParseFrame(EncodeFrame(f).value) == Ok(f) && f.session == t.session && 0 < t.session
    && (f.kind == DATA || f.kind == CHAIN_XOR || f.kind == BLOCK_XOR) && TrueFrame(t, f) && Fileable(f)
    && (f.kind == DATA ==> ParseRecord(f.payload).Ok?)
  }

  lemma Modes()
    ensures forall flags: Short :: flags == 0x0008 || flags == 0x0009 || flags == 0x0004 || flags == 0x0020 ==>
              flags & UNKNOWN_FLAGS == 0 && WhiteningModes(flags) == 1 && !Protocol.Has(flags, FLAG_PLANE_WHITENED)
              && (Protocol.Has(flags, FLAG_GROUP_XOR_WHITENED) <==> flags == 0x0020)
  {}

  // A DATA frame, the first time or again.
  lemma DataReceived(t: Truth, base: nat, frames: seq<Frame>, i: nat, again: bool)
    requires GoodWindow(t, base, frames) && i < |frames|
    ensures var f := frames[i].(flags := if again then 0x0009 else 0x0008);
            Deliverable(t, f) && IsSessionStart(f) && f.kind == 1
  {
    hide ParseRecord, WhiteningModes, Protocol.Has, EncodeFrame, ParseFrame;
    Modes();
    assert GoodFrame(t, base, frames, i);
    ParseEncode(frames[i].(flags := if again then 0x0009 else 0x0008));
  }

  // The chain of two neighbours.
  lemma ChainReceived(t: Truth, base: nat, frames: seq<Frame>, i: nat)
    requires GoodWindow(t, base, frames) && i + 1 < |frames|
    ensures |frames[i].payload| < 0x1_0000 && |frames[i + 1].payload| < 0x1_0000 && ChainFrame(frames[i], frames[i + 1]).Ok?
    ensures var f := ChainFrame(frames[i], frames[i + 1]).value;
            && Deliverable(t, f) && IsSessionStart(f) && f.kind == 4 && f.flags == 0x0004
            && f.globalIndex == base + i && f.windowIndex == i && f.windowCount == |frames|
            && f.streamId / 0x1_0000 == |frames[i].payload| && f.streamId % 0x1_0000 == |frames[i + 1].payload|
  {
    hide ParseRecord, Equation, Deliverable, IsSessionStart, TrueChain;
    assert GoodFrame(t, base, frames, i) && GoodFrame(t, base, frames, i + 1);
    var a, b := frames[i].payload, frames[i + 1].payload;
    RecordLength(a);
    RecordLength(b);
    Lengths(|a|, |b|);
    var f := ChainFrame(frames[i], frames[i + 1]).value;
    assert TrueChain(t, f) by { TwoTrue(t, f); }
    ChainDeliverable(t, f);
  }

  lemma Lengths(a: nat, b: nat)
    requires b < 0x1_0000
    ensures (a * 0x1_0000 + b) / 0x1_0000 == a && (a * 0x1_0000 + b) % 0x1_0000 == b
  {}

  lemma TwoTrue(t: Truth, f: Frame)
    requires f.kind == CHAIN_XOR && f.session == t.session
    requires Placed(t, f, f.globalIndex, f.windowIndex) && Placed(t, f, f.globalIndex + 1, f.windowIndex + 1)
    requires f.streamId == |t.payload(f.globalIndex)| * 0x1_0000 + |t.payload(f.globalIndex + 1)|
    requires f.payload == Equation([t.payload(f.globalIndex), t.payload(f.globalIndex + 1)])
    ensures TrueChain(t, f)
  {}

  lemma ChainDeliverable(t: Truth, f: Frame)
    requires TrueChain(t, f) && 0 < t.session < 0x1_0000_0000 && f.flags == 0x0004 && f.streamOffset == 0 && f.windowIndex + 1 < f.windowCount
    ensures Deliverable(t, f) && IsSessionStart(f)
  {
    hide WhiteningModes, Protocol.Has, EncodeFrame, ParseFrame, TrueChain, IsSessionStart;
    ChainStart(t, f);
    Modes();
    ParseEncode(f);
  }

  lemma ChainStart(t: Truth, f: Frame)
    requires TrueChain(t, f) && f.flags == 0x0004 && f.streamOffset == 0 && f.windowIndex + 1 < f.windowCount
    ensures IsSessionStart(f) && |f.payload| < 0x1_0000 && f.kind == CHAIN_XOR && f.session == t.session
  {
    hide ParseRecord, Equation, ValidBlock, IsPlaneStart;
    var a, b := t.payload(f.globalIndex), t.payload(f.globalIndex + 1);
    assert TrueRecord(t, f.globalIndex) && TrueRecord(t, f.globalIndex + 1);
    RecordLength(a);
    RecordLength(b);
    Lengths(|a|, |b|);
    EquationOfTwo(a, b);
  }

  lemma EquationOfTwo(a: Bytes, b: Bytes)
    ensures |Equation([a, b])| == if |a| > |b| then |a| else |b|
  {
    hide XorAll, PadAll;
    assert [a, b][..1] == [a];
  }

  // The parity of neighbours.
  lemma BlockReceived(t: Truth, base: nat, frames: seq<Frame>, first: nat, count: nat)
    requires GoodWindow(t, base, frames) && 1 <= count <= 64 && first + count <= |frames|
    ensures BlockFrame(Picked(frames, first, count, 1)).Ok?
    ensures var f := BlockFrame(Picked(frames, first, count, 1)).value;
            && Deliverable(t, f) && IsSessionStart(f) && f.kind == 5 && f.flags == 0x0008
            && f.globalIndex == base + first && f.windowIndex == first && f.windowCount == |frames|
            && f.streamId == count && f.streamOffset == 0
  {
    hide Deliverable, IsSessionStart, Equation, TrueRecord, Spaced, Payloads, ValidBlock, TrueBlock;
    PickedSpaced(t, base, frames, first, count, 1);
    var f := BlockFrame(Picked(frames, first, count, 1)).value;
    PickedTrue(t, base, frames, first, count, 1, f);
    BlockDeliverable(t, f);
  }

  // The parity of members a stride apart.
  lemma StrideReceived(t: Truth, base: nat, frames: seq<Frame>, first: nat, count: nat, stride: nat)
    requires GoodWindow(t, base, frames) && 1 <= count <= 3 && 1 <= stride <= MAX_WINDOW && first + (count - 1) * stride < |frames|
    ensures GroupBlockFrame(Picked(frames, first, count, stride), stride).Ok?
    ensures var f := GroupBlockFrame(Picked(frames, first, count, stride), stride).value;
            && Deliverable(t, f) && IsSessionStart(f) && f.kind == 5 && f.flags == 0x0020
            && f.globalIndex == base + first && f.windowIndex == first && f.windowCount == |frames|
            && f.streamId == count && f.streamOffset == stride
  {
    hide Deliverable, IsSessionStart, Equation, TrueRecord, Spaced, Payloads, ValidBlock, TrueBlock;
    PickedSpaced(t, base, frames, first, count, stride);
    var f := GroupBlockFrame(Picked(frames, first, count, stride), stride).value;
    PickedTrue(t, base, frames, first, count, stride, f);
    BlockDeliverable(t, f);
  }

  lemma PickedSpaced(t: Truth, base: nat, frames: seq<Frame>, first: nat, count: nat, stride: nat)
    requires GoodWindow(t, base, frames) && 1 <= count && first + (count - 1) * stride < |frames|
    ensures Spaced(Picked(frames, first, count, stride), stride)
    ensures forall k :: 0 <= k < count ==> Picked(frames, first, count, stride)[k].payload == t.payload(base + (first + k * stride))
    ensures GoodFrame(t, base, frames, first) && first < |frames|
  {
    hide TrueRecord;
    var list := Picked(frames, first, count, stride);
    InReach(first, count, stride, |frames|);
    assert 0 * stride == 0;
    assert GoodFrame(t, base, frames, first) && list[0] == frames[first + 0 * stride] == frames[first];
    forall k | 0 <= k < count
      ensures list[k].payload == t.payload(base + (first + k * stride)) && GoodFrame(t, base, frames, first + k * stride) {
      assert GoodFrame(t, base, frames, first + k * stride);
    }
    forall k | 0 <= k < count
      ensures list[k].globalIndex == list[0].globalIndex + k * stride && list[k].windowIndex == list[0].windowIndex + k * stride {
      assert list[k] == frames[first + k * stride];
    }
  }

  // Its payload is the equation over the true records of its places.
  lemma PickedTrue(t: Truth, base: nat, frames: seq<Frame>, first: nat, count: nat, stride: nat, f: Frame)
    requires GoodWindow(t, base, frames) && 1 <= count && 1 <= stride && first + (count - 1) * stride < |frames|
    requires f.kind == BLOCK_XOR && f.session == frames[first].session && f.window == frames[first].window
    requires f.globalIndex == base + first && f.windowIndex == first && f.windowCount == |frames| && f.streamId == count
    requires (f.flags == FLAG_WHITENED && f.streamOffset == 0 && stride == 1 && count <= 64)
          || (f.flags == FLAG_GROUP_XOR_WHITENED && f.streamOffset == stride && count <= 3 && stride <= MAX_WINDOW)
    requires f.payload == Equation(Payloads(Picked(frames, first, count, stride)))
    ensures ValidBlock(f) && TrueBlock(t, f) && RECORD_HEADER <= |f.payload| < 0x1_0000 && 0 < f.session
  {
    hide TrueRecord, Equation, Payloads, BlockPayloads, Placed, ValidBlock, BlockStride, Spaced, GoodFrame;
    PickedSpaced(t, base, frames, first, count, stride);
    SessionOf(t, base, frames, first);
    PickedValid(first, count, stride, f);
    InReach(first, count, stride, |frames|);
    forall k | 0 <= k < count ensures Placed(t, f, BlockIndex(f, k), f.windowIndex + Offset(f, k)) {
      MemberPlaced(t, base, frames, first, stride, k, f);
    }
    PickedPayloads(t, base, frames, first, count, stride, f);
    EquationBounds(t, base, frames, first, count, stride);
  }

  lemma SessionOf(t: Truth, base: nat, frames: seq<Frame>, i: nat)
    requires i < |frames| && GoodFrame(t, base, frames, i)
    ensures frames[i].session == t.session
  {}

  lemma PickedValid(first: nat, count: nat, stride: nat, f: Frame)
    requires 1 <= count && 1 <= stride && first + (count - 1) * stride < f.windowCount
    requires f.kind == BLOCK_XOR && f.windowIndex == first && f.streamId == count
    requires (f.flags == FLAG_WHITENED && f.streamOffset == 0 && stride == 1 && count <= 64)
          || (f.flags == FLAG_GROUP_XOR_WHITENED && f.streamOffset == stride && count <= 3 && stride <= MAX_WINDOW)
    ensures ValidBlock(f) && BlockStride(f) == stride
  {
    assert FLAG_WHITENED != FLAG_GROUP_XOR_WHITENED;
  }

  lemma MemberPlaced(t: Truth, base: nat, frames: seq<Frame>, first: nat, stride: nat, k: nat, f: Frame)
    requires GoodWindow(t, base, frames) && first + k * stride < |frames| && first < |frames|
    requires f.window == frames[first].window && f.globalIndex == base + first && f.windowIndex == first && BlockStride(f) == stride
    ensures Placed(t, f, BlockIndex(f, k), f.windowIndex + Offset(f, k))
  {
    hide TrueRecord, BlockStride;
    assert GoodFrame(t, base, frames, first + k * stride) && GoodFrame(t, base, frames, first);
    assert BlockIndex(f, k) == base + (first + k * stride);
  }

  lemma PickedPayloads(t: Truth, base: nat, frames: seq<Frame>, first: nat, count: nat, stride: nat, f: Frame)
    requires GoodWindow(t, base, frames) && 1 <= count && first + (count - 1) * stride < |frames|
    requires f.globalIndex == base + first && f.streamId == count && BlockStride(f) == stride
    ensures Payloads(Picked(frames, first, count, stride)) == BlockPayloads(t, f)
  {
    hide TrueRecord, BlockStride, GoodWindow, GoodFrame, Spaced;
    PickedSpaced(t, base, frames, first, count, stride);
    forall k | 0 <= k < count ensures BlockIndex(f, k) == base + (first + k * stride) {}
  }

  lemma EquationBounds(t: Truth, base: nat, frames: seq<Frame>, first: nat, count: nat, stride: nat)
    requires GoodWindow(t, base, frames) && 1 <= count && first + (count - 1) * stride < |frames|
    ensures RECORD_HEADER <= |Equation(Payloads(Picked(frames, first, count, stride)))| < 0x1_0000
  {
    hide ParseRecord, Equation;
    var list := Picked(frames, first, count, stride);
    var p := Payloads(list);
    InReach(first, count, stride, |frames|);
    forall k | 0 <= k < count ensures RECORD_HEADER <= |p[k]| < 0x1_0000 {
      assert GoodFrame(t, base, frames, first + k * stride);
      RecordLength(p[k]);
    }
    assert |Equation(p)| == MaxLen(p);
    assert |p[0]| <= MaxLen(p);
  }

  lemma BlockDeliverable(t: Truth, f: Frame)
    requires ValidBlock(f) && TrueBlock(t, f) && RECORD_HEADER <= |f.payload| < 0x1_0000 && 0 < f.session
    requires f.flags == 0x0008 || f.flags == 0x0020
    ensures Deliverable(t, f) && IsSessionStart(f)
  {
    hide WhiteningModes, Protocol.Has, EncodeFrame, ParseFrame, Equation, BlockPayloads, Placed;
    Modes();
    ParseEncode(f);
  }

  // ----- any of them, in any order

  // Two frames under one file name are the same frame, or DATA.
  ghost predicate Compatible(f: Frame, g: Frame) {
    f.kind == g.kind && f.globalIndex == g.globalIndex && f.kind != DATA ==> f == g
  }

  ghost predicate AllDeliverable(t: Truth, list: seq<Frame>) {
    && (forall k :: 0 <= k < |list| ==> Deliverable(t, list[k]))
    && (forall j, k :: 0 <= j < |list| && 0 <= k < |list| ==> Compatible(list[j], list[k]))
  }

  // What is there under the name of a frame is that frame.
  ghost predicate NoOther(d: Dir, f: Frame) {
    Held(d, f) ==> HeldSame(d, f)
  }

  lemma DeliveredKeeps(t: Truth, d: Dir, f: Frame, result: Outcome, after: Dir, g: Frame)
    requires Settled(d, f, result, after) && TrueDir(t, after) && Deliverable(t, f) && Deliverable(t, g)
    requires Compatible(f, g) && NoOther(d, f) && NoOther(d, g)
    ensures NoOther(after, g) && HeldSame(after, f) && (HeldSame(d, g) ==> HeldSame(after, g))
    ensures result == STORED || result == DUPLICATE
    ensures result == STORED ==> Exhausted(after)
  {
    hide EncodeFrame, ParseFrame, ParseRecord, Exhausted, TrueRecord, TrueChain, TrueBlock, TruePlane, ValidBlock;
    if g.kind == DATA && g.globalIndex in after.data {
      assert TrueData(t, g.globalIndex, after.data[g.globalIndex]);
    }
  }

  // The receiver takes frames of the window, any of them any number of times:
  // each is stored or known already, and is among the files afterwards.
  method Deliver(store: SessionStore, list: seq<Frame>, ghost t: Truth) returns (results: seq<Outcome>)
    requires store.active == t.session && TrueDir(t, store.Current()) && AllDeliverable(t, list)
    requires forall k :: 0 <= k < |list| ==> NoOther(store.Current(), list[k])
    modifies store
    ensures store.active == t.session && TrueDir(t, store.Current())
    ensures |results| == |list| && forall k :: 0 <= k < |list| ==> results[k] == STORED || results[k] == DUPLICATE
    ensures forall k :: 0 <= k < |list| ==> HeldSame(store.Current(), list[k])
    ensures results != [] && results[|results| - 1] == STORED ==> Exhausted(store.Current())
  {
    hide EncodeFrame, ParseFrame, ParseRecord, TrueDir, TrueFrame, Settled, Exhausted, Kept, IsSessionStart, New, HeldSame, Held, Landed,
      Least, Fileable, Compatible, NoOther;
    results := [];
    while |results| < |list|
      invariant |results| <= |list|
      invariant store.active == t.session && TrueDir(t, store.Current())
      invariant forall k :: 0 <= k < |results| ==> results[k] == STORED || results[k] == DUPLICATE
      invariant forall k :: 0 <= k < |list| ==> NoOther(store.Current(), list[k])
      invariant forall k :: 0 <= k < |results| ==> HeldSame(store.Current(), list[k])
      invariant results != [] && results[|results| - 1] == STORED ==> Exhausted(store.Current())
    {
      var n := |results|;
      assert Deliverable(t, list[n]);
      ghost var d := store.Current();
      var result := store.Accept(EncodeFrame(list[n]).value, t);
      forall k | 0 <= k < |list|
        ensures NoOther(store.Current(), list[k]) && (k < n ==> HeldSame(store.Current(), list[k])) {
        assert Deliverable(t, list[k]) && Compatible(list[n], list[k]);
        DeliveredKeeps(t, d, list[n], result, store.Current(), list[k]);
      }
      DeliveredKeeps(t, d, list[n], result, store.Current(), list[n]);
      results := results + [result];
    }
  }

  // ----- whole windows

  ghost predicate AllHere(d: Dir, base: nat, frames: seq<Frame>) {
    forall i :: 0 <= i < |frames| ==> HereAt(d, base, frames, i)
  }

  ghost predicate HereAt(d: Dir, base: nat, frames: seq<Frame>, i: nat)
    requires i < |frames|
  {
    base + i in d.data && d.data[base + i].payload == frames[i].payload
  }

  lemma OneIsHere(t: Truth, d: Dir, base: nat, frames: seq<Frame>, i: nat)
    requires GoodWindow(t, base, frames) && i < |frames| && WindowRepair.Recovered(t, d, base, i)
    ensures HereAt(d, base, frames, i)
  {
    hide TrueRecord;
    assert GoodFrame(t, base, frames, i);
  }

  lemma RecoveredIsHere(t: Truth, d: Dir, base: nat, frames: seq<Frame>)
    requires GoodWindow(t, base, frames) && forall i :: 0 <= i < |frames| ==> WindowRepair.Recovered(t, d, base, i)
    ensures AllHere(d, base, frames)
  {
    hide GoodFrame, HereAt, WindowRepair.Recovered;
    forall i | 0 <= i < |frames| ensures HereAt(d, base, frames, i) {
      OneIsHere(t, d, base, frames, i);
    }
  }

  // The parity frame of `count` neighbours is among the files.
  ghost predicate JointHeld(t: Truth, d: Dir, base: nat, frames: seq<Frame>, first: nat, count: nat)
    requires GoodWindow(t, base, frames)
  {
    && 1 <= count <= 64 && first + count <= |frames|
    && BlockFrame(Picked(frames, first, count, 1)).Ok? && HeldSame(d, BlockFrame(Picked(frames, first, count, 1)).value)
  }

  lemma JointIsStored(t: Truth, d: Dir, base: nat, frames: seq<Frame>, first: nat, count: nat)
    requires GoodWindow(t, base, frames) && JointHeld(t, d, base, frames, first, count)
    ensures WindowRepair.ParityStored(d.eqs, base, |frames|, first, count)
  {
    hide GoodWindow, Deliverable, IsSessionStart, BlockFrame;
    BlockReceived(t, base, frames, first, count);
  }

  // With C2: all chains and any one record.
  lemma ChainWindowArrives(t: Truth, d: Dir, base: nat, frames: seq<Frame>, j: nat)
    requires GoodWindow(t, base, frames) && TrueDir(t, d) && Exhausted(d) && j < |frames| && base + j in d.data
    requires forall i: nat :: i + 1 < |frames| ==> ChainHeld(t, d, base, frames, i)
    ensures AllHere(d, base, frames)
  {
    hide GoodWindow, TrueDir, Exhausted, WindowRepair.ChainAt, ChainHeld;
    forall i | 0 <= i && i + 1 < |frames| ensures WindowRepair.ChainAt(d.eqs, base, |frames|, i) {
      ChainIsStored(t, d, base, frames, i);
    }
    WindowRepair.ChainWindowRecovered(t, d, base, |frames|, j);
    RecoveredIsHere(t, d, base, frames);
  }

  ghost predicate ChainHeld(t: Truth, d: Dir, base: nat, frames: seq<Frame>, i: nat)
    requires i + 1 < |frames|
  {
    && |frames[i].payload| < 0x1_0000 && |frames[i + 1].payload| < 0x1_0000
    && ChainFrame(frames[i], frames[i + 1]).Ok? && HeldSame(d, ChainFrame(frames[i], frames[i + 1]).value)
  }

  lemma ChainIsStored(t: Truth, d: Dir, base: nat, frames: seq<Frame>, i: nat)
    requires GoodWindow(t, base, frames) && i + 1 < |frames| && ChainHeld(t, d, base, frames, i)
    ensures WindowRepair.ChainAt(d.eqs, base, |frames|, i)
  {
    hide GoodWindow, Deliverable, IsSessionStart, ChainFrame;
    ChainReceived(t, base, frames, i);
  }

  // With groups of neighbours: every group's parity, and one record lost in each.
  lemma GroupWindowArrives(t: Truth, d: Dir, base: nat, frames: seq<Frame>, group: nat, lost: nat -> nat)
    requires GoodWindow(t, base, frames) && TrueDir(t, d) && Exhausted(d) && group > 0
    requires forall g: nat :: GroupHeld(t, d, base, frames, group, g)
    requires forall g: nat :: WindowRepair.SpanKnownBut(base, group, |frames|, g, lost(g), d.data.Keys)
    ensures AllHere(d, base, frames)
  {
    hide GoodFrame, TrueDir, Exhausted, WindowRepair.PlainStored, WindowRepair.SpanKnownBut, GroupHeld;
    forall g: nat ensures WindowRepair.PlainStored(d.eqs, base, |frames|, group, g) {
      GroupIsStored(t, d, base, frames, group, g);
    }
    WindowRepair.GroupsRecovered(t, d, base, |frames|, group, lost);
    RecoveredIsHere(t, d, base, frames);
  }

  ghost predicate GroupHeld(t: Truth, d: Dir, base: nat, frames: seq<Frame>, group: nat, g: nat)
    requires GoodWindow(t, base, frames)
  {
    var first := WindowRepair.SpanStart(group, g);
    first < |frames| ==> JointHeld(t, d, base, frames, first, WindowRepair.Least(group, |frames| - first))
  }

  lemma GroupIsStored(t: Truth, d: Dir, base: nat, frames: seq<Frame>, group: nat, g: nat)
    requires GoodWindow(t, base, frames) && GroupHeld(t, d, base, frames, group, g)
    ensures WindowRepair.PlainStored(d.eqs, base, |frames|, group, g)
  {
    hide GoodFrame, JointHeld, WindowRepair.ParityStored, WindowRepair.SpanStart, WindowRepair.Least;
    var first := WindowRepair.SpanStart(group, g);
    if first < |frames| {
      JointIsStored(t, d, base, frames, first, WindowRepair.Least(group, |frames| - first));
    }
  }

  // With wider chains: every parity of two neighbouring halves, one half whole
  // and one record lost in each other.
  lemma HalfWindowArrives(t: Truth, d: Dir, base: nat, frames: seq<Frame>, half: nat, j: nat, lost: nat -> nat)
    requires GoodWindow(t, base, frames) && TrueDir(t, d) && Exhausted(d) && half > 0
    requires forall h: nat :: HalfHeld(t, d, base, frames, half, h)
    requires WindowRepair.SpanStart(half, j) < |frames| && WindowRepair.SpanKnown(base, half, |frames|, j, d.data.Keys)
    requires forall k: nat :: WindowRepair.SpanKnownBut(base, half, |frames|, k, lost(k), d.data.Keys)
    ensures AllHere(d, base, frames)
  {
    hide GoodFrame, TrueDir, Exhausted, WindowRepair.HalfStored, WindowRepair.SpanKnownBut, WindowRepair.SpanKnown, WindowRepair.SpanStart, HalfHeld;
    forall h: nat ensures WindowRepair.HalfStored(d.eqs, base, |frames|, half, h) {
      HalfIsStored(t, d, base, frames, half, h);
    }
    WindowRepair.HalvesRecovered(t, d, base, |frames|, half, j, lost);
    RecoveredIsHere(t, d, base, frames);
  }

  ghost predicate HalfHeld(t: Truth, d: Dir, base: nat, frames: seq<Frame>, half: nat, h: nat)
    requires GoodWindow(t, base, frames)
  {
    var first := WindowRepair.SpanStart(half, h);
    WindowRepair.SpanStart(half, h + 1) < |frames| ==>
      first <= |frames| && JointHeld(t, d, base, frames, first, WindowRepair.Least(2 * half, |frames| - first))
  }

  lemma HalfIsStored(t: Truth, d: Dir, base: nat, frames: seq<Frame>, half: nat, h: nat)
    requires GoodWindow(t, base, frames) && HalfHeld(t, d, base, frames, half, h)
    ensures WindowRepair.HalfStored(d.eqs, base, |frames|, half, h)
  {
    hide GoodFrame, JointHeld, WindowRepair.ParityStored, WindowRepair.SpanStart, WindowRepair.Least;
    var first := WindowRepair.SpanStart(half, h);
    if WindowRepair.SpanStart(half, h + 1) < |frames| {
      JointIsStored(t, d, base, frames, first, WindowRepair.Least(2 * half, |frames| - first));
    }
  }

  // In the colour modes, from frame `first` on: every stride group's parity, one
  // image lost in each block.
  lemma ImageWindowArrives(t: Truth, d: Dir, base: nat, frames: seq<Frame>, first: nat, lost: nat -> nat)
    requires GoodWindow(t, base, frames) && TrueDir(t, d) && Exhausted(d)
    requires forall b: nat, c: nat :: StrideHeld(t, d, base, frames, first, b, c)
    requires forall b: nat, j: nat :: WindowRepair.KnownAt(base, |frames|, first, b, lost(b), d.data.Keys, j)
    ensures forall i :: first <= i < |frames| ==> HereAt(d, base, frames, i)
  {
    hide GoodFrame, TrueDir, Exhausted, WindowRepair.StoredAt, WindowRepair.KnownAt, StrideHeld, HereAt;
    forall b: nat ensures WindowRepair.GroupsStored(d.eqs, base, |frames|, first, b) {
      forall c: nat ensures WindowRepair.StoredAt(d.eqs, base, |frames|, first, b, c) {
        assert StrideHeld(t, d, base, frames, first, b, c);
        StrideIsStored(t, d, base, frames, first, b, c);
      }
    }
    WindowRepair.ImagesRecovered(t, d, base, |frames|, first, lost);
    forall i | first <= i < |frames| ensures HereAt(d, base, frames, i) {
      assert WindowRepair.Recovered(t, d, base, i);
      OneIsHere(t, d, base, frames, i);
    }
  }

  // Channel c of block b: every third of nine frames.
  ghost predicate StrideHeld(t: Truth, d: Dir, base: nat, frames: seq<Frame>, first: nat, b: nat, c: nat)
    requires GoodWindow(t, base, frames)
  {
    var g := RgbSchedule.GroupAt(|frames|, first + 9 * b, c);
    c < 3 && g.count > 0 ==>
      && g.count <= 3 && g.first + (g.count - 1) * 3 < |frames|
      && GroupBlockFrame(Picked(frames, g.first, g.count, 3), 3).Ok?
      && HeldSame(d, GroupBlockFrame(Picked(frames, g.first, g.count, 3), 3).value)
  }

  lemma StrideIsStored(t: Truth, d: Dir, base: nat, frames: seq<Frame>, first: nat, b: nat, c: nat)
    requires GoodWindow(t, base, frames) && StrideHeld(t, d, base, frames, first, b, c)
    ensures WindowRepair.StoredAt(d.eqs, base, |frames|, first, b, c)
  {
    hide GoodFrame, Deliverable, IsSessionStart, GroupBlockFrame, RgbSchedule.GroupAt;
    var g := RgbSchedule.GroupAt(|frames|, first + 9 * b, c);
    if c < 3 && g.count > 0 {
      StrideReceived(t, base, frames, g.first, g.count, 3);
    }
  }
}
