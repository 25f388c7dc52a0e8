// vga.c: the contribution tables of the stripe renderer.  One 32-bit entry per
// lane and source byte holds the four framebuffer bytes that the byte's four
// row pairs toggle, bottom row first.

module StripeTables {
  import opened Gf2
  import opened StripeRuns

  // ----- normalisation and transpose

  function PairSwap(b: Byte): Byte {
    ((b & 0xAA) >> 1) | ((b & 0x55) << 1)
  }

  function BitReverse(b: Byte): Byte {
    var v := (b >> 4) | (b << 4);
    var w := ((v & 0xCC) >> 2) | ((v & 0x33) << 2);
    ((w & 0xAA) >> 1) | ((w & 0x55) << 1)
  }

  function Transpose(value: Word): Word {
    var s := ((value >> 6) ^ value) & 0x00CC00CC;
    var v := value ^ (s ^ (s << 6));
    var u := ((v >> 12) ^ v) & 0x0000F0F0;
    v ^ u ^ (u << 12)
  }

  function InLane(lane: nat, n: Byte): Word {
    if lane == 0 then n as Word else if lane == 1 then (n as Word) << 8 else if lane == 2 then (n as Word) << 16 else (n as Word) << 24
  }

  // stripe_group_normalized_contribution.
  function Placed(lane: nat, normalized: Byte): Word {
    Transpose(InLane(lane, normalized))
  }

  // stripe_group_lane_contribution.
  function Contribution(lane: nat, raw: Byte): Word {
    Placed(lane, if lane % 2 == 1 then PairSwap(raw) else BitReverse(raw))
  }

  function PhaseNormal(lane: nat, key: Byte): Byte {
    if lane % 2 == 0 then (BitReverse(key & 0xF0) << 4) | (BitReverse(key & 0x0F) >> 4)
    else (PairSwap(key >> 4) << 4) | (PairSwap(key << 4) >> 4)
  }

  // stripe_phase_lane_contribution.
  function PhaseContribution(lane: nat, key: Byte): Word {
    Placed(lane, PhaseNormal(lane, key))
  }

  // The join of two source bytes into one table key.
  function PhaseKey(lane: nat, current: Byte, next: Byte): Byte {
    if lane % 2 == 0 then (current & 0xF0) | (next & 0x0F) else ((current & 0x0F) << 4) | ((next & 0xF0) >> 4)
  }

  // ----- the bytes of a word, bottom row first

  function ByteOf(w: Word, b: nat): Byte {
    if b == 0 then (w & 0xFF) as Byte else if b == 1 then ((w >> 8) & 0xFF) as Byte
    else if b == 2 then ((w >> 16) & 0xFF) as Byte else (w >> 24) as Byte
  }

  lemma ByteOfPlus(v: Word, w: Word, b: nat)
    requires b < 4
    ensures ByteOf(Plus(v, w), b) == Add(ByteOf(v, b), ByteOf(w, b))
  {
    hide Plus, Add;
    if b == 0 { Plus0(v, w); } else if b == 1 { Plus8(v, w); } else if b == 2 { Plus16(v, w); } else { Plus24(v, w); }
  }

  lemma Plus0(v: Word, w: Word)
    ensures (Plus(v, w) & 0xFF) as Byte == Add((v & 0xFF) as Byte, (w & 0xFF) as Byte)
  {}

  lemma Plus8(v: Word, w: Word)
    ensures ((Plus(v, w) >> 8) & 0xFF) as Byte == Add(((v >> 8) & 0xFF) as Byte, ((w >> 8) & 0xFF) as Byte)
  {}

  lemma Plus16(v: Word, w: Word)
    ensures ((Plus(v, w) >> 16) & 0xFF) as Byte == Add(((v >> 16) & 0xFF) as Byte, ((w >> 16) & 0xFF) as Byte)
  {}

  lemma Plus24(v: Word, w: Word)
    ensures (Plus(v, w) >> 24) as Byte == Add((v >> 24) as Byte, (w >> 24) as Byte)
  {}

  // ----- the four masks

  function SlotRight(slot: nat): Byte {
    if slot == 0 then 0x01 else if slot == 1 then 0x04 else if slot == 2 then 0x10 else 0x40
  }

  // stripe_group_slot.
  function SlotOf(mask: Byte): int {
    if mask == 0x03 then 0 else if mask == 0x0C then 1 else if mask == 0x30 then 2 else if mask == 0xC0 then 3 else -1
  }

  lemma SlotMasks(right: Byte)
    requires Single(right)
    ensures var s := SlotOf(Both(right, LeftOf(right))); -1 <= s < 4 && (s >= 0 ==> right == SlotRight(s))
  {}

  // The pair of bits toggled in lane `lane`.
  function LaneMask(lane: nat, p: Byte): Byte {
    PairMask(SlotRight(lane), LeftOf(SlotRight(lane)), p)
  }

  // ----- what a table entry holds

  // The row pair that byte b of an entry shows: lanes 1 and 3 run downwards,
  // lanes 0 and 2 upwards.
  function RowPair(lane: nat, b: nat): (r: nat)
    requires b < 4
    ensures r < 4
  {
    if lane % 2 == 1 then 3 - b else b
  }

  lemma Lane0(v: Byte)
    ensures var w := Contribution(0, v);
            && ByteOf(w, 0) == LaneMask(0, Pair(v, 0)) && ByteOf(w, 1) == LaneMask(0, Pair(v, 1))
            && ByteOf(w, 2) == LaneMask(0, Pair(v, 2)) && ByteOf(w, 3) == LaneMask(0, Pair(v, 3))
  {}

  lemma Lane1(v: Byte)
    ensures var w := Contribution(1, v);
            && ByteOf(w, 0) == LaneMask(1, Pair(v, 3)) && ByteOf(w, 1) == LaneMask(1, Pair(v, 2))
            && ByteOf(w, 2) == LaneMask(1, Pair(v, 1)) && ByteOf(w, 3) == LaneMask(1, Pair(v, 0))
  {}

  lemma Lane2(v: Byte)
    ensures var w := Contribution(2, v);
            && ByteOf(w, 0) == LaneMask(2, Pair(v, 0)) && ByteOf(w, 1) == LaneMask(2, Pair(v, 1))
            && ByteOf(w, 2) == LaneMask(2, Pair(v, 2)) && ByteOf(w, 3) == LaneMask(2, Pair(v, 3))
  {}

  lemma Lane3(v: Byte)
    ensures var w := Contribution(3, v);
            && ByteOf(w, 0) == LaneMask(3, Pair(v, 3)) && ByteOf(w, 1) == LaneMask(3, Pair(v, 2))
            && ByteOf(w, 2) == LaneMask(3, Pair(v, 1)) && ByteOf(w, 3) == LaneMask(3, Pair(v, 0))
  {}

  // Each table entry is the reference toggles of its four row pairs.
  lemma ContributionRows(lane: nat, v: Byte, b: nat)
    requires lane < 4 && b < 4
    ensures ByteOf(Contribution(lane, v), b) == LaneMask(lane, Pair(v, RowPair(lane, b)))
  {
    hide Contribution, ByteOf, LaneMask, Pair;
    if lane == 0 { Lane0(v); } else if lane == 1 { Lane1(v); } else if lane == 2 { Lane2(v); } else { Lane3(v); }
  }

  // Downward lanes look phase keys up as if they were source bytes.
  lemma OddPhase(lane: nat, key: Byte)
    requires lane % 2 == 1
    ensures PhaseNormal(lane, key) == PairSwap(key)
  {}

  lemma Even0(key: Byte)
    ensures var w := PhaseContribution(0, key);
            && ByteOf(w, 0) == LaneMask(0, Pair(key, 2)) && ByteOf(w, 1) == LaneMask(0, Pair(key, 3))
            && ByteOf(w, 2) == LaneMask(0, Pair(key, 0)) && ByteOf(w, 3) == LaneMask(0, Pair(key, 1))
  {}

  lemma Even2(key: Byte)
    ensures var w := PhaseContribution(2, key);
            && ByteOf(w, 0) == LaneMask(2, Pair(key, 2)) && ByteOf(w, 1) == LaneMask(2, Pair(key, 3))
            && ByteOf(w, 2) == LaneMask(2, Pair(key, 0)) && ByteOf(w, 3) == LaneMask(2, Pair(key, 1))
  {}

  lemma KeyPairs(current: Byte, next: Byte)
    ensures var k := PhaseKey(0, current, next);
            && Pair(k, 0) == Pair(current, 0) && Pair(k, 1) == Pair(current, 1) && Pair(k, 2) == Pair(next, 2) && Pair(k, 3) == Pair(next, 3)
    ensures var k := PhaseKey(1, current, next);
            && Pair(k, 0) == Pair(current, 2) && Pair(k, 1) == Pair(current, 3) && Pair(k, 2) == Pair(next, 0) && Pair(k, 3) == Pair(next, 1)
  {}

  // Which of the two joined bytes byte b of a phase entry shows, and which of
  // its row pairs: two rows of each.
  function PhasePair(lane: nat, current: Byte, next: Byte, b: nat): Byte
    requires b < 4
  {
    if lane % 2 == 0 then (if b < 2 then Pair(next, b + 2) else Pair(current, b - 2))
    else (if b < 2 then Pair(next, 1 - b) else Pair(current, 5 - b))
  }

  // A phase entry joins the last two rows of one codeword with the first two of
  // its neighbour.
  lemma PhaseRows(lane: nat, current: Byte, next: Byte, b: nat)
    requires lane < 4 && b < 4
    ensures ByteOf(PhaseContribution(lane, PhaseKey(lane, current, next)), b) == LaneMask(lane, PhasePair(lane, current, next, b))
  {
    hide ByteOf, LaneMask, Pair, PairSwap, BitReverse, PhaseNormal, Placed;
    var key := PhaseKey(lane, current, next);
    KeyPairs(current, next);
    assert key == PhaseKey(lane % 2, current, next);
    hide PhaseKey;
    if lane == 0 {
      Even0(key);
    } else if lane == 2 {
      Even2(key);
    } else {
      OddPhase(lane, key);
      ContributionRows(lane, key, b);
    }
  }

  // ----- the tables against the transpose kernel

  lemma TransposePlus(v: Word, w: Word)
    ensures Transpose(Plus(v, w)) == Plus(Transpose(v), Transpose(w))
  {}

  // Four table reads replace normalising the four lanes, packing them and
  // transposing the 4x4 matrix of bit pairs.
  lemma TablesAreTranspose(a: Byte, b: Byte, c: Byte, d: Byte)
    ensures Plus(Plus(Contribution(0, a), Contribution(1, b)), Plus(Contribution(2, c), Contribution(3, d)))
         == Transpose(Plus(Plus(InLane(0, BitReverse(a)), InLane(1, PairSwap(b))), Plus(InLane(2, BitReverse(c)), InLane(3, PairSwap(d)))))
  {
    hide Plus, Transpose, InLane, BitReverse, PairSwap;
    var x, y, z, w := InLane(0, BitReverse(a)), InLane(1, PairSwap(b)), InLane(2, BitReverse(c)), InLane(3, PairSwap(d));
    TransposePlus(x, y);
    TransposePlus(z, w);
    TransposePlus(Plus(x, y), Plus(z, w));
  }
}
