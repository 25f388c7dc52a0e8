// CRC-32 of dos_sender32/protocol32.c.  The specification is the bit-at-a-time
// reflected CRC of RFC 1952 section 8; the implementation is the byte table,
// its three slices and the four-bytes-per-step loop.

module Crc32 {
  import opened Gf2

  const POLY: Word := 0xEDB88320
  const START: Word := 0xFFFFFFFF

  function Half(c: Word): Word { c >> 1 }

  predicate Odd(c: Word) { c & 1 == 1 }

  // One bit of the reflected division.
  function BitStep(c: Word): Word {
    if Odd(c) then Plus(POLY, Half(c)) else Half(c)
  }

  function BitSteps(c: Word, n: nat): Word
    decreases n
  {
    if n == 0 then c else BitSteps(BitStep(c), n - 1)
  }

  // RFC 1952: XOR the byte into the low end of the register, then eight bit steps.
  function ByteStep(c: Word, b: Byte): Word {
    BitSteps(Plus(c, Wide(b)), 8)
  }

  // The running register after a whole string.
  function Run(c: Word, data: Bytes): Word
    decreases |data|
  {
    if |data| == 0 then c else ByteStep(Run(c, data[..|data| - 1]), data[|data| - 1])
  }

  function Crc(data: Bytes): Word {
    Plus(Run(START, data), START)
  }

  // ----- the register transition is GF(2)-linear

  lemma HalfXor(a: Word, b: Word)
    ensures (a ^ b) >> 1 == (a >> 1) ^ (b >> 1)
    ensures ((a ^ b) & 1 == 1) == ((a & 1 == 1) != (b & 1 == 1))
  {}

  lemma HalfPlus(a: Word, b: Word)
    ensures Half(Plus(a, b)) == Plus(Half(a), Half(b))
    ensures Odd(Plus(a, b)) == (Odd(a) != Odd(b))
  {
    HalfXor(a, b);
  }

  lemma BitStepPlus(a: Word, b: Word)
    ensures BitStep(Plus(a, b)) == Plus(BitStep(a), BitStep(b))
  {
    hide Plus, Half, Odd;
    HalfPlus(a, b);
    var x, y := Half(a), Half(b);
    PlusAssoc(POLY, x, y);
    PlusAssoc(x, POLY, y);
    PlusComm(x, POLY);
    PlusCross(POLY, x, POLY, y);
    PlusSelf(POLY);
    PlusZero(Plus(x, y));
  }

  lemma {:induction false} BitStepsPlus(a: Word, b: Word, n: nat)
    ensures BitSteps(Plus(a, b), n) == Plus(BitSteps(a, n), BitSteps(b, n))
    decreases n
  {
    hide BitStep, Plus;
    if n > 0 {
      BitStepPlus(a, b);
      BitStepsPlus(BitStep(a), BitStep(b), n - 1);
    }
  }

  lemma {:induction false} BitStepsAdd(c: Word, m: nat, n: nat)
    ensures BitSteps(c, m + n) == BitSteps(BitSteps(c, m), n)
    decreases m
  {
    hide BitStep;
    if m > 0 {
      BitStepsAdd(BitStep(c), m - 1, n);
    }
  }

  lemma EvenShifts(c: Word)
    requires c & 0xFF == 0
    ensures c & 1 == 0
    ensures (c >> 1) & 1 == 0 && (c >> 1) >> 1 == c >> 2
    ensures (c >> 2) & 1 == 0 && (c >> 2) >> 1 == c >> 3
    ensures (c >> 3) & 1 == 0 && (c >> 3) >> 1 == c >> 4
    ensures (c >> 4) & 1 == 0 && (c >> 4) >> 1 == c >> 5
    ensures (c >> 5) & 1 == 0 && (c >> 5) >> 1 == c >> 6
    ensures (c >> 6) & 1 == 0 && (c >> 6) >> 1 == c >> 7
    ensures (c >> 7) & 1 == 0 && (c >> 7) >> 1 == c >> 8
  {}

  lemma EvenSteps(c: Word)
    requires c & 0xFF == 0
    ensures BitStep(c) == c >> 1
    ensures BitStep(c >> 1) == c >> 2
    ensures BitStep(c >> 2) == c >> 3
    ensures BitStep(c >> 3) == c >> 4
    ensures BitStep(c >> 4) == c >> 5
    ensures BitStep(c >> 5) == c >> 6
    ensures BitStep(c >> 6) == c >> 7
    ensures BitStep(c >> 7) == c >> 8
  {
    EvenShifts(c);
  }

  // A register whose low byte is clear just shifts down by a byte.
  lemma ShiftByte(c: Word)
    requires c & 0xFF == 0
    ensures BitSteps(c, 8) == c >> 8
  {
    hide BitStep;
    EvenSteps(c);
    assert BitSteps(c, 8) == BitSteps(c >> 1, 7);
    assert BitSteps(c >> 1, 7) == BitSteps(c >> 2, 6);
    assert BitSteps(c >> 2, 6) == BitSteps(c >> 3, 5);
    assert BitSteps(c >> 3, 5) == BitSteps(c >> 4, 4);
    assert BitSteps(c >> 4, 4) == BitSteps(c >> 5, 3);
    assert BitSteps(c >> 5, 3) == BitSteps(c >> 6, 2);
    assert BitSteps(c >> 6, 2) == BitSteps(c >> 7, 1);
    assert BitSteps(c >> 7, 1) == BitSteps(c >> 8, 0);
  }

  // ----- the byte table

  // Entry b of the table: eight bit steps from the byte itself.
  function Entry(b: Byte): Word {
    BitSteps(Wide(b), 8)
  }

  function High(c: Word): Word { c & 0xFFFFFF00 }

  function Down8(c: Word): Word { c >> 8 }

  lemma SplitWord(c: Word)
    ensures Plus(Wide(Low(c)), High(c)) == c
  {}

  lemma DownPlus(c: Word, b: Byte)
    ensures Down8(Plus(c, Wide(b))) == Down8(c)
  {}

  lemma HighDown(c: Word)
    ensures High(c) & 0xFF == 0 && High(c) >> 8 == Down8(c)
  {}

  lemma HighSteps(c: Word)
    ensures BitSteps(High(c), 8) == Down8(c)
  {
    HighDown(c);
    ShiftByte(High(c));
  }

  // The table-driven byte step of the C loop is the RFC's byte step.
  lemma TableStep(c: Word, b: Byte)
    ensures ByteStep(c, b) == Plus(Entry(Low(Plus(c, Wide(b)))), Down8(c))
  {
    hide Plus, BitSteps, Wide, Low, High, Down8;
    var x := Plus(c, Wide(b));
    SplitWord(x);
    DownPlus(c, b);
    BitStepsPlus(Wide(Low(x)), High(x), 8);
    HighSteps(x);
  }

  // ----- four bytes at a time

  function Up8(b: Byte): Word { Wide(b) << 8 }
  function Up16(b: Byte): Word { Wide(b) << 16 }
  function Up24(b: Byte): Word { Wide(b) << 24 }

  lemma Up8Down(b: Byte)
    ensures Up8(b) & 0xFF == 0 && Up8(b) >> 8 == Wide(b)
  {}

  lemma Up16Down(b: Byte)
    ensures Up16(b) & 0xFF == 0 && Up16(b) >> 8 == Up8(b)
  {}

  lemma Up24Down(b: Byte)
    ensures Up24(b) & 0xFF == 0 && Up24(b) >> 8 == Up16(b)
  {}

  // A byte placed k bytes higher needs k more byte steps to reach the bottom.
  lemma PlacedSteps(b: Byte, n: nat)
    ensures BitSteps(Up8(b), 8 + n) == BitSteps(Wide(b), n)
    ensures BitSteps(Up16(b), 16 + n) == BitSteps(Wide(b), n)
    ensures BitSteps(Up24(b), 24 + n) == BitSteps(Wide(b), n)
  {
    hide BitSteps, Up8, Up16, Up24, Wide;
    Up8Down(b); ShiftByte(Up8(b)); BitStepsAdd(Up8(b), 8, n);
    Up16Down(b); ShiftByte(Up16(b)); BitStepsAdd(Up16(b), 8, 8 + n);
    Up24Down(b); ShiftByte(Up24(b)); BitStepsAdd(Up24(b), 8, 16 + n);
  }

  // Little-endian load and store of a word.
  function Load(b0: Byte, b1: Byte, b2: Byte, b3: Byte): Word {
    Wide(b0) | Up8(b1) | Up16(b2) | Up24(b3)
  }

  function Byte1(w: Word): Byte { Low(w >> 8) }
  function Byte2(w: Word): Byte { Low(w >> 16) }
  function Byte3(w: Word): Byte { Low(w >> 24) }

  function Store(w: Word): (s: Bytes)
    ensures |s| == 4
  {
    [Low(w), Byte1(w), Byte2(w), Byte3(w)]
  }

  lemma LoadPlus(b0: Byte, b1: Byte, b2: Byte, b3: Byte)
    ensures Load(b0, b1, b2, b3) == Plus(Plus(Wide(b0), Up8(b1)), Plus(Up16(b2), Up24(b3)))
  {}

  lemma LoadStore(w: Word)
    ensures Load(Low(w), Byte1(w), Byte2(w), Byte3(w)) == w
  {}

  // One more byte, k byte steps after the register x started, is one more
  // term in x.
  lemma Absorb(x: Word, y: Word, n: nat, b: Byte)
    requires BitSteps(y, n) == Wide(b)
    ensures ByteStep(BitSteps(x, n), b) == BitSteps(Plus(x, y), n + 8)
  {
    hide BitSteps, Plus, Wide;
    BitStepsPlus(x, y, n);
    BitStepsAdd(Plus(x, y), n, 8);
  }

  lemma FourBytes(c: Word, b0: Byte, b1: Byte, b2: Byte, b3: Byte)
    ensures ByteStep(ByteStep(ByteStep(ByteStep(c, b0), b1), b2), b3)
         == BitSteps(Plus(c, Load(b0, b1, b2, b3)), 32)
  {
    hide Plus, Wide, Up8, Up16, Up24, Load, BitStep, ByteStep;
    PlacedSteps(b1, 0);
    PlacedSteps(b2, 0);
    PlacedSteps(b3, 0);
    var x0 := Plus(c, Wide(b0));
    var x1 := Plus(x0, Up8(b1));
    var x2 := Plus(x1, Up16(b2));
    assert ByteStep(c, b0) == BitSteps(x0, 8) by { ByteStepDef(c, b0); }
    Absorb(x0, Up8(b1), 8, b1);
    Absorb(x1, Up16(b2), 16, b2);
    Absorb(x2, Up24(b3), 24, b3);
    LoadPlus(b0, b1, b2, b3);
    PlusAssoc(c, Wide(b0), Up8(b1));
    PlusAssoc(x1, Up16(b2), Up24(b3));
    PlusAssoc(c, Plus(Wide(b0), Up8(b1)), Plus(Up16(b2), Up24(b3)));
  }

  lemma ByteStepDef(c: Word, b: Byte)
    ensures ByteStep(c, b) == BitSteps(Plus(c, Wide(b)), 8)
  {}

  // Row k of the slices: k + 2 byte steps from the byte.
  function Slice(k: nat, b: Byte): Word {
    BitSteps(Wide(b), 16 + 8 * k)
  }

  // The four look-ups of crc_word.
  function WordStep(state: Word, value: Word): Word {
    var s := Plus(state, value);
    Plus(Plus(Slice(2, Low(s)), Slice(1, Byte1(s))), Plus(Slice(0, Byte2(s)), Entry(Byte3(s))))
  }

  lemma WordSteps(w: Word)
    ensures BitSteps(w, 32)
         == Plus(Plus(Slice(2, Low(w)), Slice(1, Byte1(w))), Plus(Slice(0, Byte2(w)), Entry(Byte3(w))))
  {
    hide Plus, Wide, Up8, Up16, Up24, Load, BitStep, BitSteps, Low, Byte1, Byte2, Byte3;
    var b0, b1, b2, b3 := Low(w), Byte1(w), Byte2(w), Byte3(w);
    LoadStore(w);
    LoadPlus(b0, b1, b2, b3);
    BitStepsPlus(Plus(Wide(b0), Up8(b1)), Plus(Up16(b2), Up24(b3)), 32);
    BitStepsPlus(Wide(b0), Up8(b1), 32);
    BitStepsPlus(Up16(b2), Up24(b3), 32);
    PlacedSteps(b1, 24);
    PlacedSteps(b2, 16);
    PlacedSteps(b3, 8);
  }

  lemma WordStepIsFourBytes(c: Word, b0: Byte, b1: Byte, b2: Byte, b3: Byte)
    ensures WordStep(c, Load(b0, b1, b2, b3)) == Run(c, [b0, b1, b2, b3])
  {
    hide Plus, Load, BitSteps, Low, Byte1, Byte2, Byte3, ByteStep, Slice, Entry;
    FourBytes(c, b0, b1, b2, b3);
    WordSteps(Plus(c, Load(b0, b1, b2, b3)));
    var d := [b0, b1, b2, b3];
    assert d[..3] == [b0, b1, b2] && d[..3][..2] == [b0, b1] && d[..3][..2][..1] == [b0];
    assert [b0][..0] == [];
    assert Run(c, [b0]) == ByteStep(c, b0);
    assert Run(c, [b0, b1]) == ByteStep(Run(c, [b0]), b1) by { assert [b0, b1][..1] == [b0]; }
    assert Run(c, [b0, b1, b2]) == ByteStep(Run(c, [b0, b1]), b2) by { assert [b0, b1, b2][..2] == [b0, b1]; }
  }

  // Updating over a concatenation composes.
  lemma {:induction false} RunConcat(c: Word, a: Bytes, b: Bytes)
    ensures Run(c, a + b) == Run(Run(c, a), b)
    decreases |b|
  {
    hide ByteStep;
    if b == [] {
      assert a + b == a;
    } else {
      var m := b[..|b| - 1];
      assert (a + b)[..|a + b| - 1] == a + m;
      RunConcat(c, a, m);
    }
  }

  // crc32_update: continue from a finished checksum.
  function CrcUpdate(crc: Word, data: Bytes): Word {
    Plus(Run(Plus(crc, START), data), START)
  }

  lemma CrcOfPieces(a: Bytes, b: Bytes)
    ensures CrcUpdate(Crc(a), b) == Crc(a + b) && Crc([]) == 0
  {
    hide Plus;
    PlusCancel(Run(START, a), START);
    RunConcat(START, a, b);
    PlusSelf(START);
  }

  // CRC is affine: for strings of one length the XOR of the data is the XOR of
  // the registers, corrected by the register of the zero string.
  lemma {:induction false} RunXor(c: Word, d: Word, a: Bytes, b: Bytes)
    requires |a| == |b|
    ensures Run(Plus(c, d), Xor(a, b)) == Plus(Run(c, a), Run(d, b))
    decreases |a|
  {
    hide BitSteps, Plus, Wide;
    if a != [] {
      var n := |a| - 1;
      XorSlice(a, b, 0, n);
      RunXor(c, d, a[..n], b[..n]);
      var x, y := Run(c, a[..n]), Run(d, b[..n]);
      WidePlus(a[n], b[n]);
      PlusCross(x, y, Wide(a[n]), Wide(b[n]));
      BitStepsPlus(Plus(x, Wide(a[n])), Plus(y, Wide(b[n])), 8);
    }
  }

  lemma CrcXor(a: Bytes, b: Bytes)
    requires |a| == |b|
    ensures Crc(Xor(a, b)) == Plus(Plus(Crc(a), Crc(b)), Crc(Zeros(|a|)))
  {
    hide Run, Plus;
    var z, x, y := Zeros(|a|), Run(START, a), Run(START, b);
    var o := Run(START, z);
    RunXor(START, START, a, b);
    RunXor(0, START, Xor(a, b), z);
    XorZero(Xor(a, b));
    PlusSelf(START);
    PlusZero(START);
    var r := Run(START, Xor(a, b));
    assert r == Plus(Plus(x, y), o);
    PlusCross(x, START, y, START);
    PlusZero(Plus(x, y));
    PlusAssoc(Plus(x, y), o, START);
  }

  lemma Index(b: Byte)
    ensures 0 <= b as int < 256 && (b as int) as Byte == b
  {}

  lemma SliceRow(k: nat, b: Byte)
    ensures Slice(k, b) == (if k == 0 then ByteStep(Entry(b), 0) else ByteStep(Slice(k - 1, b), 0))
  {
    hide BitSteps, Plus, Wide;
    var c := if k == 0 then Entry(b) else Slice(k - 1, b);
    BitStepsAdd(Wide(b), 8 + 8 * k, 8);
    WideZero();
    PlusZero(c);
  }

  lemma WideZero()
    ensures Wide(0) == 0
  {}

  // crc_table and crc_slice, filled once.
  class Tables {
    const table: array<Word>
    const slice: array2<Word>

    ghost predicate Valid()
      reads table, slice
    {
      && table.Length == 256 && slice.Length0 == 3 && slice.Length1 == 256
      && (forall i :: 0 <= i < 256 ==> table[i] == Entry(i as Byte))
      && (forall k, i :: 0 <= k < 3 && 0 <= i < 256 ==> slice[k, i] == Slice(k, i as Byte))
    }

    constructor ()
      ensures Valid() && fresh(table) && fresh(slice)
    {
      hide BitSteps, Plus, Wide;
      table := new Word[256];
      slice := new Word[3, 256];
      new;
      for i := 0 to 256
        invariant forall j :: 0 <= j < i ==> table[j] == Entry(j as Byte)
      {
        var c := Wide(i as Byte);
        for bit := 0 to 8
          invariant BitSteps(c, 8 - bit) == Entry(i as Byte)
          invariant forall j :: 0 <= j < i ==> table[j] == Entry(j as Byte)
        {
          BitStepsUnfold(c, 8 - bit);
          c := if Odd(c) then Plus(POLY, Half(c)) else Half(c);
        }
        BitStepsNone(c);
        table[i] := c;
      }
      for i := 0 to 256
        invariant forall j :: 0 <= j < 256 ==> table[j] == Entry(j as Byte)
        invariant forall k, j :: 0 <= k < 3 && 0 <= j < i ==> slice[k, j] == Slice(k, j as Byte)
      {
        for k := 0 to 3
          invariant forall j :: 0 <= j < 256 ==> table[j] == Entry(j as Byte)
          invariant forall m, j :: 0 <= m < 3 && 0 <= j < i ==> slice[m, j] == Slice(m, j as Byte)
          invariant forall m :: 0 <= m < k ==> slice[m, i] == Slice(m, i as Byte)
        {
          var c := if k == 0 then table[i] else slice[k - 1, i];
          slice[k, i] := Plus(Down8(c), table[Low(c) as int]);
          SliceRow(k, i as Byte);
          Index(Low(c));
          TableStep(c, 0);
          WideZero();
          PlusZero(c);
          PlusComm(Down8(c), Entry(Low(c)));
        }
      }
    }

    // crc_word: four table look-ups advance the register by four bytes.
    method Word4(state: Word, value: Word) returns (r: Word)
      requires Valid()
      ensures r == WordStep(state, value)
    {
      hide BitSteps, Plus, Low, Byte1, Byte2, Byte3, Slice, Entry;
      var s := Plus(state, value);
      Index(Low(s));
      Index(Byte1(s));
      Index(Byte2(s));
      Index(Byte3(s));
      r := Plus(Plus(slice[2, Low(s) as int], slice[1, Byte1(s) as int]),
                Plus(slice[0, Byte2(s) as int], table[Byte3(s) as int]));
    }

    // The byte step of the tail loops.
    method Byte1Step(state: Word, b: Byte) returns (r: Word)
      requires Valid()
      ensures r == ByteStep(state, b)
    {
      hide BitSteps, Plus, Low, Wide, Down8, Entry;
      TableStep(state, b);
      Index(Low(Plus(state, Wide(b))));
      r := Plus(table[Low(Plus(state, Wide(b))) as int], Down8(state));
    }

    // dos32_crc_update: whole words first, then the last one to three bytes.
    method Update(start: Word, data: Bytes) returns (state: Word)
      requires Valid()
      ensures state == Run(start, data)
    {
      hide BitSteps, Plus, Wide, ByteStep, WordStep, Load;
      state := start;
      var i := 0;
      while |data| - i >= 4
        invariant 0 <= i <= |data|
        invariant state == Run(start, data[..i])
      {
        WordStepIsFourBytes(state, data[i], data[i + 1], data[i + 2], data[i + 3]);
        RunConcat(start, data[..i], [data[i], data[i + 1], data[i + 2], data[i + 3]]);
        assert data[..i + 4] == data[..i] + [data[i], data[i + 1], data[i + 2], data[i + 3]];
        state := Word4(state, Load(data[i], data[i + 1], data[i + 2], data[i + 3]));
        i := i + 4;
      }
      while i < |data|
        invariant 0 <= i <= |data|
        invariant state == Run(start, data[..i])
      {
        assert data[..i + 1][..i] == data[..i];
        state := Byte1Step(state, data[i]);
        i := i + 1;
      }
      assert data[..|data|] == data;
    }
  }

  lemma BitStepsUnfold(c: Word, n: nat)
    requires n > 0
    ensures BitSteps(c, n) == BitSteps(if Odd(c) then Plus(POLY, Half(c)) else Half(c), n - 1)
  {}

  lemma BitStepsNone(c: Word)
    ensures BitSteps(c, 0) == c
  {}
}
