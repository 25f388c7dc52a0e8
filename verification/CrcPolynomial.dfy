// The checksum as polynomial division: the register after a string is the
// remainder modulo the generator polynomial of IEEE 802.3 (RFC 1952, section 8),
// computed here by long division on coefficient lists.

module CrcPolynomial {
  import opened Gf2
  import opened Crc32

  // Coefficients from the highest power down.
  type Poly = seq<bool>

  // The powers of the generator below x^32.
  predicate Power(n: int) {
    n == 26 || n == 23 || n == 22 || n == 16 || n == 12 || n == 11 || n == 10 || n == 8 || n == 7 || n == 5 || n == 4 ||
    n == 2 || n == 1 || n == 0
  }

  function Tail(): (r: Poly)
    ensures |r| == 32 && forall i :: 0 <= i < 32 ==> r[i] == Power(31 - i)
  {
    seq(32, i requires 0 <= i < 32 => Power(31 - i))
  }

  function Differ(a: Poly, b: Poly): (r: Poly)
    requires |a| == |b|
    ensures |r| == |a| && forall i :: 0 <= i < |r| ==> r[i] == (a[i] != b[i])
  {
    seq(|a|, i requires 0 <= i < |a| => a[i] != b[i])
  }

  // Long division by x^32 + ...: what is left of degree 31 and below.
  function Remainder(p: Poly): (r: Poly)
    ensures |p| >= 32 ==> |r| == 32
    decreases |p|
  {
    if |p| <= 32 then p
    else if p[0] then Remainder(Differ(p[1..33], Tail()) + p[33..])
    else Remainder(p[1..])
  }

  // Bits of a word, the lowest first.
  function Halves(c: Word, n: nat): Word
    decreases n
  {
    if n == 0 then c else Halves(Half(c), n - 1)
  }

  predicate BitOf(c: Word, i: nat) {
    Odd(Halves(c, i))
  }

  // The reflected register holds the highest power in its lowest bit.
  function Register(c: Word): (r: Poly)
    ensures |r| == 32 && forall i :: 0 <= i < 32 ==> r[i] == BitOf(c, i)
  {
    seq(32, i requires 0 <= i < 32 => BitOf(c, i))
  }

  // Bytes go in with their lowest bit first.
  function ByteBits(b: Byte): (r: Poly)
    ensures |r| == 8 && forall i :: 0 <= i < 8 ==> r[i] == BitOf(Wide(b), i)
  {
    seq(8, i requires 0 <= i < 8 => BitOf(Wide(b), i))
  }

  function DataBits(data: Bytes): (r: Poly)
    ensures |r| == 8 * |data|
  {
    if data == [] then [] else ByteBits(data[0]) + DataBits(data[1..])
  }

  // message * x^32 + start * x^|message|.
  function Dividend(start: Poly, message: Poly): (r: Poly)
    requires |start| == 32
    ensures |r| == |message| + 32
    ensures forall i :: 0 <= i < |r| ==> r[i] == ((i < 32 && start[i]) != (i < |message| && message[i]))
  {
    seq(|message| + 32, i requires 0 <= i < |message| + 32 => (i < 32 && start[i]) != (i < |message| && message[i]))
  }

  // ----- bits of words

  lemma {:induction false} HalvesPlus(a: Word, b: Word, n: nat)
    ensures Halves(Plus(a, b), n) == Plus(Halves(a, n), Halves(b, n))
    decreases n
  {
    hide Plus, Half, Odd;
    if n > 0 {
      HalfPlus(a, b);
      HalvesPlus(Half(a), Half(b), n - 1);
    }
  }

  lemma BitOfPlus(a: Word, b: Word, i: nat)
    ensures BitOf(Plus(a, b), i) == (BitOf(a, i) != BitOf(b, i))
  {
    hide Plus, Half, Odd, Halves;
    HalvesPlus(a, b, i);
    HalfPlus(Halves(a, i), Halves(b, i));
  }

  lemma {:induction false} HalvesAdd(c: Word, m: nat, n: nat)
    ensures Halves(c, m + n) == Halves(Halves(c, m), n)
    decreases m
  {
    hide Half;
    if m > 0 { HalvesAdd(Half(c), m - 1, n); }
  }

  lemma HalfSteps(c: Word)
    ensures Half(c) == c >> 1 && Half(c >> 1) == c >> 2 && Half(c >> 2) == c >> 3 && Half(c >> 3) == c >> 4
    ensures Half(c >> 4) == c >> 5 && Half(c >> 5) == c >> 6 && Half(c >> 6) == c >> 7 && Half(c >> 7) == c >> 8
  {}

  lemma FirstHalves(c: Word)
    ensures Halves(c, 1) == c >> 1 && Halves(c, 2) == c >> 2 && Halves(c, 3) == c >> 3 && Halves(c, 4) == c >> 4
    ensures Halves(c, 5) == c >> 5 && Halves(c, 6) == c >> 6 && Halves(c, 7) == c >> 7 && Halves(c, 8) == c >> 8
  {
    hide Half;
    HalfSteps(c);
    HalvesAdd(c, 1, 1);
    HalvesAdd(c, 2, 1);
    HalvesAdd(c, 3, 1);
    HalvesAdd(c, 4, 1);
    HalvesAdd(c, 5, 1);
    HalvesAdd(c, 6, 1);
    HalvesAdd(c, 7, 1);
    OneHalf(c);
    OneHalf(c >> 1);
    OneHalf(c >> 2);
    OneHalf(c >> 3);
    OneHalf(c >> 4);
    OneHalf(c >> 5);
    OneHalf(c >> 6);
    OneHalf(c >> 7);
  }

  lemma OneHalf(c: Word)
    ensures Halves(c, 1) == Half(c)
  {
    assert Halves(Half(c), 0) == Half(c);
  }

  lemma Eight(c: Word)
    ensures Halves(c, 8) == c >> 8
  {
    FirstHalves(c);
  }

  lemma LowMasks(c: Word)
    ensures Odd(c) == (c & 0x01 != 0) && Odd(c >> 1) == (c & 0x02 != 0) && Odd(c >> 2) == (c & 0x04 != 0)
    ensures Odd(c >> 3) == (c & 0x08 != 0) && Odd(c >> 4) == (c & 0x10 != 0) && Odd(c >> 5) == (c & 0x20 != 0)
    ensures Odd(c >> 6) == (c & 0x40 != 0) && Odd(c >> 7) == (c & 0x80 != 0)
  {}

  // The lowest eight bits, and where the next ones are.
  lemma LowBits(c: Word)
    ensures BitOf(c, 0) == (c & 0x01 != 0) && BitOf(c, 1) == (c & 0x02 != 0) && BitOf(c, 2) == (c & 0x04 != 0)
    ensures BitOf(c, 3) == (c & 0x08 != 0) && BitOf(c, 4) == (c & 0x10 != 0) && BitOf(c, 5) == (c & 0x20 != 0)
    ensures BitOf(c, 6) == (c & 0x40 != 0) && BitOf(c, 7) == (c & 0x80 != 0)
  {
    hide Odd, Halves;
    FirstHalves(c);
    LowMasks(c);
    NoHalf(c);
  }

  lemma NoHalf(c: Word)
    ensures Halves(c, 0) == c
  {}

  lemma NextBits(c: Word, i: nat)
    ensures BitOf(c, 8 + i) == BitOf(c >> 8, i)
  {
    hide Odd, Halves;
    Eight(c);
    HalvesAdd(c, 8, i);
  }

  lemma EightShifts(c: Word)
    ensures (c >> 8) >> 8 == c >> 16 && (c >> 16) >> 8 == c >> 24 && (c >> 24) >> 8 == 0
  {}

  lemma NoneLeft(c: Word)
    ensures Halves(c, 32) == 0
  {
    hide Halves, Down8;
    var a, b := Down8(c), Down8(Down8(c));
    EightDown(c);
    EightDown(a);
    EightDown(b);
    EightDown(Down8(b));
    FourDowns(c);
    HalvesAdd(c, 8, 24);
    HalvesAdd(a, 8, 16);
    HalvesAdd(b, 8, 8);
  }

  lemma EightDown(c: Word)
    ensures Halves(c, 8) == Down8(c)
  {
    hide Halves;
    Eight(c);
  }

  lemma FourDowns(c: Word)
    ensures Down8(Down8(Down8(Down8(c)))) == 0
  {}

  lemma ByteTop(b: Byte, i: nat)
    requires i >= 8
    ensures !BitOf(Wide(b), i)
  {
    hide Wide, Half, Odd, Halves;
    HalvesAdd(Wide(b), 8, i - 8);
    Eight(Wide(b));
    WideEnds(b);
    ZeroHalves(i - 8);
    NotOdd();
  }

  lemma WideEnds(b: Byte)
    ensures Wide(b) >> 8 == 0
  {}

  lemma NotOdd()
    ensures !Odd(0)
  {}

  lemma {:induction false} ZeroHalves(n: nat)
    ensures Halves(0, n) == 0
    decreases n
  {
    assert Half(0) == 0;
    if n > 0 { ZeroHalves(n - 1); }
  }

  // The register's constant is the generator without its highest power.
  lemma PolyIsGenerator()
    ensures Register(POLY) == Tail()
  {
    hide BitOf, Power;
    forall i | 0 <= i < 32 ensures BitOf(POLY, i) == Power(31 - i) {
      if i < 8 { LowEnd(i); } else if i < 16 { NextBits(POLY, i - 8); SecondByte(i - 8); }
      else if i < 24 { Shift16(i - 16); ThirdByte(i - 16); } else { Shift24(i - 24); FourthByte(i - 24); }
    }
  }

  lemma Shift16(i: nat)
    ensures BitOf(POLY, 16 + i) == BitOf(POLY >> 16, i)
  {
    hide BitOf;
    NextBits(POLY, 8 + i);
    NextBits(POLY >> 8, i);
    EightShifts(POLY);
  }

  lemma Shift24(i: nat)
    ensures BitOf(POLY, 24 + i) == BitOf(POLY >> 24, i)
  {
    hide BitOf;
    Shift16(8 + i);
    NextBits(POLY >> 16, i);
    EightShifts(POLY);
  }

  lemma LowEnd(i: nat)
    requires i < 8
    ensures BitOf(POLY, i) == Power(31 - i)
  {
    hide BitOf;
    LowBits(POLY);
  }

  lemma SecondByte(i: nat)
    requires i < 8
    ensures BitOf(POLY >> 8, i) == Power(23 - i)
  {
    hide BitOf;
    LowBits(POLY >> 8);
  }

  lemma ThirdByte(i: nat)
    requires i < 8
    ensures BitOf(POLY >> 16, i) == Power(15 - i)
  {
    hide BitOf;
    LowBits(POLY >> 16);
  }

  lemma FourthByte(i: nat)
    requires i < 8
    ensures BitOf(POLY >> 24, i) == Power(7 - i)
  {
    hide BitOf;
    LowBits(POLY >> 24);
  }

  // ----- division bit by bit

  // One message bit that is already in the register.
  lemma DivideBit(c: Word, message: Poly)
    ensures Remainder(Dividend(Register(c), [false] + message)) == Remainder(Dividend(Register(BitStep(c)), message))
  {
    hide BitOf, Power, BitStep;
    var p := Dividend(Register(c), [false] + message);
    var next := Dividend(Register(BitStep(c)), message);
    PolyIsGenerator();
    assert p[0] == BitOf(c, 0);
    if p[0] {
      var q := Differ(p[1..33], Tail()) + p[33..];
      forall i | 0 <= i < |next| ensures q[i] == next[i] {
        if i < 32 { StepBit(c, i); }
      }
      assert q == next;
    } else {
      forall i | 0 <= i < |next| ensures p[1..][i] == next[i] {
        if i < 32 { StepBit(c, i); }
      }
      assert p[1..] == next;
    }
  }

  lemma StepBit(c: Word, i: nat)
    requires i < 32
    ensures BitOf(BitStep(c), i) == ((i < 31 && BitOf(c, i + 1)) != (BitOf(c, 0) && BitOf(POLY, i)))
  {
    hide Plus, Half, Odd, Halves;
    BitOfPlus(POLY, Half(c), i);
    HalvesOnce(c, i);
    NoneLeft(c);
    NotOdd();
    NoHalf(c);
  }

  lemma HalvesOnce(c: Word, i: nat)
    ensures Halves(Half(c), i) == Halves(c, i + 1)
  {}

  // A whole byte: XORed into the register first, then eight steps.
  lemma {:induction false} DivideZeros(c: Word, n: nat, message: Poly)
    ensures Remainder(Dividend(Register(c), Blanks(n) + message)) == Remainder(Dividend(Register(BitSteps(c, n)), message))
    decreases n
  {
    hide BitStep, Register, Dividend, Remainder;
    if n == 0 {
      assert Blanks(0) + message == message;
    } else {
      DivideBit(c, Blanks(n - 1) + message);
      DivideZeros(BitStep(c), n - 1, message);
      assert Blanks(n) + message == [false] + (Blanks(n - 1) + message);
    }
  }

  function Blanks(n: nat): (r: Poly)
    ensures |r| == n && forall i :: 0 <= i < n ==> !r[i]
  {
    seq(n, _ => false)
  }

  lemma Absorbed(c: Word, b: Byte, message: Poly)
    ensures Dividend(Register(c), ByteBits(b) + message) == Dividend(Register(Plus(c, Wide(b))), Blanks(8) + message)
  {
    hide BitOf, Plus, Wide;
    var p, q := Dividend(Register(c), ByteBits(b) + message), Dividend(Register(Plus(c, Wide(b))), Blanks(8) + message);
    forall i | 0 <= i < |p| ensures p[i] == q[i] {
      BitOfPlus(c, Wide(b), i);
      if i >= 8 { ByteTop(b, i); }
    }
  }

  // The running register is the remainder of the message, with what the
  // register held added in front.
  lemma {:induction false} RunIsRemainder(c: Word, data: Bytes)
    ensures Register(Run(c, data)) == Remainder(Dividend(Register(c), DataBits(data)))
    decreases |data|
  {
    hide Plus, Wide, BitSteps, Register, Dividend, ByteBits;
    if data == [] {
      Undivided(Register(c));
    } else {
      var b, rest := data[0], data[1..];
      Absorbed(c, b, DataBits(rest));
      DivideZeros(Plus(c, Wide(b)), 8, DataBits(rest));
      RunIsRemainder(ByteStep(c, b), rest);
      RunConcat(c, [b], rest);
      assert [b] + rest == data;
      OneByte(c, b);
    }
  }

  lemma OneByte(c: Word, b: Byte)
    ensures Run(c, [b]) == ByteStep(c, b)
  {
    hide ByteStep;
    assert [b][..0] == [];
    assert Run(c, []) == c;
  }

  lemma Undivided(p: Poly)
    requires |p| == 32
    ensures Remainder(Dividend(p, [])) == p
  {
    assert Dividend(p, []) == p;
  }

  // The checksum: every bit of the remainder inverted, the register preset to
  // ones.
  lemma CrcIsRemainder(data: Bytes)
    ensures Register(Crc(data)) == Differ(Remainder(Dividend(Ones(), DataBits(data))), Ones())
  {
    hide Plus, BitOf, Remainder, Dividend, Run;
    RunIsRemainder(START, data);
    StartIsOnes();
    var r := Run(START, data);
    forall i | 0 <= i < 32 ensures BitOf(Crc(data), i) == !BitOf(r, i) {
      BitOfPlus(r, START, i);
      assert Register(START)[i];
    }
    assert Register(Crc(data)) == Differ(Register(r), Ones());
  }

  function Ones(): (r: Poly)
    ensures |r| == 32 && forall i :: 0 <= i < 32 ==> r[i]
  {
    seq(32, _ => true)
  }

  lemma StartIsOnes()
    ensures Register(START) == Ones()
  {
    hide BitOf;
    forall i | 0 <= i < 32 ensures BitOf(START, i) {
      StartBit(i);
    }
  }

  lemma StartBit(i: nat)
    requires i < 32
    ensures BitOf(START, i)
  {
    hide BitOf;
    LowBits(START);
    LowBits(START >> 8);
    LowBits(START >> 16);
    LowBits(START >> 24);
    EightShifts(START);
    if i >= 8 { NextBits(START, i - 8); }
    if i >= 16 { NextBits(START >> 8, i - 16); }
    if i >= 24 { NextBits(START >> 16, i - 24); }
  }

  // ----- the check value

  lemma EightSteps(c: seq<Word>)
    requires |c| == 9 && forall i :: 0 <= i < 8 ==> BitStep(c[i]) == c[i + 1]
    ensures BitSteps(c[0], 8) == c[8]
  {
    hide BitStep;
    assert BitSteps(c[0], 8) == BitSteps(c[1], 7) == BitSteps(c[2], 6) == BitSteps(c[3], 5) == BitSteps(c[4], 4);
    assert BitSteps(c[4], 4) == BitSteps(c[5], 3) == BitSteps(c[6], 2) == BitSteps(c[7], 1) == BitSteps(c[8], 0);
  }

  // Two entries of the table, and the check value of the digits 1 to 9.
  lemma KnownEntries()
    ensures Entry(0x80) == 0xEDB88320 && Entry(0x01) == 0x77073096
  {
    EightSteps([0x00000080, 0x00000040, 0x00000020, 0x00000010, 0x00000008, 0x00000004, 0x00000002, 0x00000001, 0xEDB88320]);
    EightSteps([0x00000001, 0xEDB88320, 0x76DC4190, 0x3B6E20C8, 0x1DB71064, 0x0EDB8832, 0x076DC419, 0xEE0E612C, 0x77073096]);
  }

  lemma Digit1()
    ensures ByteStep(0xFFFFFFFF, 0x31) == 0x7C231048
  {
    EightSteps([0xFFFFFFCE, 0x7FFFFFE7, 0xD2477CD3, 0x849B3D49, 0xAFF51D84, 0x57FA8EC2, 0x2BFD4761, 0xF8462090, 0x7C231048]);
  }

  lemma Digit2()
    ensures ByteStep(0x7C231048, 0x32) == 0xB0ACBB32
  {
    EightSteps([0x7C23107A, 0x3E11883D, 0xF2B0473E, 0x7958239F, 0xD11492EF, 0x8532CA57, 0xAF21E60B, 0xBA287025, 0xB0ACBB32]);
  }

  lemma Digit3()
    ensures ByteStep(0xB0ACBB32, 0x33) == 0x77B79C2D
  {
    EightSteps([0xB0ACBB01, 0xB5EEDEA0, 0x5AF76F50, 0x2D7BB7A8, 0x16BDDBD4, 0x0B5EEDEA, 0x05AF76F5, 0xEF6F385A, 0x77B79C2D]);
  }

  lemma Digit4()
    ensures ByteStep(0x77B79C2D, 0x34) == 0x641C1F5C
  {
    EightSteps([0x77B79C19, 0xD6634D2C, 0x6B31A696, 0x3598D34B, 0xF774EA85, 0x9602F662, 0x4B017B31, 0xC8383EB8, 0x641C1F5C]);
  }

  lemma Digit5()
    ensures ByteStep(0x641C1F5C, 0x35) == 0x340AC5E3
  {
    EightSteps([0x641C1F69, 0xDFB68C94, 0x6FDB464A, 0x37EDA325, 0xF64E52B2, 0x7B272959, 0xD02B178C, 0x68158BC6, 0x340AC5E3]);
  }

  lemma Digit6()
    ensures ByteStep(0x340AC5E3, 0x36) == 0xF68D2C9E
  {
    EightSteps([0x340AC5D5, 0xF7BDE1CA, 0x7BDEF0E5, 0xD057FB52, 0x682BFDA9, 0xD9AD7DF4, 0x6CD6BEFA, 0x366B5F7D, 0xF68D2C9E]);
  }

  lemma Digit7()
    ensures ByteStep(0xF68D2C9E, 0x37) == 0xAFFC9660
  {
    EightSteps([0xF68D2CA9, 0x96FE1574, 0x4B7F0ABA, 0x25BF855D, 0xFF67418E, 0x7FB3A0C7, 0xD2615343, 0x84882A81, 0xAFFC9660]);
  }

  lemma Digit8()
    ensures ByteStep(0xAFFC9660, 0x38) == 0x651F2550
  {
    EightSteps([0xAFFC9658, 0x57FE4B2C, 0x2BFF2596, 0x15FF92CB, 0xE7474A45, 0x9E1B2602, 0x4F0D9301, 0xCA3E4AA0, 0x651F2550]);
  }

  lemma Digit9()
    ensures ByteStep(0x651F2550, 0x39) == 0x340BC6D9
  {
    EightSteps([0x651F2569, 0xDF371194, 0x6F9B88CA, 0x37CDC465, 0xF65E6112, 0x7B2F3089, 0xD02F1B64, 0x68178DB2, 0x340BC6D9]);
  }

  lemma CheckValue()
    ensures Crc([0x31, 0x32, 0x33, 0x34, 0x35, 0x36, 0x37, 0x38, 0x39]) == 0xCBF43926
  {
    hide ByteStep;
    Digit1();
    Digit2();
    Digit3();
    Digit4();
    Digit5();
    Digit6();
    Digit7();
    Digit8();
    Digit9();
    var d: Bytes := [0x31, 0x32, 0x33, 0x34, 0x35, 0x36, 0x37, 0x38, 0x39];
    NoBytes(d);
    OneMore(d, 0);
    OneMore(d, 1);
    OneMore(d, 2);
    OneMore(d, 3);
    OneMore(d, 4);
    OneMore(d, 5);
    OneMore(d, 6);
    OneMore(d, 7);
    OneMore(d, 8);
    assert d[..9] == d;
  }

  lemma NoBytes(d: Bytes)
    ensures Run(START, d[..0]) == START
  {}

  lemma OneMore(d: Bytes, k: nat)
    requires k < |d|
    ensures Run(START, d[..k + 1]) == ByteStep(Run(START, d[..k]), d[k])
  {
    hide ByteStep;
    assert d[..k + 1][..k] == d[..k];
  }
}
