// The field of 256 elements the Reed-Solomon code works in: bytes as polynomials
// over GF(2) modulo x^8 + x^4 + x^3 + x^2 + 1 (ISO/IEC 18004:2015, section
// 7.5.2), and the exponent and logarithm tables of qrcodegen.c.

module Field256 {
  import opened Gf2
  import opened Protocol

  // ----- multiplication by x, and the product

  function Left(a: Byte): Byte { a << 1 }

  predicate Top(a: Byte) { a & 0x80 != 0 }

  function Double(a: Byte): Byte {
    if Top(a) then Add(Left(a), 0x1D) else Left(a)
  }

  function Doubled(a: Byte, n: nat): Byte
    decreases n
  {
    if n == 0 then a else Double(Doubled(a, n - 1))
  }

  // The byte with bit i alone.
  function Unit(i: nat): Byte
    requires i < 8
  {
    if i == 0 then 0x01 else if i == 1 then 0x02 else if i == 2 then 0x04 else if i == 3 then 0x08
    else if i == 4 then 0x10 else if i == 5 then 0x20 else if i == 6 then 0x40 else 0x80
  }

  predicate Meets(b: Byte, mask: Byte) { b & mask != 0 }

  predicate BitAt(b: Byte, i: nat)
    requires i < 8
  {
    Meets(b, Unit(i))
  }

  // The product of a with the low n bits of b.
  function Times(a: Byte, b: Byte, n: nat): Byte
    requires n <= 8
    decreases n
  {
    if n == 0 then 0
    else if BitAt(b, n - 1) then Add(Times(a, b, n - 1), Doubled(a, n - 1))
    else Times(a, b, n - 1)
  }

  function Mul(a: Byte, b: Byte): Byte {
    Times(a, b, 8)
  }

  lemma DoubleAdd(a: Byte, b: Byte)
    ensures Double(Add(a, b)) == Add(Double(a), Double(b))
  {
    LeftAdd(a, b);
    TopAdd(a, b);
    hide Add, Left, Top;
    SwapTail(Left(a), Left(b), 0x1D);
  }

  lemma LeftAdd(a: Byte, b: Byte)
    ensures Left(Add(a, b)) == Add(Left(a), Left(b))
  {}

  lemma TopAdd(a: Byte, b: Byte)
    ensures Top(Add(a, b)) <==> Top(a) != Top(b)
  {}

  lemma DoubleOne(a: Byte, b: Byte)
    ensures Double(a) == Double(b) ==> a == b
    ensures Double(a) == 0 <==> a == 0
  {}

  lemma {:induction false} DoubledAdd(a: Byte, b: Byte, n: nat)
    ensures Doubled(Add(a, b), n) == Add(Doubled(a, n), Doubled(b, n))
    decreases n
  {
    hide Add, Double;
    if n > 0 {
      DoubledAdd(a, b, n - 1);
      DoubleAdd(Doubled(a, n - 1), Doubled(b, n - 1));
    }
  }

  lemma {:induction false} DoubledMore(a: Byte, m: nat, n: nat)
    ensures Doubled(Doubled(a, m), n) == Doubled(a, m + n)
    decreases n
  {
    hide Double;
    if n > 0 {
      DoubledMore(a, m, n - 1);
    }
  }

  lemma BitAdd(b: Byte, c: Byte, i: nat)
    requires i < 8
    ensures BitAt(Add(b, c), i) <==> BitAt(b, i) != BitAt(c, i)
  {
    MeetsAdd(b, c);
    hide Meets, Add;
  }

  lemma MeetsAdd(b: Byte, c: Byte)
    ensures Meets(Add(b, c), 0x01) <==> Meets(b, 0x01) != Meets(c, 0x01)
    ensures Meets(Add(b, c), 0x02) <==> Meets(b, 0x02) != Meets(c, 0x02)
    ensures Meets(Add(b, c), 0x04) <==> Meets(b, 0x04) != Meets(c, 0x04)
    ensures Meets(Add(b, c), 0x08) <==> Meets(b, 0x08) != Meets(c, 0x08)
    ensures Meets(Add(b, c), 0x10) <==> Meets(b, 0x10) != Meets(c, 0x10)
    ensures Meets(Add(b, c), 0x20) <==> Meets(b, 0x20) != Meets(c, 0x20)
    ensures Meets(Add(b, c), 0x40) <==> Meets(b, 0x40) != Meets(c, 0x40)
    ensures Meets(Add(b, c), 0x80) <==> Meets(b, 0x80) != Meets(c, 0x80)
  {}

  lemma SwapTail(a: Byte, b: Byte, c: Byte)
    ensures Add(Add(a, c), b) == Add(Add(a, b), c)
    ensures Add(Add(a, c), Add(b, c)) == Add(a, b)
    ensures Add(a, Add(b, c)) == Add(Add(a, b), c)
  {}

  // ----- laws

  lemma {:induction false} TimesAddRight(a: Byte, b: Byte, c: Byte, n: nat)
    requires n <= 8
    ensures Times(a, Add(b, c), n) == Add(Times(a, b, n), Times(a, c, n))
    decreases n
  {
    hide Add, Double, BitAt, Doubled;
    if n == 0 {
      AddSelf(0);
    } else {
      TimesAddRight(a, b, c, n - 1);
      BitAdd(b, c, n - 1);
      SwapTail(Times(a, b, n - 1), Times(a, c, n - 1), Doubled(a, n - 1));
    }
  }

  lemma {:induction false} TimesAddLeft(a: Byte, b: Byte, c: Byte, n: nat)
    requires n <= 8
    ensures Times(Add(a, b), c, n) == Add(Times(a, c, n), Times(b, c, n))
    decreases n
  {
    hide Add, Double, BitAt, Doubled;
    if n == 0 {
      AddSelf(0);
    } else {
      TimesAddLeft(a, b, c, n - 1);
      DoubledAdd(a, b, n - 1);
      AddCross(Times(a, c, n - 1), Times(b, c, n - 1), Doubled(a, n - 1), Doubled(b, n - 1));
    }
  }

  lemma MulAddRight(a: Byte, b: Byte, c: Byte)
    ensures Mul(a, Add(b, c)) == Add(Mul(a, b), Mul(a, c))
  {
    TimesAddRight(a, b, c, 8);
  }

  lemma MulAddLeft(a: Byte, b: Byte, c: Byte)
    ensures Mul(Add(a, b), c) == Add(Mul(a, c), Mul(b, c))
  {
    TimesAddLeft(a, b, c, 8);
  }

  lemma {:induction false} TimesDouble(a: Byte, b: Byte, n: nat)
    requires n <= 8
    ensures Times(Double(a), b, n) == Double(Times(a, b, n))
    decreases n
  {
    hide Add, Double, BitAt;
    if n == 0 {
      DoubleOne(0, 0);
    } else {
      TimesDouble(a, b, n - 1);
      assert Doubled(a, 1) == Double(Doubled(a, 0));
      DoubledMore(a, 1, n - 1);
      DoubleAdd(Times(a, b, n - 1), Doubled(a, n - 1));
    }
  }

  // The low n bits of b as a sum of powers.
  function LowBits(b: Byte, n: nat): Byte
    requires n <= 8
    decreases n
  {
    if n == 0 then 0 else if BitAt(b, n - 1) then Add(LowBits(b, n - 1), Unit(n - 1)) else LowBits(b, n - 1)
  }

  function Masked(b: Byte, mask: Byte): Byte { b & mask }

  lemma MaskedNext(b: Byte)
    ensures Masked(b, 0x00) == 0
    ensures Masked(b, 0x01) == if Meets(b, 0x01) then Add(Masked(b, 0x00), 0x01) else Masked(b, 0x00)
    ensures Masked(b, 0x03) == if Meets(b, 0x02) then Add(Masked(b, 0x01), 0x02) else Masked(b, 0x01)
    ensures Masked(b, 0x07) == if Meets(b, 0x04) then Add(Masked(b, 0x03), 0x04) else Masked(b, 0x03)
    ensures Masked(b, 0x0F) == if Meets(b, 0x08) then Add(Masked(b, 0x07), 0x08) else Masked(b, 0x07)
    ensures Masked(b, 0x1F) == if Meets(b, 0x10) then Add(Masked(b, 0x0F), 0x10) else Masked(b, 0x0F)
    ensures Masked(b, 0x3F) == if Meets(b, 0x20) then Add(Masked(b, 0x1F), 0x20) else Masked(b, 0x1F)
    ensures Masked(b, 0x7F) == if Meets(b, 0x40) then Add(Masked(b, 0x3F), 0x40) else Masked(b, 0x3F)
    ensures Masked(b, 0xFF) == if Meets(b, 0x80) then Add(Masked(b, 0x7F), 0x80) else Masked(b, 0x7F)
    ensures Masked(b, 0xFF) == b
  {}

  lemma AllLowBits(b: Byte)
    ensures LowBits(b, 8) == b
  {
    MaskedNext(b);
    hide Masked, Meets, Add;
    assert LowBits(b, 1) == Masked(b, 0x01);
    assert LowBits(b, 2) == Masked(b, 0x03);
    assert LowBits(b, 3) == Masked(b, 0x07);
    assert LowBits(b, 4) == Masked(b, 0x0F);
    assert LowBits(b, 5) == Masked(b, 0x1F);
    assert LowBits(b, 6) == Masked(b, 0x3F);
    assert LowBits(b, 7) == Masked(b, 0x7F);
  }

  lemma PowerBit(i: nat)
    requires i < 8
    ensures Doubled(1, i) == Unit(i)
  {
    if i > 0 {
      PowerBit(i - 1);
      BitDouble(i - 1);
    }
  }

  lemma BitDouble(i: nat)
    requires i < 7
    ensures Double(Unit(i)) == Unit(i + 1)
  {}

  lemma {:induction false} TimesOne(b: Byte, n: nat)
    requires n <= 8
    ensures Times(1, b, n) == LowBits(b, n)
    decreases n
  {
    hide Add, Doubled, BitAt, Unit;
    if n > 0 {
      TimesOne(b, n - 1);
      PowerBit(n - 1);
    }
  }

  lemma OneMul(a: Byte)
    ensures Mul(1, a) == a
  {
    hide Times, LowBits;
    TimesOne(a, 8);
    AllLowBits(a);
  }

  lemma {:induction false} MulDoubled(a: Byte, b: Byte, n: nat)
    ensures Mul(Doubled(a, n), b) == Doubled(Mul(a, b), n)
    decreases n
  {
    hide Double, Times;
    if n > 0 {
      MulDoubled(a, b, n - 1);
      TimesDouble(Doubled(a, n - 1), b, 8);
    }
  }

  lemma {:induction false} LowMul(a: Byte, b: Byte, n: nat)
    requires n <= 8
    ensures Mul(LowBits(b, n), a) == Times(a, b, n)
    decreases n
  {
    hide Add, Doubled, BitAt, Mul, Unit;
    if n == 0 {
      ZeroMul(a);
    } else {
      LowMul(a, b, n - 1);
      PowerBit(n - 1);
      MulAddLeft(LowBits(b, n - 1), Unit(n - 1), a);
      MulDoubled(1, a, n - 1);
      OneMul(a);
    }
  }

  lemma ZeroMul(a: Byte)
    ensures Mul(0, a) == 0
  {
    hide Mul, Add;
    AddSelf(0);
    AddSelf(Mul(0, a));
    MulAddLeft(0, 0, a);
  }

  lemma MulComm(a: Byte, b: Byte)
    ensures Mul(a, b) == Mul(b, a)
  {
    hide Times, LowBits;
    LowMul(a, b, 8);
    AllLowBits(b);
  }

  lemma {:induction false} TimesAssoc(a: Byte, b: Byte, c: Byte, n: nat)
    requires n <= 8
    ensures Times(Mul(a, b), c, n) == Mul(a, Times(b, c, n))
    decreases n
  {
    hide Add, Doubled, BitAt, Mul;
    if n == 0 {
      ZeroMul(a);
      MulComm(a, 0);
    } else {
      TimesAssoc(a, b, c, n - 1);
      MulAddRight(a, Times(b, c, n - 1), Doubled(b, n - 1));
      MulComm(a, Doubled(b, n - 1));
      MulDoubled(b, a, n - 1);
      MulComm(a, b);
    }
  }

  lemma MulAssoc(a: Byte, b: Byte, c: Byte)
    ensures Mul(Mul(a, b), c) == Mul(a, Mul(b, c))
  {
    hide Times;
    TimesAssoc(a, b, c, 8);
  }

  // ----- powers of x

  function Alpha(n: nat): Byte {
    Doubled(1, n)
  }

  lemma AlphaAdd(i: nat, j: nat)
    ensures Mul(Alpha(i), Alpha(j)) == Alpha(i + j)
  {
    hide Mul;
    MulDoubled(1, Alpha(j), i);
    OneMul(Alpha(j));
    DoubledMore(1, j, i);
  }

  lemma {:induction false} AlphaNotZero(n: nat)
    ensures Alpha(n) != 0
    decreases n
  {
    hide Double;
    if n > 0 {
      AlphaNotZero(n - 1);
      DoubleOne(Alpha(n - 1), 0);
    }
  }

  // ----- the order of x

  lemma Eight(n: nat, a: Byte)
    requires Alpha(n) == a
    ensures Alpha(n + 8) == Doubled(a, 8)
  {
    DoubledMore(1, n, 8);
  }

  lemma Landmarks()
    ensures Alpha(15) == 0x26 && Alpha(51) == 0x0A && Alpha(85) == 0xD6 && Alpha(255) == 1
  {
    hide Doubled, Mul;
    Eighths();
    Remainders();
    DoubledMore(1, 8, 7);
    DoubledMore(1, 48, 3);
    DoubledMore(1, 80, 5);
    AlphaAdd(85, 85);
    AlphaAdd(85, 170);
    Squares();
  }

  lemma Remainders()
    ensures Doubled(0x1D, 7) == 0x26 && Doubled(0x46, 3) == 0x0A && Doubled(0xFD, 5) == 0xD6
  {}

  lemma Squares()
    ensures Mul(0xD6, 0xD6) == 0xD7 && Mul(0xD6, 0xD7) == 1
  {}

  lemma Eighths()
    ensures Alpha(8) == 0x1D && Alpha(48) == 0x46 && Alpha(80) == 0xFD
  {
    assert Doubled(0x01, 8) == 0x1D && Doubled(0x1D, 8) == 0x4C && Doubled(0x4C, 8) == 0x8F && Doubled(0x8F, 8) == 0x9D;
    assert Doubled(0x9D, 8) == 0x6A && Doubled(0x6A, 8) == 0x46 && Doubled(0x46, 8) == 0x5D && Doubled(0x5D, 8) == 0x5F;
    assert Doubled(0x5F, 8) == 0x65 && Doubled(0x65, 8) == 0xFD;
    hide Doubled;
    Eight(0, 0x01); Eight(8, 0x1D); Eight(16, 0x4C); Eight(24, 0x8F); Eight(32, 0x9D);
    Eight(40, 0x6A); Eight(48, 0x46); Eight(56, 0x5D); Eight(64, 0x5F); Eight(72, 0x65);
  }

  lemma {:induction false} AlphaBack(i: nat, j: nat)
    requires i <= j && Alpha(i) == Alpha(j)
    ensures Alpha(j - i) == 1
    decreases i
  {
    hide Double;
    if i > 0 {
      DoubleOne(Alpha(i - 1), Alpha(j - 1));
      AlphaBack(i - 1, j - 1);
    }
  }

  // Exponents of one have a common divisor that is one too.
  lemma {:induction false} CommonOne(a: nat, b: nat) returns (d: nat, x: nat, y: nat)
    requires a > 0 && Alpha(a) == 1 && Alpha(b) == 1
    ensures d > 0 && Alpha(d) == 1 && a == d * x && b == d * y
    decreases a + b, b < a
  {
    hide Alpha;
    if b == 0 {
      d, x, y := a, 1, 0;
    } else if b >= a {
      Subtract(a, b);
      d, x, y := CommonOne(a, b - a);
      assert b == d * (x + y);
      y := x + y;
    } else {
      d, y, x := CommonOne(b, a);
    }
  }

  lemma Subtract(a: nat, b: nat)
    requires a <= b && Alpha(a) == 1 && Alpha(b) == 1
    ensures Alpha(b - a) == 1
  {
    hide Alpha, Mul;
    AlphaAdd(a, b - a);
    OneMul(Alpha(b - a));
  }

  lemma {:induction false} PowerOfOne(d: nat, m: nat)
    requires Alpha(d) == 1
    ensures Alpha(d * m) == 1
    decreases m
  {
    hide Alpha, Mul;
    if m == 0 {
      AlphaZero();
    } else {
      PowerOfOne(d, m - 1);
      assert d * m == d * (m - 1) + d;
      AlphaAdd(d * (m - 1), d);
      OneMul(1);
    }
  }

  lemma AlphaZero()
    ensures Alpha(0) == 1
  {}

  lemma Divisors(d: nat, y: nat)
    requires d * y == 255 && y > 1
    ensures y % 3 == 0 || y % 5 == 0 || y % 17 == 0
  {
    if d > 15 && y > 15 {
      LargeFactors(d, y);
    } else if d <= 15 {
      SmallFactor(d, y);
    } else {
      assert y == 2 || y == 3 || y == 4 || y == 5 || y == 6 || y == 7 || y == 8 || y == 9 || y == 10 || y == 11 || y == 12 ||
             y == 13 || y == 14 || y == 15;
    }
  }

  lemma LargeFactors(d: nat, y: nat)
    requires d > 15 && y > 15
    ensures d * y >= 256
  {
    assert d * y >= 16 * y;
  }

  lemma Multiples(d: nat, x: nat, y: nat)
    requires 0 < d * x < d * y
    ensures y > 1
  {
    if x >= y { Monotone(d, y, x); }
  }

  lemma Monotone(d: nat, a: nat, b: nat)
    requires a <= b
    ensures d * a <= d * b
  {}

  lemma SmallFactor(d: nat, y: nat)
    requires d * y == 255 && d <= 15 && y > 1
    ensures y % 3 == 0 || y % 5 == 0 || y % 17 == 0
  {
    assert d == 0 || d == 1 || d == 2 || d == 3 || d == 4 || d == 5 || d == 6 || d == 7 || d == 8 || d == 9 || d == 10 || d == 11 ||
           d == 12 || d == 13 || d == 14 || d == 15;
  }

  // x generates the field: its powers below 255 differ from one.
  lemma Order(k: nat)
    requires 0 < k < 255
    ensures Alpha(k) != 1
  {
    hide Alpha;
    Landmarks();
    if Alpha(k) == 1 {
      var d, x, y := CommonOne(k, 255);
      Multiples(d, x, y);
      Divisors(d, y);
      var p := if y % 3 == 0 then 3 else if y % 5 == 0 then 5 else 17;
      var m := y / p;
      assert d * y == d * (p * m) == p * (d * m);
      PowerOfOne(d, m);
    }
  }

  lemma AlphaApart(i: nat, j: nat)
    requires i < 255 && j < 255 && i != j
    ensures Alpha(i) != Alpha(j)
  {
    hide Alpha;
    if Alpha(i) == Alpha(j) {
      if i < j {
        AlphaBack(i, j);
        Order(j - i);
      } else {
        AlphaBack(j, i);
        Order(i - j);
      }
    }
  }

  // ----- every element but zero is a power of x

  function Reached(n: nat): (r: set<nat>)
    requires n <= 255
    decreases n
  {
    if n == 0 then {} else Reached(n - 1) + {Val(Alpha(n - 1))}
  }

  lemma {:induction false} ReachedAre(n: nat)
    requires n <= 255
    ensures |Reached(n)| == n
    ensures forall v :: v in Reached(n) ==> exists i :: 0 <= i < n && v == Val(Alpha(i))
    ensures forall v :: v in Reached(n) ==> 1 <= v < 256
    decreases n
  {
    hide Alpha, Val;
    if n > 0 {
      ReachedAre(n - 1);
      AlphaVal(n - 1);
      forall i | 0 <= i < n - 1 ensures Val(Alpha(i)) != Val(Alpha(n - 1)) {
        AlphaApart(i, n - 1);
        ValApart(Alpha(i), Alpha(n - 1));
      }
    }
  }

  lemma AlphaVal(i: nat)
    ensures 1 <= Val(Alpha(i)) < 256
  {
    hide Alpha;
    AlphaNotZero(i);
    ValApart(Alpha(i), 0);
    assert Val(0) == 0;
  }

  lemma ValApart(a: Byte, b: Byte)
    ensures Val(a) == Val(b) ==> a == b
  {
    hide Val;
    ValToByte(a);
    ValToByte(b);
  }

  function Range(n: nat): (r: set<nat>)
    ensures forall v :: v in r <==> 1 <= v <= n
    decreases n
  {
    if n == 0 then {} else Range(n - 1) + {n}
  }

  lemma {:induction false} RangeSize(n: nat)
    ensures |Range(n)| == n
    decreases n
  {
    if n > 0 {
      RangeSize(n - 1);
    }
  }

  lemma SameSize(a: set<nat>, b: set<nat>)
    requires a <= b && |a| == |b|
    ensures a == b
  {
    assert b == a + (b - a);
    assert |b| == |a| + |b - a|;
  }

  lemma AllReached(v: nat) returns (i: nat)
    requires 1 <= v < 256
    ensures i < 255 && v == Val(Alpha(i))
  {
    hide Alpha, Val, Reached;
    ReachedAre(255);
    RangeSize(255);
    SameSize(Reached(255), Range(255));
    assert v in Reached(255);
    i :| 0 <= i < 255 && v == Val(Alpha(i));
  }

  lemma Logarithm(x: Byte) returns (i: nat)
    requires x != 0
    ensures i < 255 && Alpha(i) == x
  {
    hide Alpha, Val;
    ValApart(x, 0);
    ValZero();
    i := AllReached(Val(x));
    ValApart(x, Alpha(i));
  }

  lemma ValZero()
    ensures Val(0) == 0
  {}

  lemma NoZeroDivisor(a: Byte, b: Byte)
    requires a != 0 && b != 0
    ensures Mul(a, b) != 0
  {
    hide Alpha, Mul;
    var i := Logarithm(a);
    var j := Logarithm(b);
    AlphaAdd(i, j);
    AlphaNotZero(i + j);
  }

  // ----- the tables of the program

  lemma ShiftReduces(x: bv16)
    requires x < 256
    ensures var y := x << 1; var z := if y & 0x100 != 0 then y ^ 0x11D else y;
            z < 256 && z as Byte == Double(x as Byte)
  {}

  // dosferGfExp and dosferGfLog as dosferInitGf fills them.
  class Tables {
    const exp: array<Byte>
    const log: array<nat>

    ghost predicate Valid()
      reads exp, log
    {
      && exp.Length == 512 && log.Length == 256
      && (forall i :: 0 <= i < 512 ==> exp[i] == Alpha(i))
      && (forall x: Byte :: x != 0 ==> log[Val(x)] < 255 && Alpha(log[Val(x)]) == x)
    }

    constructor ()
      ensures Valid() && fresh(exp) && fresh(log)
    {
      exp := new Byte[512](_ => 0);
      log := new nat[256](_ => 0);
      new;
      hide Alpha, Val;
      var x: bv16 := 1;
      AlphaZero();
      for i := 0 to 255
        invariant x < 256 && x as Byte == Alpha(i)
        invariant forall k :: 0 <= k < i ==> exp[k] == Alpha(k) && log[Val(Alpha(k))] == k
      {
        Apart(i);
        exp[i] := x as Byte;
        log[Val(x as Byte)] := i;
        ShiftReduces(x);
        AlphaNext(i);
        x := x << 1;
        if x & 0x100 != 0 { x := x ^ 0x11D; }
      }
      AllLogs(log);
      for i := 255 to 512
        invariant forall k :: 0 <= k < i ==> exp[k] == Alpha(k)
        invariant forall b: Byte :: b != 0 ==> log[Val(b)] < 255 && Alpha(log[Val(b)]) == b
      {
        Wraps(i);
        exp[i] := exp[i - 255];
      }
    }

    // reedSolomonMultiply.
    method Multiply(x: Byte, y: Byte) returns (r: Byte)
      requires Valid()
      ensures r == Mul(x, y)
    {
      hide Alpha, Mul, Val;
      if x == 0 || y == 0 {
        ZeroMul(x);
        ZeroMul(y);
        MulComm(x, y);
        return 0;
      }
      AlphaAdd(log[Val(x)], log[Val(y)]);
      r := exp[log[Val(x)] + log[Val(y)]];
    }
  }

  lemma AlphaNext(i: nat)
    ensures Alpha(i + 1) == Double(Alpha(i))
  {}

  lemma Apart(i: nat)
    requires i < 255
    ensures forall k :: 0 <= k < i ==> Val(Alpha(k)) != Val(Alpha(i))
  {
    hide Alpha, Val;
    forall k | 0 <= k < i ensures Val(Alpha(k)) != Val(Alpha(i)) {
      AlphaApart(k, i);
      ValApart(Alpha(k), Alpha(i));
    }
  }

  lemma Wraps(i: nat)
    requires 255 <= i
    ensures Alpha(i) == Alpha(i - 255)
  {
    hide Alpha, Mul;
    Landmarks();
    AlphaAdd(255, i - 255);
    OneMul(Alpha(i - 255));
  }

  lemma AllLogs(log: array<nat>)
    requires log.Length == 256 && forall k :: 0 <= k < 255 ==> log[Val(Alpha(k))] == k
    ensures forall x: Byte :: x != 0 ==> log[Val(x)] < 255 && Alpha(log[Val(x)]) == x
  {
    hide Alpha, Val;
    forall x: Byte | x != 0 ensures log[Val(x)] < 255 && Alpha(log[Val(x)]) == x {
      var k := Logarithm(x);
    }
  }
}
