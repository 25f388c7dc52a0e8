// The Reed-Solomon code of a symbol: the generator polynomial and the step table
// as qrcodegen.c computes them, what the check bytes are, and how far apart two
// encodings lie (ISO/IEC 18004:2015, section 7.5.2 and annex A).

module ReedSolomon {
  import opened Gf2
  import opened Protocol
  import opened Field256
  import opened V40L

  // ----- polynomials, highest power first

  function Eval(p: Bytes, z: Byte): Byte
    decreases |p|
  {
    if p == [] then 0 else Add(Mul(Eval(p[..|p| - 1], z), z), p[|p| - 1])
  }

  function Power(z: Byte, n: nat): Byte {
    if n == 0 then 1 else Mul(Power(z, n - 1), z)
  }

  function Scale(p: Bytes, f: Byte): (r: Bytes)
    ensures |r| == |p| && forall j :: 0 <= j < |p| ==> r[j] == Mul(p[j], f)
  {
    seq(|p|, j requires 0 <= j < |p| => Mul(p[j], f))
  }

  lemma {:induction false} EvalXor(a: Bytes, b: Bytes, z: Byte)
    requires |a| == |b|
    ensures Eval(Xor(a, b), z) == Add(Eval(a, z), Eval(b, z))
    decreases |a|
  {
    hide Add, Mul, Xor;
    if a == [] {
      AddSelf(0);
    } else {
      var n := |a| - 1;
      XorSlice(a, b, 0, n);
      assert Xor(a, b)[..n] == Xor(a[..n], b[..n]);
      EvalXor(a[..n], b[..n], z);
      MulAddLeft(Eval(a[..n], z), Eval(b[..n], z), z);
      AddCross(Mul(Eval(a[..n], z), z), Mul(Eval(b[..n], z), z), a[n], b[n]);
    }
  }

  lemma {:induction false} EvalConcat(a: Bytes, b: Bytes, z: Byte)
    ensures Eval(a + b, z) == Add(Mul(Eval(a, z), Power(z, |b|)), Eval(b, z))
    decreases |b|
  {
    hide Add, Mul;
    if b == [] {
      assert a + b == a;
      AddZero();
      MulComm(Eval(a, z), 1);
      OneMul(Eval(a, z));
    } else {
      var n := |b| - 1;
      assert (a + b)[..|a + b| - 1] == a + b[..n];
      EvalConcat(a, b[..n], z);
      var x, y := Mul(Eval(a, z), Power(z, n)), Eval(b[..n], z);
      MulAddLeft(x, y, z);
      MulAssoc(Eval(a, z), Power(z, n), z);
      AddAssoc(Mul(x, z), Mul(y, z), b[n]);
    }
  }

  lemma {:induction false} EvalScale(p: Bytes, f: Byte, z: Byte)
    ensures Eval(Scale(p, f), z) == Mul(Eval(p, z), f)
    decreases |p|
  {
    hide Add, Mul;
    if p == [] {
      ZeroMul(f);
    } else {
      var n := |p| - 1;
      assert Scale(p, f)[..n] == Scale(p[..n], f);
      EvalScale(p[..n], f, z);
      var x := Eval(p[..n], z);
      MulAddLeft(Mul(x, z), p[n], f);
      MulAssoc(x, f, z);
      MulComm(f, z);
      MulAssoc(x, z, f);
    }
  }

  lemma {:induction false} EvalZeros(n: nat, z: Byte)
    ensures Eval(Zeros(n), z) == 0
    decreases n
  {
    hide Add, Mul;
    if n > 0 {
      assert Zeros(n)[..n - 1] == Zeros(n - 1);
      EvalZeros(n - 1, z);
      ZeroMul(z);
      AddSelf(0);
    }
  }

  // ----- the generator

  // reedSolomonComputeDivisor after i factors; the leading coefficient of the
  // finished product is left away.
  function Stage(i: nat): (r: Bytes)
    ensures |r| == ECC
  {
    if i == 0 then Zeros(ECC - 1) + [1] else Factored(Stage(i - 1), Alpha(i - 1))
  }

  // The product with (x + root), without its first coefficient.
  function Factored(p: Bytes, root: Byte): (r: Bytes)
    requires |p| == ECC
    ensures |r| == ECC
  {
    seq(ECC, j requires 0 <= j < ECC => if j + 1 < ECC then Add(Mul(p[j], root), p[j + 1]) else Mul(p[j], root))
  }

  // Horner's rule on the product, prefix by prefix.
  lemma {:induction false} FactoredPrefix(p: Bytes, root: Byte, z: Byte, j: nat)
    requires |p| == ECC && 1 <= j <= ECC
    ensures Eval(([p[0]] + Factored(p, root))[..j], z) == Add(Eval(p[..j], z), Mul(Eval(p[..j - 1], z), root))
    decreases j
  {
    hide Add, Mul, Factored;
    var q := [p[0]] + Factored(p, root);
    if j == 1 {
      assert q[..1] == p[..1] == [p[0]];
      assert p[..0] == [];
      ZeroMul(root);
      AddZero();
    } else {
      FactoredPrefix(p, root, z, j - 1);
      FactoredAt(p, root, j - 2);
      assert q[..j][..j - 1] == q[..j - 1] && p[..j][..j - 1] == p[..j - 1] && p[..j - 1][..j - 2] == p[..j - 2];
      var a, b := Eval(p[..j - 1], z), Eval(p[..j - 2], z);
      assert Eval(q[..j], z) == Add(Mul(Add(a, Mul(b, root)), z), Add(Mul(p[j - 2], root), p[j - 1]));
      Regroup(a, b, p[j - 2], p[j - 1], root, z);
    }
  }

  lemma FactoredAt(p: Bytes, root: Byte, j: nat)
    requires |p| == ECC && j < ECC
    ensures Factored(p, root)[j] == if j + 1 < ECC then Add(Mul(p[j], root), p[j + 1]) else Mul(p[j], root)
  {}

  lemma Regroup(a: Byte, b: Byte, c: Byte, d: Byte, root: Byte, z: Byte)
    ensures Add(Mul(Add(a, Mul(b, root)), z), Add(Mul(c, root), d)) == Add(Add(Mul(a, z), d), Mul(Add(Mul(b, z), c), root))
  {
    hide Add, Mul;
    MulAddLeft(a, Mul(b, root), z);
    MulAddLeft(Mul(b, z), c, root);
    MulAssoc(b, root, z);
    MulComm(root, z);
    MulAssoc(b, z, root);
    Shuffle(Mul(a, z), Mul(Mul(b, z), root), Mul(c, root), d);
  }

  lemma Shuffle(a: Byte, b: Byte, c: Byte, d: Byte)
    ensures Add(Add(a, b), Add(c, d)) == Add(Add(a, d), Add(b, c))
  {}

  lemma FactoredEval(p: Bytes, root: Byte, z: Byte)
    requires |p| == ECC
    ensures Eval([p[0]] + Factored(p, root), z) == Mul(Eval(p, z), Add(z, root))
  {
    hide Add, Mul, Factored;
    var q := [p[0]] + Factored(p, root);
    FactoredPrefix(p, root, z, ECC);
    FactoredAt(p, root, ECC - 1);
    assert p[..ECC] == p;
    var a, b := Eval(p, z), Eval(p[..ECC - 1], z);
    assert Eval(q, z) == Add(Mul(Add(a, Mul(b, root)), z), Mul(p[ECC - 1], root));
    MulAddLeft(a, Mul(b, root), z);
    MulAssoc(b, root, z);
    MulComm(root, z);
    MulAssoc(b, z, root);
    AddAssoc(Mul(a, z), Mul(Mul(b, z), root), Mul(p[ECC - 1], root));
    MulAddLeft(Mul(b, z), p[ECC - 1], root);
    MulAddRight(a, z, root);
  }

  // One coefficient is the leading one, and nothing is in front of it.
  lemma {:induction false} StageLeads(i: nat)
    requires i < ECC
    ensures Stage(i)[ECC - 1 - i] == 1 && forall j :: 0 <= j < ECC - 1 - i ==> Stage(i)[j] == 0
    decreases i
  {
    hide Add, Mul, Factored;
    if i > 0 {
      StageLeads(i - 1);
      var p, root := Stage(i - 1), Alpha(i - 1);
      AddZero();
      ZeroMul(root);
      forall j | 0 <= j < ECC - i ensures Stage(i)[j] == if j == ECC - 1 - i then 1 else 0 {
        FactoredAt(p, root, j);
      }
    }
  }

  // The finished generator, with its leading one.
  function Generator(): (g: Bytes)
    ensures |g| == ECC + 1
  {
    [1] + Stage(ECC)
  }

  // Full product after i factors.
  function Whole(i: nat): Bytes
    requires i <= ECC
  {
    if i == ECC then Generator() else Stage(i)
  }

  lemma WholeNext(i: nat, z: Byte)
    requires i < ECC
    ensures Eval(Whole(i + 1), z) == Mul(Eval(Whole(i), z), Add(z, Alpha(i)))
  {
    hide Add, Mul, Factored, Alpha;
    StageLeads(i);
    var p := Stage(i);
    FactoredEval(p, Alpha(i), z);
    assert Stage(i + 1) == Factored(p, Alpha(i));
    if i + 1 < ECC {
      assert [p[0]] == Zeros(1);
      EvalConcat(Zeros(1), Stage(i + 1), z);
      EvalZeros(1, z);
      ZeroMul(Power(z, ECC));
      AddZero();
    }
  }

  // Its roots are the first thirty powers of x.
  lemma {:induction false} Roots(i: nat, k: nat)
    requires k < i <= ECC
    ensures Eval(Whole(i), Alpha(k)) == 0
    decreases i
  {
    hide Add, Mul, Alpha, Whole;
    WholeNext(i - 1, Alpha(k));
    if k == i - 1 {
      AddSelf(Alpha(k));
      MulComm(Eval(Whole(i - 1), Alpha(k)), 0);
      ZeroMul(Eval(Whole(i - 1), Alpha(k)));
    } else {
      Roots(i - 1, k);
      ZeroMul(Add(Alpha(k), Alpha(i - 1)));
    }
  }

  // ----- few terms cannot vanish often

  function Weight(p: Bytes): (n: nat)
    ensures n <= |p|
    decreases |p|
  {
    if p == [] then 0 else Weight(p[..|p| - 1]) + if p[|p| - 1] != 0 then 1 else 0
  }

  // Every coefficient times the power of its term.
  function Twisted(p: Bytes): (r: Bytes)
    ensures |r| == |p| && forall j :: 0 <= j < |p| ==> r[j] == Mul(p[j], Alpha(|p| - 1 - j))
  {
    seq(|p|, j requires 0 <= j < |p| => Mul(p[j], Alpha(|p| - 1 - j)))
  }

  lemma {:induction false} EvalTwisted(p: Bytes, k: nat)
    ensures Eval(Twisted(p), Alpha(k)) == Eval(p, Alpha(k + 1))
    decreases |p|
  {
    hide Add, Mul, Alpha;
    if p != [] {
      var n := |p| - 1;
      var z := Alpha(k);
      EvalTwisted(p[..n], k);
      TwistedFront(p);
      EvalScale(Twisted(p[..n]), Alpha(1), z);
      AlphaAdd(1, k);
      MulAssoc(Eval(p[..n], Alpha(k + 1)), Alpha(1), z);
      AlphaZero();
      MulComm(p[n], 1);
      OneMul(p[n]);
    }
  }

  lemma TwistedFront(p: Bytes)
    requires p != []
    ensures Twisted(p)[..|p| - 1] == Scale(Twisted(p[..|p| - 1]), Alpha(1))
  {
    hide Mul, Alpha;
    var n := |p| - 1;
    var l, r := Twisted(p)[..n], Scale(Twisted(p[..n]), Alpha(1));
    forall j | 0 <= j < n ensures l[j] == r[j] {
      MulAssoc(p[j], Alpha(n - 1 - j), Alpha(1));
      AlphaAdd(n - 1 - j, 1);
    }
  }

  // What is left of p when the term at e is twisted away.
  function Reduced(p: Bytes, e: nat): (r: Bytes)
    requires e < |p|
    ensures |r| == |p|
  {
    Xor(Twisted(p), Scale(p, Alpha(|p| - 1 - e)))
  }

  lemma ReducedAt(p: Bytes, e: nat, j: nat)
    requires e < |p| <= 255 && j < |p|
    ensures Reduced(p, e)[j] != 0 <==> p[j] != 0 && j != e
  {
    hide Add, Mul, Alpha;
    var a, b := Alpha(|p| - 1 - j), Alpha(|p| - 1 - e);
    assert Reduced(p, e)[j] == Add(Mul(p[j], a), Mul(p[j], b));
    MulAddRight(p[j], a, b);
    if p[j] == 0 {
      ZeroMul(Add(a, b));
    } else if j == e {
      AddSelf(a);
      MulComm(p[j], 0);
      ZeroMul(p[j]);
    } else {
      AlphaApart(|p| - 1 - j, |p| - 1 - e);
      AddApart(a, b);
      NoZeroDivisor(p[j], Add(a, b));
    }
  }

  lemma AddApart(a: Byte, b: Byte)
    ensures Add(a, b) == 0 <==> a == b
  {}

  lemma {:induction false} WeightLess(p: Bytes, q: Bytes, e: nat)
    requires e < |p| == |q| && p[e] != 0 && forall j :: 0 <= j < |p| ==> (q[j] != 0 <==> p[j] != 0 && j != e)
    ensures Weight(q) + 1 == Weight(p)
    decreases |p|
  {
    var n := |p| - 1;
    if e == n {
      SameWeight(p[..n], q[..n]);
    } else {
      WeightLess(p[..n], q[..n], e);
    }
  }

  lemma {:induction false} SameWeight(p: Bytes, q: Bytes)
    requires |p| == |q| && forall j :: 0 <= j < |p| ==> (q[j] != 0 <==> p[j] != 0)
    ensures Weight(q) == Weight(p)
    decreases |p|
  {
    if p != [] {
      SameWeight(p[..|p| - 1], q[..|p| - 1]);
    }
  }

  lemma {:induction false} SomeTerm(p: Bytes) returns (e: nat)
    requires Weight(p) > 0
    ensures e < |p| && p[e] != 0
    decreases |p|
  {
    e := |p| - 1;
    if p[e] == 0 {
      e := SomeTerm(p[..e]);
    }
  }

  lemma {:induction false} OneTerm(p: Bytes, e: nat)
    requires e < |p| && forall j :: 0 <= j < |p| && j != e ==> p[j] == 0
    ensures Eval(p, 1) == p[e]
    decreases |p|
  {
    hide Add, Mul;
    var n := |p| - 1;
    AddZero();
    MulComm(Eval(p[..n], 1), 1);
    OneMul(Eval(p[..n], 1));
    if e == n {
      assert p[..n] == Zeros(n);
      EvalZeros(n, 1);
    } else {
      OneTerm(p[..n], e);
    }
  }

  lemma {:induction false} NoTerm(p: Bytes, j: nat)
    requires Weight(p) == 0 && j < |p|
    ensures p[j] == 0
    decreases |p|
  {
    if j < |p| - 1 {
      NoTerm(p[..|p| - 1], j);
    }
  }

  // A polynomial of w terms, and of degree below 255, does not vanish at w
  // successive powers of x.
  lemma {:induction false} TermsBound(p: Bytes) returns (k: nat)
    requires |p| <= 255 && Weight(p) > 0
    ensures k < Weight(p) && Eval(p, Alpha(k)) != 0
    decreases Weight(p)
  {
    hide Add, Mul, Alpha, Eval;
    var e := SomeTerm(p);
    var q := Reduced(p, e);
    forall j | 0 <= j < |p| ensures q[j] != 0 <==> p[j] != 0 && j != e {
      ReducedAt(p, e, j);
    }
    WeightLess(p, q, e);
    if Weight(p) == 1 {
      forall j | 0 <= j < |p| && j != e ensures p[j] == 0 {
        NoTerm(q, j);
      }
      OneTerm(p, e);
      AlphaZero();
      k := 0;
    } else {
      k := TermsBound(q);
      EvalXor(Twisted(p), Scale(p, Alpha(|p| - 1 - e)), Alpha(k));
      EvalTwisted(p, k);
      EvalScale(p, Alpha(|p| - 1 - e), Alpha(k));
      if Eval(p, Alpha(k)) == 0 {
        ZeroMul(Alpha(|p| - 1 - e));
        AddZero();
        k := k + 1;
      }
    }
  }

  // No coefficient of the generator is zero.
  lemma GeneratorFull(j: nat)
    requires j < ECC
    ensures Stage(ECC)[j] != 0
  {
    hide Add, Mul, Alpha, Eval, Stage;
    var g := Generator();
    if Stage(ECC)[j] == 0 {
      WeightGap(g, j + 1);
      HasTerm(g, 0);
      var k := TermsBound(g);
      Roots(ECC, k);
    }
  }

  lemma {:induction false} WeightGap(p: Bytes, j: nat)
    requires j < |p| && p[j] == 0
    ensures Weight(p) < |p|
    decreases |p|
  {
    if j < |p| - 1 {
      WeightGap(p[..|p| - 1], j);
    }
  }

  lemma {:induction false} HasTerm(p: Bytes, j: nat)
    requires j < |p| && p[j] != 0
    ensures Weight(p) > 0
    decreases |p|
  {
    if j < |p| - 1 {
      HasTerm(p[..|p| - 1], j);
    }
  }

  // ----- the program's divisor and step table

  // reedSolomonComputeDivisor for thirty check bytes.
  method ComputeDivisor(t: Tables) returns (div: array<Byte>)
    requires t.Valid()
    ensures fresh(div) && div[..] == Stage(ECC)
  {
    div := new Byte[ECC](_ => 0);
    div[ECC - 1] := 1;
    assert div[..] == Stage(0);
    hide Mul, Add, Alpha, Stage, Factored;
    var root: Byte := 1;
    AlphaZero();
    for i := 0 to ECC
      invariant div[..] == Stage(i) && root == Alpha(i) && t.Valid()
    {
      MultiplyFactor(t, div, root);
      StageNext(i);
      AlphaAdd(i, 1);
      Two();
      root := t.Multiply(root, 0x02);
    }
  }

  lemma Two()
    ensures Alpha(1) == 0x02
  {
    assert Alpha(1) == Double(Doubled(1, 0));
  }

  lemma StageNext(i: nat)
    ensures Stage(i + 1) == Factored(Stage(i), Alpha(i))
  {}

  // One factor, in place and from the front.
  method MultiplyFactor(t: Tables, p: array<Byte>, root: Byte)
    requires t.Valid() && p.Length == ECC && p != t.exp
    modifies p
    ensures p[..] == Factored(old(p[..]), root) && t.Valid()
  {
    hide Mul, Add, Alpha;
    ghost var before := p[..];
    for j := 0 to ECC
      invariant t.Valid()
      invariant forall k :: 0 <= k < j ==> p[k] == Factored(before, root)[k]
      invariant forall k :: j <= k < ECC ==> p[k] == before[k]
    {
      var m := t.Multiply(p[j], root);
      FactoredAt(before, root, j);
      p[j] := m;
      if j + 1 < ECC { p[j] := Add(p[j], p[j + 1]); }
    }
  }

  // Row f of the step table is the divisor times f.
  ghost predicate RsTable(t: seq<Bytes>) {
    |t| == 256 && forall f: Byte :: t[Val(f)] == Scale(Stage(ECC), f)
  }

  // dosferPrepareRs: the rows by logarithms.  It would go wrong for a divisor
  // with a zero coefficient, whose logarithm it takes for nought; this one has
  // none.
  method PrepareRs(g: Tables) returns (t: seq<Bytes>)
    requires g.Valid()
    ensures RsTable(t)
  {
    hide Mul, Alpha, Val, Scale, Stage;
    var div := ComputeDivisor(g);
    var logs := new nat[ECC](_ => 0);
    for j := 0 to ECC
      invariant g.Valid() && div[..] == Stage(ECC)
      invariant forall k :: 0 <= k < j ==> logs[k] < 255 && Alpha(logs[k]) == div[k]
    {
      GeneratorFull(j);
      assert div[..][j] == div[j];
      logs[j] := if div[j] != 0 then g.log[Val(div[j])] else 0;
    }
    var logarithms, coefficients := logs[..], div[..];
    t := [];
    for f := 0 to 256
      invariant g.Valid() && |t| == f
      invariant forall k :: 0 <= k < f ==> t[k] == Scale(Stage(ECC), ToByte(k))
    {
      var row := StepRow(g, coefficients, logarithms, ToByte(f));
      t := t + [row];
    }
    forall b: Byte ensures t[Val(b)] == Scale(Stage(ECC), b) {
      ValToByte(b);
    }
  }

  method StepRow(g: Tables, div: Bytes, logs: seq<nat>, f: Byte) returns (row: Bytes)
    requires g.Valid() && |div| == |logs| == ECC
    requires forall k :: 0 <= k < ECC ==> logs[k] < 255 && Alpha(logs[k]) == div[k]
    ensures row == Scale(div, f)
  {
    hide Mul, Alpha, Val;
    row := [];
    if f == 0 {
      forall k | 0 <= k < ECC ensures Mul(div[k], 0) == 0 {
        ZeroMul(div[k]);
        MulComm(div[k], 0);
      }
      row := Zeros(ECC);
      return;
    }
    var factor := g.log[Val(f)];
    for j := 0 to ECC
      invariant |row| == j && forall k :: 0 <= k < j ==> row[k] == Mul(div[k], f)
    {
      AlphaAdd(logs[j], factor);
      row := row + [g.exp[logs[j] + factor]];
    }
  }

  // So the table is the XOR-linear one the encoder needs.
  lemma TableIsLinear(t: seq<Bytes>)
    requires RsTable(t)
    ensures LinearTable(t) && forall f: Byte :: Row(t, f) == Scale(Stage(ECC), f)
  {
    hide Mul, Add, Val, Stage;
    forall i | 0 <= i < 256 ensures |t[i]| == ECC {
      ToByteVal(i);
      assert t[Val(ToByte(i))] == Scale(Stage(ECC), ToByte(i));
    }
    forall a: Byte, b: Byte ensures Row(t, Add(a, b)) == Xor(Row(t, a), Row(t, b)) {
      ScaleAdd(Stage(ECC), a, b);
    }
  }

  lemma ScaleAdd(p: Bytes, a: Byte, b: Byte)
    ensures Scale(p, Add(a, b)) == Xor(Scale(p, a), Scale(p, b))
  {
    hide Mul, Add;
    forall j | 0 <= j < |p| ensures Scale(p, Add(a, b))[j] == Add(Mul(p[j], a), Mul(p[j], b)) {
      MulAddRight(p[j], a, b);
    }
  }

  // ----- what the check bytes are

  lemma ShiftEval(e: Bytes, z: Byte)
    requires |e| == ECC
    ensures Eval(Shift(e), z) == Add(Mul(Eval(e, z), z), Mul(e[0], Power(z, ECC)))
  {
    hide Mul, Add, Eval;
    var rest := e[1..];
    assert [e[0]] + rest == e;
    EvalConcat([e[0]], rest, z);
    SingleEval(e[0], z);
    var x, y := Mul(e[0], Power(z, ECC - 1)), Eval(rest, z);
    Appended(rest, z);
    assert Shift(e) == rest + [0];
    MulAddLeft(x, y, z);
    MulAssoc(e[0], Power(z, ECC - 1), z);
    AddComm(Mul(x, z), Mul(y, z));
    Undo(Mul(x, z), Mul(y, z));
  }

  lemma Undo(a: Byte, b: Byte)
    ensures Add(Add(a, b), a) == b
  {}

  lemma SingleEval(c: Byte, z: Byte)
    ensures Eval([c], z) == c
  {
    hide Mul, Add;
    assert [c][..0] == [];
    ZeroMul(z);
    AddZero();
  }

  lemma Appended(p: Bytes, z: Byte)
    ensures Eval(p + [0], z) == Mul(Eval(p, z), z)
  {
    hide Mul, Add;
    assert (p + [0])[..|p|] == p;
    AddZero();
  }

  // At a root of the generator its lower part is the leading power.
  lemma LowerPart(k: nat)
    requires k < ECC
    ensures Eval(Stage(ECC), Alpha(k)) == Power(Alpha(k), ECC)
  {
    hide Mul, Add, Alpha, Eval, Stage;
    Roots(ECC, k);
    EvalConcat([1], Stage(ECC), Alpha(k));
    SingleEval(1, Alpha(k));
    OneMul(Power(Alpha(k), ECC));
    AddApart(Power(Alpha(k), ECC), Eval(Stage(ECC), Alpha(k)));
  }

  lemma StepEval(t: seq<Bytes>, e: Bytes, d: Byte, k: nat)
    requires RsTable(t) && ShapedTable(t) && |e| == ECC && k < ECC
    ensures Eval(RsStep(t, e, d), Alpha(k)) == Mul(Add(Mul(d, Power(Alpha(k), ECC - 1)), Eval(e, Alpha(k))), Alpha(k))
  {
    hide Mul, Add, Alpha, Eval, Stage, Shift, Row, Xor, RsTable, Scale, Power;
    var z, f := Alpha(k), Add(d, e[0]);
    RowIs(t, f);
    PowerNext(z, ECC);
    EvalXor(Shift(e), Row(t, f), z);
    ShiftEval(e, z);
    EvalScale(Stage(ECC), f, z);
    LowerPart(k);
    StepAlgebra(Eval(e, z), e[0], d, Power(z, ECC - 1), z);
  }

  lemma RowIs(t: seq<Bytes>, f: Byte)
    requires RsTable(t) && ShapedTable(t)
    ensures Row(t, f) == Scale(Stage(ECC), f)
  {}

  lemma PowerNext(z: Byte, n: nat)
    requires n > 0
    ensures Power(z, n) == Mul(Power(z, n - 1), z)
  {
    hide Mul;
  }

  lemma StepAlgebra(x: Byte, e: Byte, d: Byte, p: Byte, z: Byte)
    ensures var top := Mul(p, z);
            Add(Add(Mul(x, z), Mul(e, top)), Mul(top, Add(d, e))) == Mul(Add(Mul(d, p), x), z)
  {
    hide Mul, Add;
    var top := Mul(p, z);
    MulComm(top, Add(d, e));
    MulAddLeft(d, e, top);
    SwapTail(Mul(x, z), Mul(d, top), Mul(e, top));
    MulAddLeft(Mul(d, p), x, z);
    MulAssoc(d, p, z);
    AddComm(Mul(x, z), Mul(d, top));
  }

  // The check bytes make up for the data at every root.
  lemma {:induction false} EccEval(t: seq<Bytes>, data: Bytes, k: nat)
    requires RsTable(t) && ShapedTable(t) && k < ECC
    ensures Eval(EccOf(t, data), Alpha(k)) == Mul(Eval(data, Alpha(k)), Power(Alpha(k), ECC))
    decreases |data|
  {
    hide Mul, Add, Alpha, RsStep;
    var z := Alpha(k);
    if data == [] {
      EvalZeros(ECC, z);
      ZeroMul(Power(z, ECC));
    } else {
      var n := |data| - 1;
      EccEval(t, data[..n], k);
      StepEval(t, EccOf(t, data[..n]), data[n], k);
      Horner(data[n], Eval(data[..n], z), z);
    }
  }

  lemma Horner(d: Byte, x: Byte, z: Byte)
    ensures Mul(Add(Mul(d, Power(z, ECC - 1)), Mul(x, Power(z, ECC))), z) == Mul(Add(Mul(x, z), d), Power(z, ECC))
  {
    hide Mul, Add;
    var p, top := Power(z, ECC - 1), Power(z, ECC);
    MulAddLeft(Mul(d, p), Mul(x, top), z);
    MulAssoc(d, p, z);
    MulAssoc(x, top, z);
    MulComm(top, z);
    MulAssoc(x, z, top);
    MulAddLeft(Mul(x, z), d, top);
    AddComm(Mul(d, top), Mul(Mul(x, z), top));
  }

  // Data and check bytes together are a word of the code: they vanish at the
  // first thirty powers of x.
  lemma CodewordRoots(t: seq<Bytes>, data: Bytes, k: nat)
    requires RsTable(t) && ShapedTable(t) && k < ECC
    ensures Eval(data + EccOf(t, data), Alpha(k)) == 0
  {
    hide Mul, Add, Alpha, Eval, EccOf;
    EccEval(t, data, k);
    EvalConcat(data, EccOf(t, data), Alpha(k));
    AddSelf(Eval(EccOf(t, data), Alpha(k)));
  }

  // In how many places two strings differ.
  function Distance(a: Bytes, b: Bytes): nat
    requires |a| == |b|
  {
    Weight(Xor(a, b))
  }

  // Different data give words that differ in more than thirty places, so up to
  // fifteen wrong bytes can be put right.
  lemma MinimumDistance(t: seq<Bytes>, a: Bytes, b: Bytes)
    requires RsTable(t) && ShapedTable(t) && |a| == |b| <= 225 && a != b
    ensures Distance(a + EccOf(t, a), b + EccOf(t, b)) > ECC
  {
    hide Mul, Add, Alpha, Eval, EccOf, Xor;
    var x, y := a + EccOf(t, a), b + EccOf(t, b);
    var i :| 0 <= i < |a| && a[i] != b[i];
    DifferAt(x, y, i);
    HasTerm(Xor(x, y), i);
    var k := TermsBound(Xor(x, y));
    if Distance(x, y) <= ECC {
      CodewordRoots(t, a, k);
      CodewordRoots(t, b, k);
      EvalXor(x, y, Alpha(k));
      AddSelf(0);
    }
  }

  lemma DifferAt(a: Bytes, b: Bytes, i: nat)
    requires |a| == |b| && i < |a| && a[i] != b[i]
    ensures Xor(a, b)[i] != 0
  {
    AddApart(a[i], b[i]);
  }

  // ----- a whole symbol

  // The word of block b as it stands in the interleaved stream: 19 blocks of 118
  // data bytes and 6 of 119, column by column, then the check bytes.
  function BlockWord(stream: Bytes, b: nat): (w: Bytes)
    requires |stream| == 3706 && b < 25
    ensures |w| == (if b < 19 then 118 else 119) + 30
  {
    var n := if b < 19 then 118 else 119;
    seq(n + 30, j requires 0 <= j < n + 30 =>
      if j < 118 then stream[25 * j + b] else if j < n then stream[2950 + b - 19] else stream[2956 + 25 * (j - n) + b])
  }

  // The data bytes of block b, in order.
  function BlockBytes(data: Bytes, b: nat): (w: Bytes)
    requires |data| == 2956 && b < 25
    ensures |w| == if b < 19 then 118 else 119
  {
    if b < 19 then data[118 * b..118 * b + 118] else data[118 * b + (b - 19)..118 * b + (b - 19) + 119]
  }

  lemma BlockWordIs(t: seq<Bytes>, data: Bytes, b: nat)
    requires ShapedTable(t) && |data| == 2956 && b < 25
    ensures BlockWord(Codewords(t, data), b) == BlockBytes(data, b) + EccOf(t, BlockBytes(data, b))
  {
    hide Codewords, EccOf;
    var n := DataLen(b);
    assert Block(data, b) == BlockBytes(data, b);
    var w, e := BlockWord(Codewords(t, data), b), EccOf(t, BlockBytes(data, b));
    forall j | 0 <= j < n + 30 ensures w[j] == if j < n then BlockBytes(data, b)[j] else e[j - n] {
      var c := if j < n then DataCell(b, j) else EccCell(b, j - n);
      EncodeAt(t, data, c);
    }
  }

  // Each of the 25 words of a symbol is a word of the code.
  lemma SymbolRoots(t: seq<Bytes>, data: Bytes, b: nat, k: nat)
    requires RsTable(t) && |data| == 2956 && b < 25 && k < 30
    ensures ShapedTable(t) && BlockWord(Codewords(t, data), b)[..if b < 19 then 118 else 119] == BlockBytes(data, b)
    ensures Eval(BlockWord(Codewords(t, data), b), Alpha(k)) == 0
  {
    hide Codewords, EccOf, Alpha, Eval, BlockBytes, BlockWord, RsTable;
    TableIsLinear(t);
    BlockWordIs(t, data, b);
    CodewordRoots(t, BlockBytes(data, b), k);
  }

  // Two symbols with different data differ in one of the words by more than
  // thirty bytes.
  lemma SymbolsApart(t: seq<Bytes>, a: Bytes, b: Bytes) returns (k: nat)
    requires RsTable(t) && ShapedTable(t) && |a| == |b| == 2956 && a != b
    ensures k < 25 && BlockBytes(a, k) != BlockBytes(b, k)
    ensures Distance(BlockWord(Codewords(t, a), k), BlockWord(Codewords(t, b), k)) > 30
  {
    hide Codewords, EccOf, RsTable, BlockWord, Distance;
    var i :| 0 <= i < 2956 && a[i] != b[i];
    k := if i < 2242 then i / 118 else 19 + (i - 2242) / 119;
    var at := if k < 19 then i - 118 * k else i - (118 * k + (k - 19));
    assert BlockBytes(a, k)[at] == a[i] && BlockBytes(b, k)[at] == b[i];
    BlockWordIs(t, a, k);
    BlockWordIs(t, b, k);
    MinimumDistance(t, BlockBytes(a, k), BlockBytes(b, k));
  }
}
