// solvePlane4: Gauss-Jordan elimination over GF(2) for the four basis payloads
// of a PLANE group.

module PlaneSolver {
  import opened Gf2
  import opened Protocol
  import opened Repair

  // Bit k of a coefficient.
  function Bit(w: Word, k: nat): bool
    requires k < 4
  {
    if k == 0 then w & 1 == 1 else if k == 1 then w & 2 == 2 else if k == 2 then w & 4 == 4 else w & 8 == 8
  }

  // A coefficient that fits the four planes.
  predicate Small(w: Word) { w & 0xFFFFFFF0 == 0 }

  lemma BitPlus(a: Word, b: Word, k: nat)
    requires k < 4
    ensures Bit(Plus(a, b), k) == (Bit(a, k) != Bit(b, k))
  {
    if k == 0 { Bit0(a, b); } else if k == 1 { Bit1(a, b); } else if k == 2 { Bit2(a, b); } else { Bit3(a, b); }
  }

  lemma Bit0(a: Word, b: Word) ensures ((a ^ b) & 1 == 1) == ((a & 1 == 1) != (b & 1 == 1)) {}
  lemma Bit1(a: Word, b: Word) ensures ((a ^ b) & 2 == 2) == ((a & 2 == 2) != (b & 2 == 2)) {}
  lemma Bit2(a: Word, b: Word) ensures ((a ^ b) & 4 == 4) == ((a & 4 == 4) != (b & 4 == 4)) {}
  lemma Bit3(a: Word, b: Word) ensures ((a ^ b) & 8 == 8) == ((a & 8 == 8) != (b & 8 == 8)) {}

  lemma SmallPlus(a: Word, b: Word)
    requires Small(a) && Small(b)
    ensures Small(Plus(a, b))
  {
    SmallXor(a, b);
  }

  lemma SmallXor(a: Word, b: Word)
    requires a & 0xFFFFFFF0 == 0 && b & 0xFFFFFFF0 == 0
    ensures (a ^ b) & 0xFFFFFFF0 == 0
  {}

  function Unit(k: nat): Word
    requires k < 4
  {
    if k == 0 then 1 else if k == 1 then 2 else if k == 2 then 4 else 8
  }

  lemma UnitBits(k: nat)
    requires k < 4
    ensures Small(Unit(k)) && forall j :: 0 <= j < 4 ==> Bit(Unit(k), j) == (j == k)
  {}

  // The coefficient is determined by its four bits.
  lemma SmallEqual(a: Word, b: Word)
    requires Small(a) && Small(b)
    requires Bit(a, 0) == Bit(b, 0) && Bit(a, 1) == Bit(b, 1) && Bit(a, 2) == Bit(b, 2) && Bit(a, 3) == Bit(b, 3)
    ensures a == b
  {}

  // ----- linear combinations

  predicate Basis(x: seq<Bytes>, n: nat) {
    |x| == 4 && forall k :: 0 <= k < 4 ==> |x[k]| == n
  }

  function Part(w: Word, x: seq<Bytes>, n: nat, k: nat): (r: Bytes)
    requires Basis(x, n) && k < 4
    ensures |r| == n
  {
    if Bit(w, k) then x[k] else Zeros(n)
  }

  // The payload a coefficient stands for.
  function Combine(w: Word, x: seq<Bytes>, n: nat): (r: Bytes)
    requires Basis(x, n)
    ensures |r| == n
  {
    Xor(Xor(Part(w, x, n, 0), Part(w, x, n, 1)), Xor(Part(w, x, n, 2), Part(w, x, n, 3)))
  }

  lemma PartPlus(a: Word, b: Word, x: seq<Bytes>, n: nat, k: nat)
    requires Basis(x, n) && k < 4
    ensures Part(Plus(a, b), x, n, k) == Xor(Part(a, x, n, k), Part(b, x, n, k))
  {
    hide Bit, Plus, Xor, Zeros;
    BitPlus(a, b, k);
    XorSelf(x[k]);
    XorZero(x[k]);
    XorZero(Zeros(n));
    XorComm(Zeros(n), x[k]);
  }

  lemma CombinePlus(a: Word, b: Word, x: seq<Bytes>, n: nat)
    requires Basis(x, n)
    ensures Combine(Plus(a, b), x, n) == Xor(Combine(a, x, n), Combine(b, x, n))
  {
    hide Part, Plus, Xor, Basis;
    PartPlus(a, b, x, n, 0);
    PartPlus(a, b, x, n, 1);
    PartPlus(a, b, x, n, 2);
    PartPlus(a, b, x, n, 3);
    var a0, a1, a2, a3 := Part(a, x, n, 0), Part(a, x, n, 1), Part(a, x, n, 2), Part(a, x, n, 3);
    var b0, b1, b2, b3 := Part(b, x, n, 0), Part(b, x, n, 1), Part(b, x, n, 2), Part(b, x, n, 3);
    XorCross(a0, b0, a1, b1);
    XorCross(a2, b2, a3, b3);
    XorCross(Xor(a0, a1), Xor(b0, b1), Xor(a2, a3), Xor(b2, b3));
  }

  lemma CombineUnit(k: nat, x: seq<Bytes>, n: nat)
    requires Basis(x, n) && k < 4
    ensures Combine(Unit(k), x, n) == x[k]
  {
    hide Bit, Xor, Zeros, Unit;
    UnitBits(k);
    XorZero(x[k]);
    XorZero(Zeros(n));
    XorComm(Zeros(n), x[k]);
  }

  // The payloads are the stated XOR combinations of the basis x.
  ghost predicate Consistent(coefficients: seq<Word>, payloads: seq<Bytes>, x: seq<Bytes>) {
    && |coefficients| == |payloads| && payloads != []
    && var n := |payloads[0]|;
       Basis(x, n) && forall i :: 0 <= i < |payloads| ==> payloads[i] == Combine(coefficients[i], x, n)
  }

  // The XOR of the coefficients picked by sel.
  function Picked(coefficients: seq<Word>, sel: seq<bool>): Word
    requires |sel| == |coefficients|
    decreases |sel|
  {
    if sel == [] then 0
    else
      var k := |sel| - 1;
      var rest := Picked(coefficients[..k], sel[..k]);
      if sel[k] then Plus(rest, coefficients[k]) else rest
  }

  // Every coefficient of the four planes is an XOR of received ones.
  ghost predicate Spans(coefficients: seq<Word>) {
    forall v: Word :: Small(v) ==> exists sel: seq<bool> :: |sel| == |coefficients| && Picked(coefficients, sel) == v
  }

  function Either(s: seq<bool>, t: seq<bool>): (r: seq<bool>)
    requires |s| == |t|
    ensures |r| == |s| && forall i :: 0 <= i < |r| ==> r[i] == (s[i] != t[i])
  {
    seq(|s|, i requires 0 <= i < |s| => s[i] != t[i])
  }

  lemma {:induction false} PickedEither(c: seq<Word>, s: seq<bool>, t: seq<bool>)
    requires |s| == |t| == |c|
    ensures Picked(c, Either(s, t)) == Plus(Picked(c, s), Picked(c, t))
    decreases |s|
  {
    hide Plus;
    if s == [] {
      PlusZero(0);
    } else {
      var k := |s| - 1;
      var a, b := Picked(c[..k], s[..k]), Picked(c[..k], t[..k]);
      assert Either(s, t)[..k] == Either(s[..k], t[..k]);
      PickedEither(c[..k], s[..k], t[..k]);
      PlusCross(a, c[k], b, c[k]);
      PlusSelf(c[k]);
      PlusZero(Plus(a, b));
      PlusAssoc(a, b, c[k]);
      PlusAssoc(a, c[k], b);
      PlusComm(b, c[k]);
    }
  }

  // A linear functional on coefficients: the parity of the selected bits.
  function Dot(f: seq<bool>, w: Word): bool
    requires |f| == 4
  {
    ((f[0] && Bit(w, 0)) != (f[1] && Bit(w, 1))) != ((f[2] && Bit(w, 2)) != (f[3] && Bit(w, 3)))
  }

  lemma DotPlus(f: seq<bool>, a: Word, b: Word)
    requires |f| == 4
    ensures Dot(f, Plus(a, b)) == (Dot(f, a) != Dot(f, b))
  {
    hide Bit, Plus;
    BitPlus(a, b, 0);
    BitPlus(a, b, 1);
    BitPlus(a, b, 2);
    BitPlus(a, b, 3);
  }

  ghost predicate Annihilates(f: seq<bool>, rows: seq<Word>) {
    |f| == 4 && forall i :: 0 <= i < |rows| ==> !Dot(f, rows[i])
  }

  lemma {:induction false} DotPicked(f: seq<bool>, c: seq<Word>, sel: seq<bool>)
    requires Annihilates(f, c) && |sel| == |c|
    ensures !Dot(f, Picked(c, sel))
    decreases |sel|
  {
    hide Dot, Plus;
    if sel == [] {
      DotZero(f);
    } else {
      var k := |sel| - 1;
      DotPicked(f, c[..k], sel[..k]);
      DotPlus(f, Picked(c[..k], sel[..k]), c[k]);
    }
  }

  lemma DotZero(f: seq<bool>)
    requires |f| == 4
    ensures !Dot(f, 0)
  {}

  lemma DotUnit(f: seq<bool>, k: nat)
    requires |f| == 4 && k < 4
    ensures Dot(f, Unit(k)) == f[k]
  {
    hide Bit, Unit;
    UnitBits(k);
  }

  // A functional that vanishes on every received coefficient but not
  // everywhere shows that they do not span.
  lemma NotSpanning(c: seq<Word>, f: seq<bool>, k: nat)
    requires Annihilates(f, c) && k < 4 && f[k]
    ensures !Spans(c)
  {
    hide Dot, Unit, Small, Picked;
    UnitBits(k);
    DotUnit(f, k);
    if Spans(c) {
      var sel: seq<bool> :| |sel| == |c| && Picked(c, sel) == Unit(k);
      DotPicked(f, c, sel);
    }
  }

  function Choose(b: bool, s: seq<bool>): (r: seq<bool>)
    ensures |r| == |s|
  {
    if b then s else seq(|s|, _ => false)
  }

  lemma {:induction false} PickedNone(c: seq<Word>, sel: seq<bool>)
    requires |sel| == |c| && forall i :: 0 <= i < |sel| ==> !sel[i]
    ensures Picked(c, sel) == 0
    decreases |sel|
  {
    hide Plus;
    if sel != [] {
      PickedNone(c[..|sel| - 1], sel[..|sel| - 1]);
    }
  }

  // Selections that produce the four units produce everything.
  lemma Spanning(c: seq<Word>, sels: seq<seq<bool>>)
    requires |sels| == 4
    requires forall k :: 0 <= k < 4 ==> |sels[k]| == |c| && Picked(c, sels[k]) == Unit(k)
    ensures Spans(c)
  {
    hide Plus, Bit, Unit, Small, Picked;
    forall v: Word | Small(v)
      ensures exists sel: seq<bool> :: |sel| == |c| && Picked(c, sel) == v
    {
      var s0, s1 := Choose(Bit(v, 0), sels[0]), Choose(Bit(v, 1), sels[1]);
      var s2, s3 := Choose(Bit(v, 2), sels[2]), Choose(Bit(v, 3), sels[3]);
      var t := Either(Either(s0, s1), Either(s2, s3));
      PickedEither(c, s0, s1);
      PickedEither(c, s2, s3);
      PickedEither(c, Either(s0, s1), Either(s2, s3));
      PickedChoice(c, sels[0], Bit(v, 0), 0);
      PickedChoice(c, sels[1], Bit(v, 1), 1);
      PickedChoice(c, sels[2], Bit(v, 2), 2);
      PickedChoice(c, sels[3], Bit(v, 3), 3);
      BitsRebuild(v);
    }
  }

  function Scaled(b: bool, k: nat): Word
    requires k < 4
  {
    if b then Unit(k) else 0
  }

  lemma PickedChoice(c: seq<Word>, sel: seq<bool>, b: bool, k: nat)
    requires k < 4 && |sel| == |c| && Picked(c, sel) == Unit(k)
    ensures Picked(c, Choose(b, sel)) == Scaled(b, k)
  {
    hide Picked, Unit;
    if !b {
      PickedNone(c, Choose(b, sel));
    }
  }

  lemma BitsRebuild(v: Word)
    requires Small(v)
    ensures Plus(Plus(Scaled(Bit(v, 0), 0), Scaled(Bit(v, 1), 1)), Plus(Scaled(Bit(v, 2), 2), Scaled(Bit(v, 3), 3))) == v
  {}

  // ----- the state of the elimination

  // Columns below `bit` hold the identity.
  ghost predicate Reduced(rows: seq<Word>, bit: nat) {
    bit <= 4 && bit <= |rows| && forall j, r :: 0 <= j < bit && 0 <= r < |rows| ==> Bit(rows[r], j) == (r == j)
  }

  // Every row is an XOR of received coefficients, and nothing was lost.
  ghost predicate SameSpan(c: seq<Word>, rows: seq<Word>, sels: seq<seq<bool>>) {
    && |sels| == |rows| == |c|
    && (forall r :: 0 <= r < |rows| ==> Small(rows[r]) && |sels[r]| == |c| && Picked(c, sels[r]) == rows[r])
    && (forall f :: Annihilates(f, rows) ==> Annihilates(f, c))
  }

  // Every right-hand side is the payload its row stands for.
  ghost predicate Stands(rows: seq<Word>, rhs: seq<Bytes>, x: seq<Bytes>, n: nat) {
    Basis(x, n) && |rhs| == |rows| && forall r :: 0 <= r < |rows| ==> rhs[r] == Combine(rows[r], x, n)
  }

  function Swap<T>(s: seq<T>, i: nat, j: nat): (r: seq<T>)
    requires i < |s| && j < |s|
    ensures |r| == |s|
  {
    s[i := s[j]][j := s[i]]
  }

  lemma SwapKeeps(c: seq<Word>, rows: seq<Word>, sels: seq<seq<bool>>, p: nat, bit: nat)
    requires SameSpan(c, rows, sels) && Reduced(rows, bit) && bit <= p < |rows|
    ensures SameSpan(c, Swap(rows, p, bit), Swap(sels, p, bit)) && Reduced(Swap(rows, p, bit), bit)
  {
    hide Bit, Picked, Small, Dot;
    var after := Swap(rows, p, bit);
    forall f | Annihilates(f, after) ensures Annihilates(f, c) {
      forall r | 0 <= r < |rows| ensures !Dot(f, rows[r]) {
        assert rows[r] == after[if r == p then bit else if r == bit then p else r];
      }
      assert Annihilates(f, rows);
    }
  }

  function AddRow(rows: seq<Word>, r: nat, p: nat): (s: seq<Word>)
    requires r < |rows| && p < |rows|
    ensures |s| == |rows|
  {
    rows[r := Plus(rows[r], rows[p])]
  }

  lemma AddRowKeeps(c: seq<Word>, rows: seq<Word>, sels: seq<seq<bool>>, r: nat, p: nat, bit: nat)
    requires SameSpan(c, rows, sels) && Reduced(rows, bit) && r < |rows| && bit <= p < |rows| && r != p
    ensures SameSpan(c, AddRow(rows, r, p), sels[r := Either(sels[r], sels[p])])
    ensures Reduced(AddRow(rows, r, p), bit)
  {
    hide Bit, Picked, Small, Dot, Plus;
    var after := AddRow(rows, r, p);
    PickedEither(c, sels[r], sels[p]);
    SmallPlus(rows[r], rows[p]);
    forall j | 0 <= j < bit ensures Bit(after[r], j) == (r == j) {
      BitPlus(rows[r], rows[p], j);
    }
    forall f | Annihilates(f, after) ensures Annihilates(f, c) {
      DotPlus(f, rows[r], rows[p]);
      assert after[p] == rows[p];
      forall i | 0 <= i < |rows| ensures !Dot(f, rows[i]) {
        if i != r {
          assert rows[i] == after[i];
        } else {
          assert !Dot(f, after[r]) && !Dot(f, after[p]);
        }
      }
      assert Annihilates(f, rows);
    }
  }

  // No row at or below the pivot has the bit: the coefficients do not span.
  lemma Stuck(c: seq<Word>, rows: seq<Word>, sels: seq<seq<bool>>, bit: nat)
    requires SameSpan(c, rows, sels) && Reduced(rows, bit) && bit < 4
    requires forall r :: bit <= r < |rows| ==> !Bit(rows[r], bit)
    ensures !Spans(c)
  {
    hide Bit, Picked, Small;
    var f := seq(4, k => if 0 <= k < bit && k < |rows| then Bit(rows[k], bit) else k == bit);
    forall r | 0 <= r < |rows| ensures !Dot(f, rows[r]) {
      assert forall j :: 0 <= j < bit ==> Bit(rows[r], j) == (r == j);
    }
    assert Annihilates(f, rows);
    NotSpanning(c, f, bit);
  }

  lemma Solved(c: seq<Word>, rows: seq<Word>, sels: seq<seq<bool>>)
    requires SameSpan(c, rows, sels) && Reduced(rows, 4)
    ensures forall k :: 0 <= k < 4 ==> rows[k] == Unit(k)
    ensures Spans(c)
  {
    hide Bit, Picked, Small, Unit;
    forall k | 0 <= k < 4 ensures rows[k] == Unit(k) {
      UnitBits(k);
      assert forall j :: 0 <= j < 4 ==> Bit(rows[k], j) == (k == j);
      SmallEqual(rows[k], Unit(k));
    }
    Spanning(c, sels[..4]);
  }

  function TrailingZeros(w: Word): nat {
    if Bit(w, 0) then 0 else if Bit(w, 1) then 1 else if Bit(w, 2) then 2 else if Bit(w, 3) then 3 else 4
  }

  predicate GoodArguments(coefficients: seq<Word>, payloads: seq<Bytes>) {
    && |coefficients| == |payloads| && |coefficients| >= 4
    && (forall i :: 0 <= i < |coefficients| ==> Small(coefficients[i]) && coefficients[i] != 0)
    && (forall i :: 0 <= i < |payloads| ==> |payloads[i]| == |payloads[0]|)
  }

  ghost function Start(c: seq<Word>): (sels: seq<seq<bool>>)
    requires forall i :: 0 <= i < |c| ==> Small(c[i])
    ensures SameSpan(c, c, sels)
  {
    var sels := seq(|c|, r => seq(|c|, i => i == r));
    StartPicks(c, sels);
    sels
  }

  lemma StartPicks(c: seq<Word>, sels: seq<seq<bool>>)
    requires |sels| == |c|
    requires forall r :: 0 <= r < |c| ==> |sels[r]| == |c| && forall i :: 0 <= i < |c| ==> sels[r][i] == (i == r)
    ensures forall r :: 0 <= r < |c| ==> Picked(c, sels[r]) == c[r]
  {
    hide Picked;
    forall r | 0 <= r < |c| ensures Picked(c, sels[r]) == c[r] {
      PickedOne(c, sels[r], r);
    }
  }

  lemma {:induction false} PickedOne(c: seq<Word>, sel: seq<bool>, r: nat)
    requires |sel| == |c| && r < |c| && forall i :: 0 <= i < |c| ==> sel[i] == (i == r)
    ensures Picked(c, sel) == c[r]
    decreases |sel|
  {
    hide Plus;
    var k := |sel| - 1;
    if r == k {
      PickedNone(c[..k], sel[..k]);
      PlusZero(c[k]);
    } else {
      PickedOne(c[..k], sel[..k], r);
    }
  }

  // Clear the pivot column in every other row.
  method Eliminate(ghost c: seq<Word>, row: array<Word>, rhs: array<Bytes>, bit: nat, ghost before: seq<seq<bool>>,
                   ghost x: seq<Bytes>, ghost len: nat, ghost sound: bool)
    returns (ghost sels: seq<seq<bool>>)
    requires row as object != rhs && row.Length == rhs.Length && bit < 4 && bit < row.Length && Bit(row[bit], bit)
    requires SameSpan(c, row[..], before) && Reduced(row[..], bit)
    requires forall i :: 0 <= i < rhs.Length ==> |rhs[i]| == len
    requires sound ==> Stands(row[..], rhs[..], x, len)
    modifies row, rhs
    ensures SameSpan(c, row[..], sels) && Reduced(row[..], bit + 1)
    ensures forall i :: 0 <= i < rhs.Length ==> |rhs[i]| == len
    ensures sound ==> Stands(row[..], rhs[..], x, len)
  {
    hide Bit, Small, Picked, Basis, Combine, Dot, Plus, Xor, SameSpan;
    sels := before;
    for r := 0 to row.Length
      invariant SameSpan(c, row[..], sels) && Reduced(row[..], bit)
      invariant Bit(row[bit], bit)
      invariant forall k :: 0 <= k < r && k != bit ==> !Bit(row[k], bit)
      invariant forall i :: 0 <= i < rhs.Length ==> |rhs[i]| == len
      invariant sound ==> Stands(row[..], rhs[..], x, len)
    {
      if r != bit && Bit(row[r], bit) {
        AddRowKeeps(c, row[..], sels, r, bit, bit);
        BitPlus(row[r], row[bit], bit);
        if sound {
          CombinePlus(row[r], row[bit], x, len);
          assert rhs[..][r] == rhs[r] && rhs[..][bit] == rhs[bit];
        }
        ghost var after := AddRow(row[..], r, bit);
        SpanLength(c, row[..], sels);
        sels := sels[r := Either(sels[r], sels[bit])];
        row[r] := Plus(row[r], row[bit]);
        rhs[r] := Xor(rhs[r], rhs[bit]);
        assert row[..] == after;
      }
    }
  }

  lemma SpanLength(c: seq<Word>, rows: seq<Word>, sels: seq<seq<bool>>)
    requires SameSpan(c, rows, sels)
    ensures |sels| == |rows| == |c| && forall r :: 0 <= r < |rows| ==> |sels[r]| == |c|
  {
    hide Picked, Small, Annihilates;
  }

  // The rows now are units: read the basis off the right-hand sides.
  method ReadOut(c: seq<Word>, row: array<Word>, rhs: array<Bytes>, ghost sels: seq<seq<bool>>,
                 ghost x: seq<Bytes>, ghost len: nat, ghost sound: bool)
    returns (out: seq<Bytes>)
    requires row.Length == rhs.Length
    requires SameSpan(c, row[..], sels) && Reduced(row[..], 4)
    requires sound ==> Stands(row[..], rhs[..], x, len)
    ensures Spans(c)
    ensures |out| == 4 && (sound ==> out == x)
  {
    hide Bit, Small, Picked, Spans, Combine, Unit, SameSpan;
    Solved(c, row[..], sels);
    out := [[], [], [], []];
    for k := 0 to 4
      invariant |out| == 4
      invariant sound ==> forall j :: 0 <= j < k ==> out[j] == x[j]
    {
      var bit := TrailingZeros(row[k]);
      assert row[k] == row[..][k] == Unit(k);
      UnitBits(k);
      assert bit == k;
      if sound {
        CombineUnit(k, x, len);
        assert rhs[k] == rhs[..][k];
      }
      out := out[bit := rhs[k]];
    }
  }

  lemma SwapStands(rows: seq<Word>, rhs: seq<Bytes>, x: seq<Bytes>, n: nat, p: nat, bit: nat)
    requires Stands(rows, rhs, x, n) && p < |rows| && bit < |rows|
    ensures Stands(Swap(rows, p, bit), Swap(rhs, p, bit), x, n)
  {
    hide Combine, Basis;
  }

  method SwapIn<T>(a: array<T>, i: nat, j: nat)
    requires i < a.Length && j < a.Length
    modifies a
    ensures a[..] == Swap(old(a[..]), i, j)
    ensures forall k :: 0 <= k < a.Length ==> a[k] == old(a[if k == i then j else if k == j then i else k])
  {
    a[i], a[j] := a[j], a[i];
  }

  // Err is the argument exception, Ok(None) the null result.  The ghost
  // parameter is any basis the equations may have come from.
  method SolvePlane4(coefficients: seq<Word>, payloads: seq<Bytes>, ghost x: seq<Bytes>)
    returns (r: Result<Option<seq<Bytes>>>)
    ensures r.Err? <==> !GoodArguments(coefficients, payloads)
    ensures r == Ok(None) <==> GoodArguments(coefficients, payloads) && !Spans(coefficients)
    ensures r.Ok? && r.value.Some? && Consistent(coefficients, payloads, x) ==> r.value.value == x
  {
    hide Bit, Small, Picked, Spans, Combine, SameSpan, Plus, Swap;
    if !GoodArguments(coefficients, payloads) {
      return Err;
    }
    var n := |coefficients|;
    ghost var len := |payloads[0]|;
    var row := new Word[n](i requires 0 <= i < n => coefficients[i]);
    var rhs := new Bytes[n](i requires 0 <= i < n => payloads[i]);
    assert row[..] == coefficients && rhs[..] == payloads;
    ghost var sound := Consistent(coefficients, payloads, x);
    ghost var sels := Start(coefficients);
    assert Reduced(row[..], 0);
    hide Reduced, Stands, Consistent, Basis;
    for bit := 0 to 4
      invariant SameSpan(coefficients, row[..], sels) && Reduced(row[..], bit)
      invariant forall i :: 0 <= i < n ==> |rhs[i]| == len
      invariant sound ==> Stands(row[..], rhs[..], x, len)
    {
      var p := bit;
      while p < n && !Bit(row[p], bit)
        invariant bit <= p <= n
        invariant forall k :: bit <= k < p ==> !Bit(row[k], bit)
      {
        p := p + 1;
      }
      if p == n {
        Stuck(coefficients, row[..], sels, bit);
        return Ok(None);
      }
      SwapKeeps(coefficients, row[..], sels, p, bit);
      SpanLength(coefficients, row[..], sels);
      if sound {
        SwapStands(row[..], rhs[..], x, len, p, bit);
      }
      SwapIn(row, p, bit);
      SwapIn(rhs, p, bit);
      sels := Eliminate(coefficients, row, rhs, bit, Swap(sels, p, bit), x, len, sound);
    }
    var out := ReadOut(coefficients, row, rhs, sels, x, len, sound);
    r := Ok(Some(out));
  }
}
