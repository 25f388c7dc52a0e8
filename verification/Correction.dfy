// The sparse parity correction (qr_prepare_correction_patches): the scatter of
// a codeword difference, compacted to a short list of (offset, XOR) patches.

module Correction {
  import opened Gf2
  import opened Protocol
  import opened V40L
  import opened Raster

  const MAX_PATCHES: nat := 1024

  datatype Patch = Patch(offset: nat, value: Byte)

  predicate ShapedPatches(p: seq<Patch>) {
    forall i :: 0 <= i < |p| ==> p[i].offset < RASTER
  }

  // XOR the patches into a raster one after the other.
  function Applied(p: seq<Patch>, r: Bytes): (s: Bytes)
    requires ShapedPatches(p) && |r| == RASTER
    ensures |s| == RASTER
    decreases |p|
  {
    if p == [] then r
    else
      var q := p[|p| - 1];
      var s := Applied(p[..|p| - 1], r);
      s[q.offset := Add(s[q.offset], q.value)]
  }

  // The non-zero bytes among the first n, in order.
  function PatchesUpTo(d: Bytes, n: nat): (p: seq<Patch>)
    requires |d| == RASTER && n <= RASTER
    ensures ShapedPatches(p)
  {
    if n == 0 then []
    else if d[n - 1] != 0 then PatchesUpTo(d, n - 1) + [Patch(n - 1, d[n - 1])]
    else PatchesUpTo(d, n - 1)
  }

  function Prefix(d: Bytes, n: nat): (r: Bytes)
    requires n <= |d|
    ensures |r| == |d|
  {
    d[..n] + Zeros(|d| - n)
  }

  lemma {:induction false} AppliedPrefix(d: Bytes, r: Bytes, n: nat)
    requires |d| == |r| == RASTER && n <= RASTER
    ensures Applied(PatchesUpTo(d, n), r) == Xor(r, Prefix(d, n))
    decreases n
  {
    hide Add;
    AddZero();
    if n == 0 {
      assert Prefix(d, 0) == Zeros(RASTER);
      assert Xor(r, Zeros(RASTER)) == r;
    } else {
      AppliedPrefix(d, r, n - 1);
      var p := PatchesUpTo(d, n - 1);
      var a, b := Xor(r, Prefix(d, n - 1)), Xor(r, Prefix(d, n));
      assert forall i :: 0 <= i < RASTER && i != n - 1 ==> Prefix(d, n)[i] == Prefix(d, n - 1)[i];
      assert a[n - 1] == r[n - 1] && b[n - 1] == Add(r[n - 1], d[n - 1]);
      assert b == a[n - 1 := Add(r[n - 1], d[n - 1])];
      if d[n - 1] != 0 {
        var q := PatchesUpTo(d, n);
        assert q[..|q| - 1] == p;
      }
    }
  }

  // Applying the list is XORing the whole difference.
  lemma AppliedIsXor(d: Bytes, r: Bytes)
    requires |d| == |r| == RASTER
    ensures Applied(PatchesUpTo(d, RASTER), r) == Xor(r, d)
  {
    hide Xor, Applied, PatchesUpTo;
    AppliedPrefix(d, r, RASTER);
    assert Prefix(d, RASTER) == d;
  }

  // ----- how many patches a header correction can need

  function NonZero(s: Bytes): set<nat> {
    set i | 0 <= i < |s| && s[i] != 0
  }

  lemma {:induction false} PatchCount(d: Bytes, n: nat)
    requires |d| == RASTER && n <= RASTER
    ensures |PatchesUpTo(d, n)| == |NonZero(Prefix(d, n))|
    decreases n
  {
    if n == 0 {
      assert NonZero(Prefix(d, 0)) == {};
    } else {
      PatchCount(d, n - 1);
      var a, b := NonZero(Prefix(d, n - 1)), NonZero(Prefix(d, n));
      assert forall i :: 0 <= i < RASTER && i != n - 1 ==> Prefix(d, n)[i] == Prefix(d, n - 1)[i];
      if d[n - 1] != 0 {
        assert b == a + {n - 1};
      } else {
        assert b == a;
      }
    }
  }

  lemma Smaller(a: set<nat>, b: set<nat>)
    requires a <= b
    ensures |a| <= |b|
  {
    var rest := b - a;
    assert b == a + rest;
  }

  lemma UnionSize(a: set<nat>, b: set<nat>)
    ensures |a + b| <= |a| + |b|
  {
    assert a + b == a + (b - a);
    Smaller(b - a, b);
  }

  lemma NonZeroXor(a: Bytes, b: Bytes)
    requires |a| == |b|
    ensures NonZero(Xor(a, b)) <= NonZero(a) + NonZero(b)
    ensures |NonZero(Xor(a, b))| <= |NonZero(a)| + |NonZero(b)|
  {
    hide Add;
    AddZero();
    Smaller(NonZero(Xor(a, b)), NonZero(a) + NonZero(b));
    UnionSize(NonZero(a), NonZero(b));
  }

  lemma {:induction false} SpotsSize(m: seq<Entry>, i: nat, v: Byte, n: nat)
    requires ShapedMap(m) && i < CODEWORDS && n <= 8
    ensures |NonZero(SpotsUpTo(m, i, v, n))| <= n
    decreases n
  {
    hide Xor, BitOn;
    if n == 0 {
      assert NonZero(Zeros(RASTER)) == {};
    } else {
      SpotsSize(m, i, v, n - 1);
      var e := m[i * 8 + n - 1];
      var s := Spot(e, BitOn(v, n - 1));
      Smaller(NonZero(s), {e.offset});
      NonZeroXor(SpotsUpTo(m, i, v, n - 1), s);
    }
  }

  lemma {:induction false} ScatterSize(m: seq<Entry>, cw: Bytes, n: nat)
    requires ShapedMap(m) && |cw| == CODEWORDS && n <= CODEWORDS
    ensures |NonZero(ScatterUpTo(m, cw, n))| <= 8 * |NonZero(cw[..n])|
    decreases n
  {
    hide Xor, SpotsUpTo, ShapedMap, NonZero;
    NonZeroNone(RASTER);
    if n > 0 {
      ScatterSize(m, cw, n - 1);
      NonZeroXor(ScatterUpTo(m, cw, n - 1), Spots(m, n - 1, cw[n - 1]));
      NonZeroNext(cw, n);
      if cw[n - 1] == 0 {
        SpotsNone(m, n - 1);
      } else {
        SpotsSize(m, n - 1, cw[n - 1], 8);
      }
    }
  }

  lemma NonZeroNone(n: nat)
    ensures NonZero(Zeros(n)) == {}
  {}

  lemma NonZeroNext(s: Bytes, n: nat)
    requires 0 < n <= |s|
    ensures |NonZero(s[..n])| == |NonZero(s[..n - 1])| + if s[n - 1] == 0 then 0 else 1
  {
    var a, b := NonZero(s[..n - 1]), NonZero(s[..n]);
    if s[n - 1] == 0 {
      assert a == b;
    } else {
      assert b == a + {n - 1};
    }
  }

  function Multiples(base: nat, n: nat): set<nat> {
    set j | 0 <= j < n :: base + j * BLOCKS
  }

  lemma {:induction false} MultiplesSize(base: nat, n: nat)
    ensures |Multiples(base, n)| <= n
    decreases n
  {
    if n > 0 {
      MultiplesSize(base, n - 1);
      assert Multiples(base, n) == Multiples(base, n - 1) + {base + (n - 1) * BLOCKS};
    }
  }

  // Header differences live in the header bytes and check bytes of block zero:
  // at most 78 codewords.
  lemma HeaderDifference(t: seq<Bytes>, a: Bytes, b: Bytes)
    requires LinearTable(t) && |a| == |b| == HEADER
    ensures ShapedTable(t)
    ensures |NonZero(Xor(Codewords(t, HeaderData(a)), Codewords(t, HeaderData(b))))| <= 78
  {
    hide LinearTable, Xor, Codewords, HeaderData;
    TableShape(t);
    EncodeXor(t, HeaderData(a), HeaderData(b));
    var data := Xor(HeaderData(a), HeaderData(b));
    var d := Codewords(t, data);
    var room := Multiples(4 * BLOCKS, HEADER) + Multiples(DATA_CODEWORDS, ECC);
    forall i | i in NonZero(d) ensures i in room {
      DifferenceCell(t, a, b, i);
    }
    Smaller(NonZero(d), room);
    UnionSize(Multiples(4 * BLOCKS, HEADER), Multiples(DATA_CODEWORDS, ECC));
    MultiplesSize(4 * BLOCKS, HEADER);
    MultiplesSize(DATA_CODEWORDS, ECC);
  }

  lemma DifferenceCell(t: seq<Bytes>, a: Bytes, b: Bytes, i: nat)
    requires LinearTable(t) && |a| == |b| == HEADER && i < CODEWORDS
    requires ShapedTable(t) && Codewords(t, Xor(HeaderData(a), HeaderData(b)))[i] != 0
    ensures i in Multiples(4 * BLOCKS, HEADER) + Multiples(DATA_CODEWORDS, ECC)
  {
    hide LinearTable, EccOf, Add, Row, Block, Multiples;
    CellOfIndex(i);
    var c := CellAt(i);
    BlockXor(HeaderData(a), HeaderData(b), c.b);
    HeaderBlocks(a, c.b);
    HeaderBlocks(b, c.b);
    if c.b > 0 {
      XorSelf(Zeros(DataLen(c.b)));
      EccZeros(t, DataLen(c.b));
    } else {
      HeaderCellPlace(a, b, c);
    }
  }

  lemma HeaderCellPlace(a: Bytes, b: Bytes, c: Cell)
    requires |a| == |b| == HEADER && IsCell(c) && c.b == 0
    requires c.DataCell? ==> Xor(PREFIX + a + Zeros(66), PREFIX + b + Zeros(66))[c.j] != 0
    ensures IndexOf(c) in Multiples(4 * BLOCKS, HEADER) + Multiples(DATA_CODEWORDS, ECC)
  {
    AddSelf(0);
    AddSelf(0x70);
    AddSelf(0x34);
    AddSelf(0x0B);
    AddSelf(0x88);
    if c.DataCell? {
      assert 4 <= c.j < 52;
      assert IndexOf(c) == 4 * BLOCKS + (c.j - 4) * BLOCKS;
    } else {
      assert IndexOf(c) == DATA_CODEWORDS + c.j * BLOCKS;
    }
  }

  // Accumulate the difference by raster byte, then compact it once.
  method PreparePatches(m: seq<Entry>, zero: Bytes, correction: Bytes, scratch: array<Byte>)
    returns (ok: bool, patches: seq<Patch>)
    requires ShapedMap(m) && |zero| == |correction| == CODEWORDS && scratch.Length == RASTER
    modifies scratch
    ensures ok <==> |NonZero(Scatter(m, Xor(correction, zero)))| <= 1024
    ensures ok ==> patches == PatchesUpTo(Scatter(m, Xor(correction, zero)), RASTER)
    ensures ShapedPatches(patches)
  {
    hide Xor, Add, SpotsUpTo, ShapedMap, NonZero;
    ghost var d := Xor(correction, zero);
    for i := 0 to RASTER
      invariant forall k :: 0 <= k < i ==> scratch[k] == 0
    {
      scratch[i] := 0;
    }
    assert scratch[..] == Zeros(RASTER);
    for i := 0 to CODEWORDS
      invariant scratch[..] == ScatterUpTo(m, d, i)
    {
      var changed := Add(correction[i], zero[i]);
      XorAt(correction, zero, i);
      if changed == 0 {
        SpotsNone(m, i);
        XorZero(ScatterUpTo(m, d, i));
      } else {
        ToggleCodeword(m, i, changed, scratch);
      }
    }
    ghost var r := Scatter(m, d);
    patches := [];
    for i := 0 to RASTER
      invariant scratch[..] == r
      invariant patches == PatchesUpTo(r, i)
      invariant |patches| <= MAX_PATCHES
    {
      if scratch[i] != 0 {
        if |patches| >= MAX_PATCHES {
          TooMany(r, i);
          return false, patches;
        }
        patches := patches + [Patch(i, scratch[i])];
      }
    }
    PatchCount(r, RASTER);
    assert Prefix(r, RASTER) == r;
    ok := true;
  }

  lemma XorAt(a: Bytes, b: Bytes, i: nat)
    requires |a| == |b| && i < |a|
    ensures Xor(a, b)[i] == Add(a[i], b[i])
  {
    hide Add;
  }

  lemma TooMany(d: Bytes, n: nat)
    requires |d| == RASTER && n < RASTER && d[n] != 0 && |PatchesUpTo(d, n)| >= MAX_PATCHES
    ensures |NonZero(d)| > MAX_PATCHES
  {
    PatchCount(d, n + 1);
    Smaller(NonZero(Prefix(d, n + 1)), NonZero(d));
  }

  // The patch buffer is always large enough for a header correction.
  lemma PatchesFit(t: seq<Bytes>, m: seq<Entry>, header: Bytes, zero: Bytes)
    requires LinearTable(t) && ShapedMap(m) && |header| == |zero| == HEADER
    ensures ShapedTable(t)
    ensures |NonZero(Scatter(m, Xor(Codewords(t, HeaderData(header)), Codewords(t, HeaderData(zero)))))| <= MAX_PATCHES
  {
    hide LinearTable, Xor, Codewords, HeaderData, ScatterUpTo, ShapedMap, NonZero;
    HeaderDifference(t, header, zero);
    var d := Xor(Codewords(t, HeaderData(header)), Codewords(t, HeaderData(zero)));
    ScatterSize(m, d, CODEWORDS);
    assert d[..CODEWORDS] == d;
  }
}
