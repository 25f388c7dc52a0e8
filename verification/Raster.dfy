// From codewords to the 8000-byte mode 0Dh raster: every codeword bit toggles
// one pixel, so the raster is a fixed template XOR a linear scatter.

module Raster {
  import opened Gf2
  import opened V40L

  const RASTER: nat := 8000

  // Where a codeword bit lands: a raster byte and a pixel mask.
  datatype Entry = Entry(offset: nat, mask: Byte)

  predicate ShapedMap(map32: seq<Entry>) {
    |map32| == 8 * CODEWORDS && forall i :: 0 <= i < |map32| ==> map32[i].offset < RASTER
  }

  // Bit k of a codeword, most significant first.
  predicate BitOn(v: Byte, k: nat)
    requires k < 8
  {
    v & (0x80 >> k) != 0
  }

  function Spot(e: Entry, on: bool): (r: Bytes)
    requires e.offset < RASTER
    ensures |r| == RASTER
  {
    if on then Zeros(RASTER)[e.offset := e.mask] else Zeros(RASTER)
  }

  // The pixels toggled by the first n bits of a codeword.
  function SpotsUpTo(m: seq<Entry>, i: nat, v: Byte, n: nat): (r: Bytes)
    requires ShapedMap(m) && i < CODEWORDS && n <= 8
    ensures |r| == RASTER
  {
    if n == 0 then Zeros(RASTER)
    else Xor(SpotsUpTo(m, i, v, n - 1), Spot(m[i * 8 + n - 1], BitOn(v, n - 1)))
  }

  function Spots(m: seq<Entry>, i: nat, v: Byte): (r: Bytes)
    requires ShapedMap(m) && i < CODEWORDS
    ensures |r| == RASTER
  {
    SpotsUpTo(m, i, v, 8)
  }

  function ScatterUpTo(m: seq<Entry>, cw: Bytes, n: nat): (r: Bytes)
    requires ShapedMap(m) && |cw| == CODEWORDS && n <= CODEWORDS
    ensures |r| == RASTER
  {
    if n == 0 then Zeros(RASTER) else Xor(ScatterUpTo(m, cw, n - 1), Spots(m, n - 1, cw[n - 1]))
  }

  function Scatter(m: seq<Entry>, cw: Bytes): (r: Bytes)
    requires ShapedMap(m) && |cw| == CODEWORDS
    ensures |r| == RASTER
  {
    ScatterUpTo(m, cw, CODEWORDS)
  }

  // The raster of a symbol with the given function-module template.
  function Canonical(template: Bytes, m: seq<Entry>, cw: Bytes): (r: Bytes)
    requires |template| == RASTER && ShapedMap(m) && |cw| == CODEWORDS
    ensures |r| == RASTER
  {
    Xor(template, Scatter(m, cw))
  }

  // ----- the scatter is linear

  lemma BitOnAdd(a: Byte, b: Byte, k: nat)
    requires k < 8
    ensures BitOn(Add(a, b), k) == (BitOn(a, k) != BitOn(b, k))
  {
    if k == 0 { Bit7(a, b); } else if k == 1 { Bit6(a, b); } else if k == 2 { Bit5(a, b); }
    else if k == 3 { Bit4(a, b); } else if k == 4 { Bit3(a, b); } else if k == 5 { Bit2(a, b); }
    else if k == 6 { Bit1(a, b); } else { Bit0(a, b); }
  }

  lemma Bit7(a: Byte, b: Byte) ensures BitOn(Add(a, b), 0) == (BitOn(a, 0) != BitOn(b, 0)) {}
  lemma Bit6(a: Byte, b: Byte) ensures BitOn(Add(a, b), 1) == (BitOn(a, 1) != BitOn(b, 1)) {}
  lemma Bit5(a: Byte, b: Byte) ensures BitOn(Add(a, b), 2) == (BitOn(a, 2) != BitOn(b, 2)) {}
  lemma Bit4(a: Byte, b: Byte) ensures BitOn(Add(a, b), 3) == (BitOn(a, 3) != BitOn(b, 3)) {}
  lemma Bit3(a: Byte, b: Byte) ensures BitOn(Add(a, b), 4) == (BitOn(a, 4) != BitOn(b, 4)) {}
  lemma Bit2(a: Byte, b: Byte) ensures BitOn(Add(a, b), 5) == (BitOn(a, 5) != BitOn(b, 5)) {}
  lemma Bit1(a: Byte, b: Byte) ensures BitOn(Add(a, b), 6) == (BitOn(a, 6) != BitOn(b, 6)) {}
  lemma Bit0(a: Byte, b: Byte) ensures BitOn(Add(a, b), 7) == (BitOn(a, 7) != BitOn(b, 7)) {}

  lemma SpotXor(e: Entry, a: bool, b: bool)
    requires e.offset < RASTER
    ensures Spot(e, a != b) == Xor(Spot(e, a), Spot(e, b))
  {
    hide Xor;
    var z, s := Zeros(RASTER), Spot(e, true);
    XorZero(s);
    XorZero(z);
    XorComm(z, s);
    XorSelf(s);
  }

  lemma {:induction false} SpotsXor(m: seq<Entry>, i: nat, a: Byte, b: Byte, n: nat)
    requires ShapedMap(m) && i < CODEWORDS && n <= 8
    ensures SpotsUpTo(m, i, Add(a, b), n) == Xor(SpotsUpTo(m, i, a, n), SpotsUpTo(m, i, b, n))
    decreases n
  {
    hide Xor, Add, BitOn, Spot;
    if n == 0 {
      XorZero(Zeros(RASTER));
    } else {
      SpotsXor(m, i, a, b, n - 1);
      BitOnAdd(a, b, n - 1);
      var e := m[i * 8 + n - 1];
      SpotXor(e, BitOn(a, n - 1), BitOn(b, n - 1));
      XorCross(SpotsUpTo(m, i, a, n - 1), SpotsUpTo(m, i, b, n - 1), Spot(e, BitOn(a, n - 1)), Spot(e, BitOn(b, n - 1)));
    }
  }

  lemma {:induction false} ScatterXorUpTo(m: seq<Entry>, a: Bytes, b: Bytes, n: nat)
    requires ShapedMap(m) && |a| == |b| == CODEWORDS && n <= CODEWORDS
    ensures ScatterUpTo(m, Xor(a, b), n) == Xor(ScatterUpTo(m, a, n), ScatterUpTo(m, b, n))
    decreases n
  {
    hide Add, SpotsUpTo, ShapedMap;
    if n == 0 {
      XorZero(Zeros(RASTER));
    } else {
      ScatterXorUpTo(m, a, b, n - 1);
      SpotsXor(m, n - 1, a[n - 1], b[n - 1], 8);
      XorCross(ScatterUpTo(m, a, n - 1), ScatterUpTo(m, b, n - 1), Spots(m, n - 1, a[n - 1]), Spots(m, n - 1, b[n - 1]));
    }
  }

  lemma ScatterXor(m: seq<Entry>, a: Bytes, b: Bytes)
    requires ShapedMap(m) && |a| == |b| == CODEWORDS
    ensures Scatter(m, Xor(a, b)) == Xor(Scatter(m, a), Scatter(m, b))
  {
    hide Xor, ScatterUpTo;
    ScatterXorUpTo(m, a, b, CODEWORDS);
  }

  // Changing one codeword toggles exactly the spots of the changed bits.
  lemma {:induction false} ScatterUpdate(m: seq<Entry>, cw: Bytes, i: nat, v: Byte, n: nat)
    requires ShapedMap(m) && |cw| == CODEWORDS && i < n <= CODEWORDS
    ensures ScatterUpTo(m, cw[i := v], n) == Xor(ScatterUpTo(m, cw, n), Spots(m, i, Add(v, cw[i])))
    decreases n
  {
    hide Xor, Add, SpotsUpTo, ShapedMap;
    var after := cw[i := v];
    if i == n - 1 {
      ScatterSame(m, cw, after, n - 1);
      SpotsXor(m, i, v, cw[i], 8);
      var s, x, y := ScatterUpTo(m, cw, n - 1), Spots(m, i, v), Spots(m, i, cw[i]);
      XorComm(x, y);
      XorAssoc(s, y, Xor(y, x));
      XorAssoc(y, y, x);
      XorSelf(y);
      XorComm(Zeros(RASTER), x);
      XorZero(x);
    } else {
      ScatterUpdate(m, cw, i, v, n - 1);
      var s, x, y := ScatterUpTo(m, cw, n - 1), Spots(m, i, Add(v, cw[i])), Spots(m, n - 1, cw[n - 1]);
      XorAssoc(s, x, y);
      XorComm(x, y);
      XorAssoc(s, y, x);
    }
  }

  lemma {:induction false} ScatterSame(m: seq<Entry>, a: Bytes, b: Bytes, n: nat)
    requires ShapedMap(m) && |a| == |b| == CODEWORDS && n <= CODEWORDS && a[..n] == b[..n]
    ensures ScatterUpTo(m, a, n) == ScatterUpTo(m, b, n)
    decreases n
  {
    hide Xor, SpotsUpTo, ShapedMap;
    if n > 0 {
      assert a[n - 1] == a[..n][n - 1] == b[..n][n - 1] == b[n - 1];
      assert a[..n - 1] == a[..n][..n - 1] && b[..n - 1] == b[..n][..n - 1];
      ScatterSame(m, a, b, n - 1);
    }
  }

  // ----- delta rendering (qr_delta_range)

  // Toggle the pixels of the changed bits of codeword i.
  method ToggleCodeword(m: seq<Entry>, i: nat, changed: Byte, raster: array<Byte>)
    requires ShapedMap(m) && i < CODEWORDS && raster.Length == RASTER
    modifies raster
    ensures raster[..] == Xor(old(raster[..]), Spots(m, i, changed))
  {
    hide Xor, Add, BitOn, Spot, ShapedMap;
    ghost var start := raster[..];
    XorZero(start);
    for bit := 0 to 8
      invariant raster[..] == Xor(start, SpotsUpTo(m, i, changed, bit))
    {
      EntryBound(m, i * 8 + bit);
      var e := m[i * 8 + bit];
      ghost var spots := SpotsUpTo(m, i, changed, bit);
      ghost var before := raster[..];
      if BitOn(changed, bit) {
        raster[e.offset] := Add(raster[e.offset], e.mask);
      }
      assert raster[..] == if BitOn(changed, bit) then before[e.offset := Add(before[e.offset], e.mask)] else before;
      SpotToggles(before, e, BitOn(changed, bit));
      XorAssoc(start, spots, Spot(e, BitOn(changed, bit)));
    }
  }

  lemma EntryBound(m: seq<Entry>, k: nat)
    requires ShapedMap(m)
    ensures |m| == 8 * CODEWORDS && (k < |m| ==> m[k].offset < RASTER)
  {}

  lemma SpotToggles(r: Bytes, e: Entry, on: bool)
    requires |r| == RASTER && e.offset < RASTER
    ensures Xor(r, Spot(e, on)) == if on then r[e.offset := Add(r[e.offset], e.mask)] else r
  {
    hide Add;
    AddZero();
    var l := Xor(r, Spot(e, on));
    assert forall k :: 0 <= k < RASTER ==> l[k] == if on && k == e.offset then Add(r[k], e.mask) else r[k];
  }

  // Bring one codeword of `previous` up to date, toggling its modules.
  method DeltaOne(m: seq<Entry>, codewords: Bytes, previous: array<Byte>, raster: array<Byte>, i: nat)
    requires ShapedMap(m) && |codewords| == previous.Length == CODEWORDS && raster.Length == RASTER
    requires previous != raster && i < CODEWORDS
    modifies previous, raster
    ensures previous[..] == old(previous[..])[i := codewords[i]]
    ensures raster[..] == Xor(old(raster[..]), Spots(m, i, Add(codewords[i], old(previous[i]))))
  {
    hide Xor, Add, ScatterUpTo, ShapedMap, SpotsUpTo;
    var changed := Add(codewords[i], previous[i]);
    previous[i] := codewords[i];
    if changed != 0 {
      ToggleCodeword(m, i, changed, raster);
    } else {
      SpotsNone(m, i);
      XorZero(raster[..]);
    }
  }

  // Bring codewords start..start+count of `previous` up to date, toggling the
  // raster along.
  method DeltaRange(m: seq<Entry>, codewords: Bytes, previous: array<Byte>, raster: array<Byte>, start: nat, count: nat)
    requires ShapedMap(m) && |codewords| == previous.Length == CODEWORDS && raster.Length == RASTER
    requires previous != raster
    modifies previous, raster
    ensures var first := if start < CODEWORDS then start else CODEWORDS;
            var last := if count <= CODEWORDS - first then first + count else CODEWORDS;
            previous[..] == old(previous[..])[..first] + codewords[first..last] + old(previous[..])[last..]
    ensures raster[..] == Xor(old(raster[..]), Scatter(m, Xor(old(previous[..]), previous[..])))
  {
    hide Xor, Add, ScatterUpTo, ShapedMap, SpotsUpTo;
    ghost var before, was := previous[..], raster[..];
    XorSelf(before);
    ScatterZero(m);
    XorZero(was);
    if start >= CODEWORDS || count == 0 {
      return;
    }
    var end := if count > CODEWORDS - start then CODEWORDS else start + count;
    var i := start;
    while i < end
      invariant start <= i <= end
      invariant previous[..] == before[..start] + codewords[start..i] + before[i..]
      invariant raster[..] == Xor(was, Scatter(m, Xor(before, previous[..])))
    {
      ghost var p := previous[..];
      DeltaOne(m, codewords, previous, raster, i);
      DeltaStep(m, was, before, p, i, codewords[i]);
      i := i + 1;
    }
  }

  lemma SpotsNone(m: seq<Entry>, i: nat)
    requires ShapedMap(m) && i < CODEWORDS
    ensures Spots(m, i, 0) == Zeros(RASTER)
  {
    hide Xor, Add, ShapedMap, SpotsUpTo;
    AddSelf(0);
    SpotsXor(m, i, 0, 0, 8);
    XorSelf(Spots(m, i, 0));
  }

  lemma ScatterZero(m: seq<Entry>)
    requires ShapedMap(m)
    ensures Scatter(m, Zeros(CODEWORDS)) == Zeros(RASTER)
  {
    hide Xor, ScatterUpTo, ShapedMap;
    var z := Zeros(CODEWORDS);
    XorSelf(z);
    ScatterXor(m, z, z);
    XorSelf(Scatter(m, z));
  }

  lemma DeltaStep(m: seq<Entry>, was: Bytes, before: Bytes, p: Bytes, i: nat, v: Byte)
    requires ShapedMap(m) && |was| == RASTER && |before| == |p| == CODEWORDS && i < CODEWORDS
    ensures Xor(was, Scatter(m, Xor(before, p[i := v])))
         == Xor(Xor(was, Scatter(m, Xor(before, p))), Spots(m, i, Add(v, p[i])))
  {
    hide Xor, Add, ScatterUpTo, ShapedMap, SpotsUpTo;
    ScatterXor(m, before, p);
    ScatterXor(m, before, p[i := v]);
    ScatterUpdate(m, p, i, v, CODEWORDS);
    var b, s, x := Scatter(m, before), Scatter(m, p), Spots(m, i, Add(v, p[i]));
    XorAssoc(b, s, x);
    XorAssoc(was, Xor(b, s), x);
  }

  // The invariant of delta rendering: the raster is the canonical raster of the
  // codewords it was last brought up to.
  lemma DeltaKeepsCanonical(template: Bytes, m: seq<Entry>, before: Bytes, after: Bytes)
    requires |template| == RASTER && ShapedMap(m) && |before| == |after| == CODEWORDS
    ensures Xor(Canonical(template, m, before), Scatter(m, Xor(before, after))) == Canonical(template, m, after)
  {
    hide Xor, ScatterUpTo, ShapedMap;
    ScatterXor(m, before, after);
    var b, a := Scatter(m, before), Scatter(m, after);
    XorAssoc(template, b, Xor(b, a));
    XorAssoc(b, b, a);
    XorSelf(b);
    XorComm(Zeros(RASTER), a);
    XorZero(a);
  }
}
