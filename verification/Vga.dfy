// platform_vga.c: four bit planes of 64 KB, eight slots of 8192 bytes each, of
// which 8000 are visible.

module Vga {
  import opened Gf2
  import opened Raster
  import opened Correction
  import opened Repair

  const SLOTS: nat := 8
  const PLANES: nat := 4
  const SLOT_BYTES: nat := 8192
  const PLANE_BYTES: nat := 65536

  // What a selection shows: the XOR of the enabled planes, as the odd-parity
  // palette displays it.
  function ComposeUpTo(planes: seq<Bytes>, mask: seq<bool>, n: nat): (r: Bytes)
    requires |planes| == |mask| == PLANES && n <= PLANES && forall p :: 0 <= p < PLANES ==> |planes[p]| == RASTER
    ensures |r| == RASTER
  {
    if n == 0 then Zeros(RASTER)
    else if mask[n - 1] then Xor(ComposeUpTo(planes, mask, n - 1), planes[n - 1])
    else ComposeUpTo(planes, mask, n - 1)
  }

  function Compose(planes: seq<Bytes>, mask: seq<bool>): (r: Bytes)
    requires |planes| == |mask| == PLANES && forall p :: 0 <= p < PLANES ==> |planes[p]| == RASTER
    ensures |r| == RASTER
  {
    ComposeUpTo(planes, mask, PLANES)
  }

  // Compositions depend on the enabled planes only.
  lemma {:induction false} ComposeSame(a: seq<Bytes>, b: seq<Bytes>, mask: seq<bool>, n: nat)
    requires |a| == |b| == |mask| == PLANES && n <= PLANES
    requires forall p :: 0 <= p < PLANES ==> |a[p]| == RASTER && |b[p]| == RASTER && (mask[p] ==> a[p] == b[p])
    ensures ComposeUpTo(a, mask, n) == ComposeUpTo(b, mask, n)
    decreases n
  {
    hide Xor;
    if n > 0 {
      ComposeSame(a, b, mask, n - 1);
    }
  }

  // ----- the QR rectangle of a partial upload

  datatype Rect = Rect(x: nat, y: nat, size: nat)

  predicate OnScreen(q: Rect) {
    q.x < 320 && q.y < 200 && q.size > 0 && q.x + q.size <= 320 && q.y + q.size <= 200
  }

  // Bytes intersecting the rectangle.
  predicate Inside(q: Rect, i: nat) {
    var row, col := i / 40, i % 40;
    q.y <= row < q.y + q.size && q.x / 8 <= col < (q.x + q.size + 7) / 8
  }

  predicate WhiteOutside(q: Rect, r: Bytes) {
    |r| == RASTER && forall i :: 0 <= i < RASTER && !Inside(q, i) ==> r[i] == 0xFF
  }

  // The rectangle's rows before `row`.
  predicate InsideRows(q: Rect, row: nat, i: nat) {
    Inside(q, i) && i / 40 < q.y + row
  }

  // Where row `row` of the rectangle lies in the raster.
  function RowStart(q: Rect, row: nat): (at: nat) {
    (q.y + row) * 40 + q.x / 8
  }

  function RowBytes(q: Rect): nat {
    (q.x + q.size + 7) / 8 - q.x / 8
  }

  lemma RowFits(q: Rect, row: nat)
    requires OnScreen(q) && row < q.size
    ensures RowStart(q, row) + RowBytes(q) <= RASTER
  {}

  lemma RowCovers(q: Rect, row: nat, i: nat)
    requires OnScreen(q) && row < q.size && i < RASTER
    ensures RowStart(q, row) <= i < RowStart(q, row) + RowBytes(q) <==> Inside(q, i) && i / 40 == q.y + row
  {
    assert i == i / 40 * 40 + i % 40;
  }

  // A rectangle upload over `before`.
  function Upload(q: Rect, before: Bytes, r: Bytes): (s: Bytes)
    requires |before| == |r| == RASTER
    ensures |s| == RASTER
  {
    seq(RASTER, i requires 0 <= i < RASTER => if Inside(q, i) then r[i] else before[i])
  }

  // Where both are white outside the rectangle, a partial upload leaves the
  // whole plane equal to the raster.
  lemma PartialIsFull(q: Rect, before: Bytes, r: Bytes)
    requires WhiteOutside(q, before) && WhiteOutside(q, r)
    ensures Upload(q, before, r) == r
  {
    hide Inside;
  }

  // memcpy of `data` to offset `at` of a plane.
  function Copied(r: Bytes, at: nat, data: Bytes): (s: Bytes)
    requires at + |data| <= |r|
    ensures |s| == |r|
    ensures forall i :: 0 <= i < |r| ==> s[i] == if at <= i < at + |data| then data[i - at] else r[i]
  {
    r[..at] + data + r[at + |data|..]
  }

  // XOR of the patches, and of the zero raster first when it is included.
  function Corrected(r: Bytes, zero: Option<Bytes>, patches: seq<Patch>): (s: Bytes)
    requires |r| == RASTER && ShapedPatches(patches) && (zero.Some? ==> |zero.value| == RASTER)
    ensures |s| == RASTER
  {
    Applied(patches, if zero.Some? then Xor(r, zero.value) else r)
  }

  // Restoring is applying again.
  lemma CorrectedTwice(r: Bytes, zero: Option<Bytes>, d: Bytes)
    requires |r| == |d| == RASTER && (zero.Some? ==> |zero.value| == RASTER)
    ensures var p := PatchesUpTo(d, RASTER);
            ShapedPatches(p) && Corrected(Corrected(r, zero, p), zero, p) == r
  {
    hide Xor, Applied, PatchesUpTo;
    var p := PatchesUpTo(d, RASTER);
    var base := if zero.Some? then Xor(r, zero.value) else r;
    AppliedIsXor(d, base);
    var once := Xor(base, d);
    var again := if zero.Some? then Xor(once, zero.value) else once;
    AppliedIsXor(d, again);
    if zero.Some? {
      var z := zero.value;
      XorAssoc(base, d, z);
      XorComm(d, z);
      XorAssoc(base, z, d);
      XorCancel(r, z);
    }
    XorCancel(r, d);
  }

  class Vga {
    const memory: array2<Byte>
    var slot: nat
    var mask: seq<bool>

    ghost predicate Valid()
      reads this
    {
      memory.Length0 == PLANES && memory.Length1 == PLANE_BYTES && slot < SLOTS && |mask| == PLANES
    }

    function Plane(s: nat, p: nat): (r: Bytes)
      requires memory.Length0 == PLANES && memory.Length1 == PLANE_BYTES && p < PLANES && s < SLOTS
      reads memory
      ensures |r| == RASTER
    {
      seq(RASTER, i requires 0 <= i < RASTER reads memory => memory[p, s * SLOT_BYTES + i])
    }

    function Slot(s: nat): (r: seq<Bytes>)
      requires memory.Length0 == PLANES && memory.Length1 == PLANE_BYTES && s < SLOTS
      reads memory
      ensures |r| == PLANES && forall p :: 0 <= p < PLANES ==> r[p] == Plane(s, p)
    {
      seq(PLANES, p requires 0 <= p < PLANES reads memory => Plane(s, p))
    }

    function Slots(): (r: seq<seq<Bytes>>)
      requires memory.Length0 == PLANES && memory.Length1 == PLANE_BYTES
      reads memory
      ensures |r| == SLOTS && forall s :: 0 <= s < SLOTS ==> r[s] == Slot(s)
    {
      seq(SLOTS, s requires 0 <= s < SLOTS reads memory => Slot(s))
    }

    // What the screen shows.
    function Visible(): (r: Bytes)
      requires Valid()
      reads this, memory
      ensures |r| == RASTER
    {
      Compose(Slot(slot), mask)
    }

    // Every slot starts white in every plane, and no plane is enabled.
    constructor ()
      ensures Valid() && fresh(memory)
      ensures forall s, p :: 0 <= s < SLOTS && 0 <= p < PLANES ==> Plane(s, p) == seq(RASTER, _ => 0xFF)
      ensures slot == 0 && mask == [false, false, false, false]
    {
      memory := new Byte[PLANES, PLANE_BYTES]((_, _) => 0xFF);
      slot, mask := 0, [false, false, false, false];
    }

    // memcpy to one plane of one slot.
    method Copy(p: nat, s: nat, at: nat, data: Bytes)
      requires Valid() && p < PLANES && s < SLOTS && at + |data| <= RASTER
      modifies memory
      ensures Plane(s, p) == Copied(old(Plane(s, p)), at, data)
      ensures forall s', p' :: 0 <= s' < SLOTS && 0 <= p' < PLANES && (p' != p || s' != s) ==>
                                 Plane(s', p') == old(Plane(s', p'))
    {
      var base := s * SLOT_BYTES + at;
      for i := 0 to |data|
        invariant forall k :: 0 <= k < i ==> memory[p, base + k] == data[k]
        invariant forall p', a :: 0 <= p' < PLANES && 0 <= a < PLANE_BYTES && (p' != p || a < base || a >= base + i) ==>
                                    memory[p', a] == old(memory[p', a])
      {
        memory[p, base + i] := data[i];
      }
      assert forall k :: 0 <= k < |data| ==> Plane(s, p)[at + k] == data[k];
    }

    // vga32_store_fast.
    method StoreFast(p: nat, s: nat, raster: Bytes) returns (ok: bool)
      requires Valid() && |raster| == RASTER
      modifies memory
      ensures ok <==> p < PLANES && s < SLOTS
      ensures ok ==> Plane(s, p) == raster
      ensures forall s', p' :: 0 <= s' < SLOTS && 0 <= p' < PLANES && (p' != p || s' != s) ==>
                                 Plane(s', p') == old(Plane(s', p'))
    {
      if p >= PLANES || s >= SLOTS { return false; }
      Copy(p, s, 0, raster);
      ok := true;
    }

    // vga32_store_qr.
    method StoreQr(p: nat, s: nat, raster: Bytes, q: Rect) returns (ok: bool)
      requires Valid() && |raster| == RASTER
      modifies memory
      ensures ok <==> p < PLANES && s < SLOTS && OnScreen(q)
      ensures ok ==> Plane(s, p) == Upload(q, old(Plane(s, p)), raster)
      ensures forall s', p' :: 0 <= s' < SLOTS && 0 <= p' < PLANES && (!ok || p' != p || s' != s) ==>
                                 Plane(s', p') == old(Plane(s', p'))
    {
      if p >= PLANES || s >= SLOTS || !OnScreen(q) { return false; }
      hide Inside, RowStart, RowBytes;
      ghost var before := Plane(s, p);
      for row := 0 to q.size
        invariant forall i :: 0 <= i < RASTER ==> Plane(s, p)[i] == if InsideRows(q, row, i) then raster[i] else before[i]
        invariant forall s', p' :: 0 <= s' < SLOTS && 0 <= p' < PLANES && (p' != p || s' != s) ==>
                                     Plane(s', p') == old(Plane(s', p'))
      {
        RowFits(q, row);
        var at := RowStart(q, row);
        ghost var was := Plane(s, p);
        Copy(p, s, at, raster[at..at + RowBytes(q)]);
        RowUploaded(q, row, before, raster, was, Plane(s, p));
      }
      ok := true;
      UploadDone(q, before, raster, Plane(s, p));
    }

    // vga_xor_bulk.
    method XorBulk(p: nat, s: nat, delta: Bytes)
      requires Valid() && p < PLANES && s < SLOTS && |delta| == RASTER
      modifies memory
      ensures Plane(s, p) == Xor(old(Plane(s, p)), delta)
      ensures forall s', p' :: 0 <= s' < SLOTS && 0 <= p' < PLANES && (p' != p || s' != s) ==>
                                 Plane(s', p') == old(Plane(s', p'))
    {
      hide Add;
      var base := s * SLOT_BYTES;
      for i := 0 to RASTER
        invariant forall k :: 0 <= k < i ==> memory[p, base + k] == Add(old(memory[p, base + k]), delta[k])
        invariant forall p', a :: 0 <= p' < PLANES && 0 <= a < PLANE_BYTES && (p' != p || a < base || a >= base + i) ==>
                                    memory[p', a] == old(memory[p', a])
      {
        memory[p, base + i] := Add(memory[p, base + i], delta[i]);
      }
    }

    // One patch.
    method XorByte(p: nat, s: nat, patch: Patch)
      requires Valid() && p < PLANES && s < SLOTS && patch.offset < RASTER
      modifies memory
      ensures Plane(s, p) == old(Plane(s, p))[patch.offset := Add(old(Plane(s, p))[patch.offset], patch.value)]
      ensures forall s', p' :: 0 <= s' < SLOTS && 0 <= p' < PLANES && (p' != p || s' != s) ==>
                                 Plane(s', p') == old(Plane(s', p'))
    {
      hide Add;
      var a := s * SLOT_BYTES + patch.offset;
      memory[p, a] := Add(memory[p, a], patch.value);
    }

    // vga32_apply_correction and vga32_restore_correction: the same XORs.
    method Correct(p: nat, s: nat, zero: Option<Bytes>, patches: seq<Patch>) returns (ok: bool)
      requires Valid() && ShapedPatches(patches) && (zero.Some? ==> |zero.value| == RASTER)
      modifies memory
      ensures ok <==> p < PLANES && s < SLOTS && |patches| <= MAX_PATCHES
      ensures ok ==> Plane(s, p) == Corrected(old(Plane(s, p)), zero, patches)
      ensures forall s', p' :: 0 <= s' < SLOTS && 0 <= p' < PLANES && (!ok || p' != p || s' != s) ==>
                                 Plane(s', p') == old(Plane(s', p'))
    {
      if p >= PLANES || s >= SLOTS || |patches| > MAX_PATCHES { return false; }
      hide Add, Xor;
      if zero.Some? {
        XorBulk(p, s, zero.value);
      }
      ghost var base := Plane(s, p);
      assert patches[..0] == [];
      for i := 0 to |patches|
        invariant ShapedPatches(patches[..i]) && Plane(s, p) == Applied(patches[..i], base)
        invariant forall s', p' :: 0 <= s' < SLOTS && 0 <= p' < PLANES && (p' != p || s' != s) ==>
                                     Plane(s', p') == old(Plane(s', p'))
      {
        XorByte(p, s, patches[i]);
        AppliedNext(patches, i, base);
      }
      assert patches[..|patches|] == patches;
      ok := true;
    }

    // vga32_show_raw.
    method Show(s: nat, planes: seq<bool>) returns (ok: bool)
      requires Valid() && |planes| == PLANES
      modifies this
      ensures Valid()
      ensures ok <==> s < SLOTS && planes != [false, false, false, false]
      ensures ok ==> slot == s && mask == planes
      ensures !ok ==> slot == old(slot) && mask == old(mask)
    {
      if s >= SLOTS || planes == [false, false, false, false] { return false; }
      slot, mask := s, planes;
      ok := true;
    }
  }

  lemma RowUploaded(q: Rect, row: nat, before: Bytes, raster: Bytes, was: Bytes, now: Bytes)
    requires OnScreen(q) && row < q.size && |before| == |raster| == |was| == RASTER
    requires RowStart(q, row) + RowBytes(q) <= RASTER
    requires now == Copied(was, RowStart(q, row), raster[RowStart(q, row)..RowStart(q, row) + RowBytes(q)])
    requires forall i :: 0 <= i < RASTER ==> was[i] == if InsideRows(q, row, i) then raster[i] else before[i]
    ensures forall i :: 0 <= i < RASTER ==> now[i] == if InsideRows(q, row + 1, i) then raster[i] else before[i]
  {
    hide Inside, RowStart, RowBytes, Copied;
    forall i | 0 <= i < RASTER ensures now[i] == if InsideRows(q, row + 1, i) then raster[i] else before[i] {
      RowCovers(q, row, i);
    }
  }

  lemma UploadDone(q: Rect, before: Bytes, raster: Bytes, now: Bytes)
    requires OnScreen(q) && |before| == |raster| == |now| == RASTER
    requires forall i :: 0 <= i < RASTER ==> now[i] == if InsideRows(q, q.size, i) then raster[i] else before[i]
    ensures now == Upload(q, before, raster)
  {}

  lemma AppliedNext(p: seq<Patch>, i: nat, r: Bytes)
    requires ShapedPatches(p) && i < |p| && |r| == RASTER
    ensures ShapedPatches(p[..i]) && ShapedPatches(p[..i + 1])
    ensures var s := Applied(p[..i], r);
            Applied(p[..i + 1], r) == s[p[i].offset := Add(s[p[i].offset], p[i].value)]
  {
    hide Add;
    assert p[..i + 1][..i] == p[..i];
  }
}
