// vga.c: a difference render that never builds the codeword stream.  The
// nested loops emit data columns, the long blocks' extra bytes and the error
// correction columns in final order, bringing the codewords on screen and the
// raster up to date one by one.

module Emission {
  import opened Gf2
  import opened V40L
  import opened Raster

  const OFFSETS: seq<nat> :=
    [0, 118, 236, 354, 472, 590, 708, 826, 944, 1062,
     1180, 1298, 1416, 1534, 1652, 1770, 1888, 2006, 2124,
     2242, 2361, 2480, 2599, 2718, 2837]

  lemma OffsetsAre(b: nat)
    requires b < BLOCKS
    ensures OFFSETS[b] == DataOff(b)
  {}

  // The byte of a cell, from the data and the block-major error correction.
  function CellValue(data: Bytes, ecc: Bytes, c: Cell): Byte
    requires |data| == DATA_CODEWORDS && |ecc| == BLOCKS * ECC && IsCell(c)
  {
    OffBound(c.b);
    if c.DataCell? then data[DataOff(c.b) + c.j] else ecc[c.b * ECC + c.j]
  }

  function Interleaved(data: Bytes, ecc: Bytes): (r: Bytes)
    requires |data| == DATA_CODEWORDS && |ecc| == BLOCKS * ECC
    ensures |r| == CODEWORDS
  {
    seq(CODEWORDS, i requires 0 <= i < CODEWORDS => CellOfIndex(i); CellValue(data, ecc, CellAt(i)))
  }

  // With the encoder's error correction the stream is the encoding.
  lemma InterleavedIsEncoding(t: seq<Bytes>, data: Bytes, ecc: Bytes)
    requires ShapedTable(t) && |data| == DATA_CODEWORDS && |ecc| == BLOCKS * ECC
    requires forall b :: 0 <= b < BLOCKS ==> ecc[b * ECC..b * ECC + ECC] == EccOf(t, Block(data, b))
    ensures Interleaved(data, ecc) == Codewords(t, data)
  {
    hide CellAt, IsCell, EccOf, ShapedTable;
    forall i | 0 <= i < CODEWORDS ensures Interleaved(data, ecc)[i] == Codewords(t, data)[i] {
      CellOfIndex(i);
      CellIs(t, data, ecc, CellAt(i));
    }
  }

  lemma CellIs(t: seq<Bytes>, data: Bytes, ecc: Bytes, c: Cell)
    requires ShapedTable(t) && |data| == DATA_CODEWORDS && |ecc| == BLOCKS * ECC && IsCell(c)
    requires forall b :: 0 <= b < BLOCKS ==> ecc[b * ECC..b * ECC + ECC] == EccOf(t, Block(data, b))
    ensures CellValue(data, ecc, c) == ValueAt(t, data, c)
  {
    hide EccOf, ShapedTable;
    OffBound(c.b);
    if c.EccCell? {
      assert ecc[c.b * ECC..c.b * ECC + ECC][c.j] == ecc[c.b * ECC + c.j];
    }
  }

  // How far the emission is: the first `cw` codewords are new, and the raster
  // follows.
  ghost predicate Emitted(m: seq<Entry>, stream: Bytes, before: Bytes, was: Bytes, current: array<Byte>, raster: array<Byte>, cw: nat)
    reads current, raster
  {
    && ShapedMap(m) && |stream| == |before| == current.Length == CODEWORDS && |was| == raster.Length == RASTER
    && current != raster && cw <= CODEWORDS
    && current[..] == stream[..cw] + before[cw..]
    && raster[..] == Xor(was, Scatter(m, Xor(before, current[..])))
  }

  // EMIT_VALUE.
  method Emit(m: seq<Entry>, ghost stream: Bytes, ghost before: Bytes, ghost was: Bytes,
              current: array<Byte>, raster: array<Byte>, cw: nat, value: Byte)
    requires Emitted(m, stream, before, was, current, raster, cw) && cw < CODEWORDS && value == stream[cw]
    modifies current, raster
    ensures Emitted(m, stream, before, was, current, raster, cw + 1)
  {
    hide ShapedMap, Xor, Scatter, Add, Spots;
    ghost var p := current[..];
    DeltaOne(m, current[..][cw := value], current, raster, cw);
    DeltaStep(m, was, before, p, cw, value);
    assert p[cw := value] == stream[..cw + 1] + before[cw + 1..];
  }

  lemma StreamAt(data: Bytes, ecc: Bytes, c: Cell, i: nat)
    requires |data| == DATA_CODEWORDS && |ecc| == BLOCKS * ECC && IsCell(c) && i == IndexOf(c)
    ensures i < CODEWORDS && Interleaved(data, ecc)[i] == CellValue(data, ecc, c)
  {
    hide CellValue, CellAt;
    IndexOfCell(c);
  }

  // vga_apply_v40l_delta.
  method ApplyDelta(m: seq<Entry>, data: Bytes, ecc: Bytes, current: array<Byte>, raster: array<Byte>) returns (ok: bool)
    requires ShapedMap(m) && |data| == DATA_CODEWORDS && |ecc| == BLOCKS * ECC
    requires current.Length == CODEWORDS && raster.Length == RASTER && current != raster
    modifies current, raster
    ensures ok && current[..] == Interleaved(data, ecc)
    ensures raster[..] == Xor(old(raster[..]), Scatter(m, Xor(old(current[..]), Interleaved(data, ecc))))
  {
    hide ShapedMap, Emitted, Interleaved, CellValue, Xor, Scatter;
    ghost var stream, before, was := Interleaved(data, ecc), current[..], raster[..];
    NothingEmitted(m, stream, current, raster);
    var cw := 0;
    for row := 0 to 118
      invariant cw == row * 25 && Emitted(m, stream, before, was, current, raster, cw)
    {
      for block := 0 to 25
        invariant cw == row * 25 + block && Emitted(m, stream, before, was, current, raster, cw)
      {
        DataAt(data, ecc, block, row);
        Emit(m, stream, before, was, current, raster, cw, data[OFFSETS[block] + row]);
        cw := cw + 1;
      }
    }
    for block := 19 to 25
      invariant cw == 2950 + block - 19 && Emitted(m, stream, before, was, current, raster, cw)
    {
      DataAt(data, ecc, block, 118);
      Emit(m, stream, before, was, current, raster, cw, data[OFFSETS[block] + 118]);
      cw := cw + 1;
    }
    for row := 0 to 30
      invariant cw == 2956 + row * 25 && Emitted(m, stream, before, was, current, raster, cw)
    {
      for block := 0 to 25
        invariant cw == 2956 + row * 25 + block && Emitted(m, stream, before, was, current, raster, cw)
      {
        EccAt(data, ecc, block, row);
        Emit(m, stream, before, was, current, raster, cw, ecc[block * 30 + row]);
        cw := cw + 1;
      }
    }
    AllEmitted(m, stream, before, was, current, raster);
    ok := cw == CODEWORDS;
  }

  lemma DataAt(data: Bytes, ecc: Bytes, block: nat, row: nat)
    requires |data| == DATA_CODEWORDS && |ecc| == BLOCKS * ECC && block < 25 && (row < 118 || (row == 118 && block >= 19))
    ensures OFFSETS[block] + row < DATA_CODEWORDS
    ensures var i := if row < 118 then row * 25 + block else 2950 + block - 19;
            i < CODEWORDS && Interleaved(data, ecc)[i] == data[OFFSETS[block] + row]
  {
    hide Interleaved;
    OffsetsAre(block);
    OffBound(block);
    var c := DataCell(block, row);
    assert IsCell(c);
    StreamAt(data, ecc, c, IndexOf(c));
  }

  lemma EccAt(data: Bytes, ecc: Bytes, block: nat, row: nat)
    requires |data| == DATA_CODEWORDS && |ecc| == BLOCKS * ECC && block < 25 && row < 30
    ensures 2956 + row * 25 + block < CODEWORDS && Interleaved(data, ecc)[2956 + row * 25 + block] == ecc[block * 30 + row]
  {
    hide Interleaved;
    var c := EccCell(block, row);
    StreamAt(data, ecc, c, IndexOf(c));
  }

  lemma NothingEmitted(m: seq<Entry>, stream: Bytes, current: array<Byte>, raster: array<Byte>)
    requires ShapedMap(m) && |stream| == current.Length == CODEWORDS && raster.Length == RASTER && current != raster
    ensures Emitted(m, stream, current[..], raster[..], current, raster, 0)
  {
    hide ShapedMap, Xor, Scatter;
    XorSelf(current[..]);
    ScatterZero(m);
    XorZero(raster[..]);
  }

  lemma AllEmitted(m: seq<Entry>, stream: Bytes, before: Bytes, was: Bytes, current: array<Byte>, raster: array<Byte>)
    requires Emitted(m, stream, before, was, current, raster, CODEWORDS)
    ensures |stream| == |before| == CODEWORDS && |was| == RASTER && ShapedMap(m)
    ensures current[..] == stream && raster[..] == Xor(was, Scatter(m, Xor(before, stream)))
  {
    hide ShapedMap, Xor, Scatter;
    assert stream[..CODEWORDS] + before[CODEWORDS..] == stream;
  }
}
