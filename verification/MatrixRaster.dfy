// qr_raster_from_matrix_buf: the picture of a symbol eight modules at a time,
// from the packed module bits of the QR buffer.

module MatrixRaster {
  import opened Gf2
  import opened Raster
  import opened Placement
  import opened SymbolImage
  import Field256

  const BUFFER: nat := 3918

  // ----- module bits

  // Module n is bit n % 8 of byte n / 8 + 1.
  predicate ModuleBit(matrix: Bytes, n: nat)
    requires |matrix| == BUFFER && n < 177 * 177
  {
    Field256.BitAt(matrix[n / 8 + 1], n % 8)
  }

  function Modules(matrix: Bytes): (dark: seq<bool>)
    requires |matrix| == BUFFER
    ensures |dark| == 177 * 177 && forall n :: 0 <= n < 177 * 177 ==> dark[n] == ModuleBit(matrix, n)
  {
    seq(177 * 177, n requires 0 <= n < 177 * 177 => ModuleBit(matrix, n))
  }

  // Eight bits from position s of three bytes.
  function Chunk(a: Byte, b: Byte, c: Byte, s: nat): Byte
    requires s < 8
  {
    ((((a as Word) | ((b as Word) << 8) | ((c as Word) << 16)) >> s) & 0xFF) as Byte
  }

  function Right(a: Byte, s: nat): Byte
    requires s < 8
  {
    a >> s
  }

  function LeftBy(b: Byte, s: nat): Byte
    requires s <= 8
  {
    b << s
  }

  function Either(a: Byte, b: Byte): Byte { a | b }

  // Bit j of r is bit s + j of the two bytes.
  predicate ChunkAt(r: Byte, a: Byte, b: Byte, s: nat, j: nat)
    requires s < 8 && j < 8
  {
    Field256.BitAt(r, j) == if s + j < 8 then Field256.BitAt(a, s + j) else Field256.BitAt(b, s + j - 8)
  }

  lemma Join0(a: Byte, b: Byte, c: Byte) ensures Chunk(a, b, c, 0) == Either(Right(a, 0), LeftBy(b, 8)) {}
  lemma Join1(a: Byte, b: Byte, c: Byte) ensures Chunk(a, b, c, 1) == Either(Right(a, 1), LeftBy(b, 7)) {}
  lemma Join2(a: Byte, b: Byte, c: Byte) ensures Chunk(a, b, c, 2) == Either(Right(a, 2), LeftBy(b, 6)) {}
  lemma Join3(a: Byte, b: Byte, c: Byte) ensures Chunk(a, b, c, 3) == Either(Right(a, 3), LeftBy(b, 5)) {}
  lemma Join4(a: Byte, b: Byte, c: Byte) ensures Chunk(a, b, c, 4) == Either(Right(a, 4), LeftBy(b, 4)) {}
  lemma Join5(a: Byte, b: Byte, c: Byte) ensures Chunk(a, b, c, 5) == Either(Right(a, 5), LeftBy(b, 3)) {}
  lemma Join6(a: Byte, b: Byte, c: Byte) ensures Chunk(a, b, c, 6) == Either(Right(a, 6), LeftBy(b, 2)) {}
  lemma Join7(a: Byte, b: Byte, c: Byte) ensures Chunk(a, b, c, 7) == Either(Right(a, 7), LeftBy(b, 1)) {}

  // A chunk is the end of one byte and the start of the next.
  lemma ChunkJoins(a: Byte, b: Byte, c: Byte, s: nat)
    requires s < 8
    ensures Chunk(a, b, c, s) == Either(Right(a, s), LeftBy(b, 8 - s))
  {
    hide Chunk, Either, Right, LeftBy;
    if s == 0 { Join0(a, b, c); } else if s == 1 { Join1(a, b, c); } else if s == 2 { Join2(a, b, c); }
    else if s == 3 { Join3(a, b, c); } else if s == 4 { Join4(a, b, c); } else if s == 5 { Join5(a, b, c); }
    else if s == 6 { Join6(a, b, c); } else { Join7(a, b, c); }
  }

  lemma RightBits(a: Byte, s: nat, j: nat)
    requires s < 8 && j < 8
    ensures Field256.BitAt(Right(a, s), j) <==> s + j < 8 && Field256.BitAt(a, s + j)
  {
    if s == 0 {} else if s == 1 {} else if s == 2 {} else if s == 3 {} else if s == 4 {} else if s == 5 {} else if s == 6 {} else {}
  }

  lemma LeftBits(b: Byte, s: nat, j: nat)
    requires s <= 8 && j < 8
    ensures Field256.BitAt(LeftBy(b, s), j) <==> s <= j && Field256.BitAt(b, j - s)
  {
    if s == 0 {} else if s == 1 {} else if s == 2 {} else if s == 3 {} else if s == 4 {} else if s == 5 {} else if s == 6 {} else if s == 7 {} else {}
  }

  lemma EitherBits(a: Byte, b: Byte, j: nat)
    requires j < 8
    ensures Field256.BitAt(Either(a, b), j) <==> Field256.BitAt(a, j) || Field256.BitAt(b, j)
  {
    MeetsEither(a, b);
    hide Field256.Meets, Either;
  }

  lemma MeetsEither(a: Byte, b: Byte)
    ensures Field256.Meets(Either(a, b), 0x01) <==> Field256.Meets(a, 0x01) || Field256.Meets(b, 0x01)
    ensures Field256.Meets(Either(a, b), 0x02) <==> Field256.Meets(a, 0x02) || Field256.Meets(b, 0x02)
    ensures Field256.Meets(Either(a, b), 0x04) <==> Field256.Meets(a, 0x04) || Field256.Meets(b, 0x04)
    ensures Field256.Meets(Either(a, b), 0x08) <==> Field256.Meets(a, 0x08) || Field256.Meets(b, 0x08)
    ensures Field256.Meets(Either(a, b), 0x10) <==> Field256.Meets(a, 0x10) || Field256.Meets(b, 0x10)
    ensures Field256.Meets(Either(a, b), 0x20) <==> Field256.Meets(a, 0x20) || Field256.Meets(b, 0x20)
    ensures Field256.Meets(Either(a, b), 0x40) <==> Field256.Meets(a, 0x40) || Field256.Meets(b, 0x40)
    ensures Field256.Meets(Either(a, b), 0x80) <==> Field256.Meets(a, 0x80) || Field256.Meets(b, 0x80)
  {}

  lemma ChunkBits(a: Byte, b: Byte, c: Byte, s: nat, j: nat)
    requires s < 8 && j < 8
    ensures ChunkAt(Chunk(a, b, c, s), a, b, s, j)
  {
    hide Chunk, Either, Right, LeftBy, Field256.BitAt;
    ChunkJoins(a, b, c, s);
    EitherBits(Right(a, s), LeftBy(b, 8 - s), j);
    RightBits(a, s, j);
    LeftBits(b, 8 - s, j);
  }

  // ----- a byte read from the other end

  // reverse4_bits.
  const REVERSED: seq<Byte> := [0x0, 0x8, 0x4, 0xC, 0x2, 0xA, 0x6, 0xE, 0x1, 0x9, 0x5, 0xD, 0x3, 0xB, 0x7, 0xF]

  function LowHalf(v: Byte): (n: nat)
    ensures n < 16
  {
    (v & 0x0F) as nat
  }

  function HighHalf(v: Byte): (n: nat)
    ensures n < 16
  {
    (v >> 4) as nat
  }

  // reverse8_bits.
  function Reverse8(v: Byte): Byte {
    (REVERSED[LowHalf(v)] << 4) | REVERSED[HighHalf(v)]
  }

  predicate HalfReversed(n: nat)
    requires n < 16
  {
    var r, v := REVERSED[n], n as Byte;
    && r < 16 && (r & 8 != 0 <==> v & 1 != 0) && (r & 4 != 0 <==> v & 2 != 0) && (r & 2 != 0 <==> v & 4 != 0) && (r & 1 != 0 <==> v & 8 != 0)
  }

  lemma TableReverses(n: nat)
    requires n < 16
    ensures HalfReversed(n)
  {
    if n == 0 {} else if n == 1 {} else if n == 2 {} else if n == 3 {} else if n == 4 {} else if n == 5 {} else if n == 6 {} else if n == 7 {}
    else if n == 8 {} else if n == 9 {} else if n == 10 {} else if n == 11 {} else if n == 12 {} else if n == 13 {} else if n == 14 {} else {}
  }

  lemma HalvesBack(v: Byte)
    ensures LowHalf(v) as Byte == v & 0x0F && HighHalf(v) as Byte == v >> 4
  {}

  // Pixel k, counted from the left, is bit k, counted from the right.
  lemma Reverses(v: Byte, k: nat)
    requires k < 8
    ensures BitOn(Reverse8(v), k) <==> Field256.BitAt(v, k)
  {
    TableReverses(LowHalf(v));
    TableReverses(HighHalf(v));
    HalvesBack(v);
    ReversedBits(v, REVERSED[LowHalf(v)], REVERSED[HighHalf(v)]);
  }

  lemma ReversedBits(v: Byte, l: Byte, h: Byte)
    requires l < 16 && h < 16
    requires (l & 8 != 0 <==> v & 1 != 0) && (l & 4 != 0 <==> v & 2 != 0) && (l & 2 != 0 <==> v & 4 != 0) && (l & 1 != 0 <==> v & 8 != 0)
    requires (h & 8 != 0 <==> v & 16 != 0) && (h & 4 != 0 <==> v & 32 != 0) && (h & 2 != 0 <==> v & 64 != 0) && (h & 1 != 0 <==> v & 128 != 0)
    ensures var r := (l << 4) | h;
            && (r & 0x80 != 0 <==> v & 0x01 != 0) && (r & 0x40 != 0 <==> v & 0x02 != 0) && (r & 0x20 != 0 <==> v & 0x04 != 0)
            && (r & 0x10 != 0 <==> v & 0x08 != 0) && (r & 0x08 != 0 <==> v & 0x10 != 0) && (r & 0x04 != 0 <==> v & 0x20 != 0)
            && (r & 0x02 != 0 <==> v & 0x40 != 0) && (r & 0x01 != 0 <==> v & 0x80 != 0)
  {}

  // ----- the loops

  // The symbol of the protected-mode sender, its first n modules drawn.
  ghost predicate Picture(r: Bytes, matrix: Bytes, n: nat)
    requires |matrix| == BUFFER
  {
    Drawn(r, X0, Y0, Modules(matrix), false, n)
  }

  // Byte of the raster in which the chunk at module (mx, my) begins; its first
  // module is the last bit of that byte.
  function ChunkByte(my: nat, mx: nat): nat {
    (Y0 + my) * 40 + (X0 + mx) / 8
  }

  function Cleared(b: Byte, m: Byte): Byte {
    b & !m
  }

  lemma ClearedBits(b: Byte, m: Byte, k: nat)
    requires k < 8
    ensures BitOn(Cleared(b, m), k) <==> BitOn(b, k) && !BitOn(m, k)
  {
    hide BitOn, Cleared, Mask, Test, OneMask;
    MaskIsOne(k);
    TestIs(b, k);
    TestIs(m, k);
    TestIs(Cleared(b, m), k);
    ClearedOne(b, m, Mask(k));
  }

  lemma ClearedOne(b: Byte, m: Byte, one: Byte)
    requires OneMask(one)
    ensures Test(Cleared(b, m), one) <==> Test(b, one) && !Test(m, one)
  {}

  // The pixels of a chunk: the last bit of one byte and seven bits of the next.
  lemma ChunkPixel(my: nat, mx: nat, d: nat, k: nat)
    requires my < 177 && mx % 8 == 0 && mx + 8 <= 177 && k < 8
    ensures var n, at := my * 177 + mx, ChunkByte(my, mx);
            && (InSquare(X0, Y0, d, k) && n <= ModuleOf(X0, Y0, d, k) < n + 8 <==> (d == at && k == 7) || (d == at + 1 && k < 7))
            && (d == at && k == 7 ==> ModuleOf(X0, Y0, d, k) == n)
            && (d == at + 1 && k < 7 ==> ModuleOf(X0, Y0, d, k) == n + k + 1)
  {
    var at := ChunkByte(my, mx);
    var q := mx / 8;
    assert mx == 8 * q && (X0 + mx) / 8 == 8 + q;
    RowColumn40(Y0 + my, 8 + q);
    RowColumn40(Y0 + my, 9 + q);
    assert at == (Y0 + my) * 40 + (8 + q);
    if InSquare(X0, Y0, d, k) {
      var row, col := d / 40 - Y0, d % 40 * 8 + k - X0;
      RowColumn177(row, col);
      if my * 177 + mx <= row * 177 + col < my * 177 + mx + 8 {
        SameRow(row, col, my, mx);
      }
    }
  }

  lemma SameRow(row: nat, col: nat, my: nat, mx: nat)
    requires col < 177 && mx + 8 <= 177 && my * 177 + mx <= row * 177 + col < my * 177 + mx + 8
    ensures row == my && mx <= col < mx + 8
  {}

  // What drawing a chunk does to the raster.
  predicate FirstAt(before: Byte, after: Byte, chunk: Byte, k: nat)
    requires k < 8
  {
    BitOn(after, k) == (BitOn(before, k) && !(k == 7 && Field256.BitAt(chunk, 0)))
  }

  predicate SecondAt(before: Byte, after: Byte, chunk: Byte, k: nat)
    requires k < 8
  {
    BitOn(after, k) == (BitOn(before, k) && !(k < 7 && Field256.BitAt(chunk, k + 1)))
  }

  predicate FirstByte(before: Byte, after: Byte, chunk: Byte) {
    forall k :: 0 <= k < 8 ==> FirstAt(before, after, chunk, k)
  }

  predicate SecondByte(before: Byte, after: Byte, chunk: Byte) {
    forall k :: 0 <= k < 8 ==> SecondAt(before, after, chunk, k)
  }

  ghost predicate ChunkStored(before: Bytes, after: Bytes, chunk: Byte, at: nat) {
    && |before| == |after| == RASTER && at + 1 < RASTER
    && (forall d :: 0 <= d < RASTER && d != at && d != at + 1 ==> after[d] == before[d])
    && FirstByte(before[at], after[at], chunk) && SecondByte(before[at + 1], after[at + 1], chunk)
  }

  ghost predicate ChunkOf(matrix: Bytes, n: nat, chunk: Byte)
    requires |matrix| == BUFFER && n + 8 <= 177 * 177
  {
    forall j :: 0 <= j < 8 ==> Field256.BitAt(chunk, j) == ModuleBit(matrix, n + j)
  }

  lemma ChunkDrawn(before: Bytes, after: Bytes, matrix: Bytes, my: nat, mx: nat, chunk: Byte, n: nat, next: nat)
    requires |matrix| == BUFFER && my < 177 && mx % 8 == 0 && mx + 8 <= 177 && n == my * 177 + mx && next == n + 8 <= 177 * 177
    requires Picture(before, matrix, n) && ChunkOf(matrix, n, chunk) && ChunkStored(before, after, chunk, ChunkByte(my, mx))
    ensures Picture(after, matrix, next)
  {
    hide DrawnAt, BitOn, Field256.BitAt, ChunkByte, ModuleBit, ChunkOf;
    var dark := Modules(matrix);
    forall d, k | 0 <= d < RASTER && 0 <= k < 8 ensures DrawnAt(after, X0, Y0, dark, false, next, d, k) {
      PixelDrawn(before, after, matrix, my, mx, chunk, n, next, d, k);
    }
  }

  lemma PixelDrawn(before: Bytes, after: Bytes, matrix: Bytes, my: nat, mx: nat, chunk: Byte, n: nat, next: nat, d: nat, k: nat)
    requires |matrix| == BUFFER && my < 177 && mx % 8 == 0 && mx + 8 <= 177 && n == my * 177 + mx && next == n + 8 <= 177 * 177
    requires Picture(before, matrix, n) && ChunkOf(matrix, n, chunk) && ChunkStored(before, after, chunk, ChunkByte(my, mx))
    requires d < RASTER && k < 8
    ensures DrawnAt(after, X0, Y0, Modules(matrix), false, next, d, k)
  {
    hide BitOn, Field256.BitAt, InSquare, ModuleOf, ChunkByte, ModuleBit;
    var at := ChunkByte(my, mx);
    assert DrawnAt(before, X0, Y0, Modules(matrix), false, n, d, k);
    ChunkPixel(my, mx, d, k);
    if d == at {
      assert FirstAt(before[at], after[at], chunk, k);
    } else if d == at + 1 {
      assert SecondAt(before[at + 1], after[at + 1], chunk, k);
    }
  }

  // The chunk of eight modules as it is read.
  method ReadChunk(matrix: Bytes, n: nat) returns (chunk: Byte)
    requires |matrix| == BUFFER && n + 8 <= 177 * 177
    ensures ChunkOf(matrix, n, chunk)
  {
    hide Chunk, Field256.BitAt;
    var base := n / 8 + 1;
    var third := if base + 2 < BUFFER then matrix[base + 2] else 0;
    chunk := Chunk(matrix[base], matrix[base + 1], third, n % 8);
    forall j | 0 <= j < 8 ensures Field256.BitAt(chunk, j) == ModuleBit(matrix, n + j) {
      ChunkBits(matrix[base], matrix[base + 1], third, n % 8, j);
      NextBit(n, j);
    }
  }

  lemma NextBit(n: nat, j: nat)
    requires j < 8
    ensures if n % 8 + j < 8 then (n + j) / 8 == n / 8 && (n + j) % 8 == n % 8 + j
            else (n + j) / 8 == n / 8 + 1 && (n + j) % 8 == n % 8 + j - 8
  {}

  method DrawChunk(screen: array<Byte>, chunk: Byte, at: nat)
    requires screen.Length == RASTER && at + 1 < RASTER
    modifies screen
    ensures ChunkStored(old(screen[..]), screen[..], chunk, at)
  {
    hide FirstByte, SecondByte, Field256.BitAt, Reverse8, Cleared, Right, Without;
    ghost var before := screen[..];
    if Field256.BitAt(chunk, 0) { screen[at] := Without(screen[at], 7); }
    screen[at + 1] := Cleared(screen[at + 1], Reverse8(Right(chunk, 1)));
    FirstCleared(before[at], chunk);
    SecondCleared(before[at + 1], chunk);
  }

  lemma FirstCleared(b: Byte, chunk: Byte)
    ensures FirstByte(b, if Field256.BitAt(chunk, 0) then Without(b, 7) else b, chunk)
  {
    hide BitOn, Field256.BitAt, Without;
    var r := if Field256.BitAt(chunk, 0) then Without(b, 7) else b;
    forall k | 0 <= k < 8 ensures FirstAt(b, r, chunk, k) {
      Masked(b, 7, k);
    }
  }

  lemma SecondCleared(b: Byte, chunk: Byte)
    ensures SecondByte(b, Cleared(b, Reverse8(Right(chunk, 1))), chunk)
  {
    hide BitOn, Field256.BitAt, Reverse8, Cleared, Right;
    var r := Right(chunk, 1);
    forall k | 0 <= k < 8 ensures SecondAt(b, Cleared(b, Reverse8(r)), chunk, k) {
      ClearedBits(b, Reverse8(r), k);
      Reverses(r, k);
      RightBits(chunk, 1, k);
    }
  }

  // One row: 22 chunks and the last module.
  method CopyRow(matrix: Bytes, screen: array<Byte>, my: nat)
    requires |matrix| == BUFFER && screen.Length == RASTER && my < 177 && Picture(screen[..], matrix, my * 177)
    modifies screen
    ensures Picture(screen[..], matrix, (my + 1) * 177)
  {
    hide Picture, ChunkStored, ChunkOf, ChunkByte, Toggled, ByteAt, PixelBit;
    var mx := 0;
    while mx + 8 <= 177
      invariant mx <= 177 && mx % 8 == 0 && Picture(screen[..], matrix, my * 177 + mx)
      decreases 177 - mx
    {
      var n := my * 177 + mx;
      var chunk := ReadChunk(matrix, n);
      InRaster(my, mx);
      ghost var before := screen[..];
      DrawChunk(screen, chunk, ChunkByte(my, mx));
      ChunkDrawn(before, screen[..], matrix, my, mx, chunk, n, n + 8);
      mx := mx + 8;
    }
    LastModule(matrix, screen, my);
  }

  lemma InRaster(my: nat, mx: nat)
    requires my < 177 && mx + 8 <= 177
    ensures ChunkByte(my, mx) + 1 < RASTER
  {}

  method LastModule(matrix: Bytes, screen: array<Byte>, my: nat)
    requires |matrix| == BUFFER && screen.Length == RASTER && my < 177 && Picture(screen[..], matrix, my * 177 + 176)
    modifies screen
    ensures Picture(screen[..], matrix, (my + 1) * 177)
  {
    hide Drawn, Toggled, ByteAt, PixelBit;
    ghost var before := screen[..];
    var n := my * 177 + 176;
    DrawModule(screen, X0, Y0, my, 176, ModuleBit(matrix, n), false);
    ModuleDrawn(before, screen[..], X0, Y0, Modules(matrix), false, n, n + 1);
  }

  // The whole copy gives the picture that drawing module by module gives.
  method RasterFromMatrix(matrix: Bytes, screen: array<Byte>)
    requires |matrix| == BUFFER && screen.Length == RASTER
    modifies screen
    ensures Drawn(screen[..], X0, Y0, Modules(matrix), false, 177 * 177)
  {
    hide Drawn;
    for i := 0 to RASTER
      invariant forall k :: 0 <= k < i ==> screen[k] == 0xFF
    {
      screen[i] := 0xFF;
    }
    NothingDrawn(screen[..], X0, Y0, Modules(matrix), false);
    for my := 0 to 177
      invariant Picture(screen[..], matrix, my * 177)
    {
      CopyRow(matrix, screen, my);
    }
  }
}
