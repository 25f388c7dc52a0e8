// The fixed V40-L encoder: 25 Reed-Solomon blocks of 118 or 119 data bytes with
// 30 check bytes each, interleaved into 3706 codewords (ISO/IEC 18004:2015
// sections 7.5 and 7.6).  The step table is any XOR-linear table.

module V40L {
  import opened Gf2
  import opened Protocol

  const BLOCKS: nat := 25
  const SHORT: nat := 118
  const ECC: nat := 30
  const DATA_CODEWORDS: nat := 2956
  const CODEWORDS: nat := 3706

  // Row f of the table: what feeding back the byte f adds to the register.
  function Row(t: seq<Bytes>, f: Byte): (r: Bytes)
    requires ShapedTable(t)
    ensures |r| == ECC
  {
    t[Val(f)]
  }

  predicate ShapedTable(t: seq<Bytes>) {
    |t| == 256 && forall i :: 0 <= i < 256 ==> |t[i]| == ECC
  }

  ghost predicate LinearTable(t: seq<Bytes>) {
    ShapedTable(t) && forall a: Byte, b: Byte :: Row(t, Add(a, b)) == Xor(Row(t, a), Row(t, b))
  }

  function Shift(e: Bytes): (r: Bytes)
    requires |e| == ECC
    ensures |r| == ECC
  {
    e[1..] + [0]
  }

  // One data byte through the register.
  function RsStep(t: seq<Bytes>, e: Bytes, d: Byte): (r: Bytes)
    requires ShapedTable(t) && |e| == ECC
    ensures |r| == ECC
  {
    Xor(Shift(e), Row(t, Add(d, e[0])))
  }

  function EccFrom(t: seq<Bytes>, e: Bytes, data: Bytes): (r: Bytes)
    requires ShapedTable(t) && |e| == ECC
    ensures |r| == ECC
    decreases |data|
  {
    if data == [] then e else RsStep(t, EccFrom(t, e, data[..|data| - 1]), data[|data| - 1])
  }

  function EccOf(t: seq<Bytes>, data: Bytes): (r: Bytes)
    requires ShapedTable(t)
    ensures |r| == ECC
  {
    EccFrom(t, Zeros(ECC), data)
  }

  // ----- the register is XOR-linear in the data

  lemma ShiftXor(a: Bytes, b: Bytes)
    requires |a| == |b| == ECC
    ensures Shift(Xor(a, b)) == Xor(Shift(a), Shift(b))
  {
    AddZero();
    var l, r := Shift(Xor(a, b)), Xor(Shift(a), Shift(b));
    assert forall i :: 0 <= i < ECC ==> l[i] == r[i];
  }

  lemma RsStepXor(t: seq<Bytes>, a: Bytes, b: Bytes, x: Byte, y: Byte)
    requires LinearTable(t) && |a| == |b| == ECC
    ensures RsStep(t, Xor(a, b), Add(x, y)) == Xor(RsStep(t, a, x), RsStep(t, b, y))
  {
    hide Add, Xor, Shift, Row;
    ShiftXor(a, b);
    AddCross(x, y, a[0], b[0]);
    var fa, fb := Add(x, a[0]), Add(y, b[0]);
    assert Row(t, Add(fa, fb)) == Xor(Row(t, fa), Row(t, fb));
    XorCross(Shift(a), Shift(b), Row(t, fa), Row(t, fb));
  }

  lemma {:induction false} EccXor(t: seq<Bytes>, a: Bytes, b: Bytes)
    requires LinearTable(t) && |a| == |b|
    ensures EccOf(t, Xor(a, b)) == Xor(EccOf(t, a), EccOf(t, b))
    decreases |a|
  {
    hide Add, Xor, RsStep, Row;
    var z := Zeros(ECC);
    if a == [] {
      XorZero(z);
    } else {
      var n := |a| - 1;
      XorSlice(a, b, 0, n);
      EccXor(t, a[..n], b[..n]);
      RsStepXor(t, EccOf(t, a[..n]), EccOf(t, b[..n]), a[n], b[n]);
    }
  }

  lemma RowZero(t: seq<Bytes>)
    requires LinearTable(t)
    ensures Row(t, 0) == Zeros(ECC)
  {
    hide Xor, Row, Add;
    AddZero();
    assert Row(t, Add(0, 0)) == Xor(Row(t, 0), Row(t, 0));
    XorSelf(Row(t, 0));
  }

  lemma QuietStep(t: seq<Bytes>)
    requires LinearTable(t)
    ensures ShapedTable(t) && RsStep(t, Zeros(ECC), 0) == Zeros(ECC)
  {
    hide Xor, Row, Add, LinearTable;
    TableShape(t);
    AddZero();
    RowZero(t);
    assert Shift(Zeros(ECC)) == Zeros(ECC);
    XorZero(Zeros(ECC));
  }

  lemma {:induction false} EccZeros(t: seq<Bytes>, n: nat)
    requires LinearTable(t)
    ensures EccOf(t, Zeros(n)) == Zeros(ECC)
    decreases n
  {
    hide Xor, Row, Add, LinearTable;
    TableShape(t);
    if n > 0 {
      assert Zeros(n)[..n - 1] == Zeros(n - 1);
      EccZeros(t, n - 1);
      assert RsStep(t, Zeros(ECC), 0) == Zeros(ECC) by { QuietStep(t); }
    }
  }

  // ----- two bytes per iteration, in place (dosferRs30PairC)

  function PairStep(t: seq<Bytes>, e: Bytes, d0: Byte, d1: Byte): (r: Bytes)
    requires ShapedTable(t) && |e| == ECC
    ensures |r| == ECC
  {
    RsStep(t, RsStep(t, e, d0), d1)
  }

  lemma PairStepAt(t: seq<Bytes>, e: Bytes, d0: Byte, d1: Byte)
    requires ShapedTable(t) && |e| == ECC
    ensures var r1 := Row(t, Add(d0, e[0]));
            var r2 := Row(t, Add(Add(d1, e[1]), r1[0]));
            var p := PairStep(t, e, d0, d1);
            && (forall k :: 0 <= k < 28 ==> p[k] == Add(Add(e[k + 2], r1[k + 1]), r2[k]))
            && p[28] == Add(r1[29], r2[28]) && p[29] == r2[29]
  {
    hide Add, Row;
    AddZero();
    AddAssoc(d1, e[1], Row(t, Add(d0, e[0]))[0]);
  }

  // The 28 bytes that still come from the old register, overwritten front to
  // back: byte k + 2 is still the old one when byte k is written.
  method MoveForward(ecc: array<Byte>, r1: Bytes, r2: Bytes, ghost p: Bytes)
    requires ecc.Length == |r1| == |r2| == |p| == ECC
    requires forall k :: 0 <= k < 28 ==> p[k] == Add(Add(ecc[k + 2], r1[k + 1]), r2[k])
    modifies ecc
    ensures ecc[..28] == p[..28]
  {
    hide Add;
    for k := 0 to 28
      invariant forall j :: 0 <= j < k ==> ecc[j] == p[j]
      invariant forall j :: k <= j < ECC ==> ecc[j] == old(ecc[j])
    {
      ecc[k] := Add(Add(ecc[k + 2], r1[k + 1]), r2[k]);
    }
  }

  // Advance the register by two bytes in place.
  method PairInPlace(t: seq<Bytes>, ecc: array<Byte>, d0: Byte, d1: Byte)
    requires ShapedTable(t) && ecc.Length == ECC
    modifies ecc
    ensures ecc[..] == PairStep(t, old(ecc[..]), d0, d1)
  {
    hide Add, Row, PairStep, ShapedTable;
    ghost var p := PairStep(t, ecc[..], d0, d1);
    var r1 := Row(t, Add(d0, ecc[0]));
    var r2 := Row(t, Add(Add(d1, ecc[1]), r1[0]));
    PairStepAt(t, ecc[..], d0, d1);
    MoveForward(ecc, r1, r2, p);
    SplitLastTwo(p);
    ghost var front := ecc[..28];
    ecc[28], ecc[29] := Add(r1[29], r2[28]), r2[29];
    assert ecc[..] == front + [p[28], p[29]];
  }

  lemma SplitLastTwo(p: Bytes)
    requires |p| == ECC
    ensures p == p[..28] + [p[28], p[29]]
  {}

  // dosferRs30PairC: pairs of bytes, then the odd one of a long block.
  method RsPairs(t: seq<Bytes>, data: Bytes, ecc: array<Byte>)
    requires ShapedTable(t) && ecc.Length == ECC
    modifies ecc
    ensures ecc[..] == EccFrom(t, old(ecc[..]), data)
  {
    hide RsStep, PairStep;
    ghost var e := ecc[..];
    var i := 0;
    while |data| - i >= 2
      invariant 0 <= i <= |data|
      invariant ecc[..] == EccFrom(t, e, data[..i])
    {
      TwoSteps(t, e, data[..i], data[i], data[i + 1]);
      assert data[..i + 2] == data[..i] + [data[i], data[i + 1]];
      PairInPlace(t, ecc, data[i], data[i + 1]);
      i := i + 2;
    }
    if i < |data| {
      var next := RsStep(t, ecc[..], data[i]);
      assert data[..i + 1][..i] == data[..i];
      for j := 0 to ECC
        invariant forall m :: 0 <= m < j ==> ecc[m] == next[m]
      {
        ecc[j] := next[j];
      }
      i := i + 1;
    }
    assert data[..i] == data;
  }

  lemma TwoSteps(t: seq<Bytes>, e: Bytes, data: Bytes, d0: Byte, d1: Byte)
    requires ShapedTable(t) && |e| == ECC
    ensures EccFrom(t, e, data + [d0, d1]) == PairStep(t, EccFrom(t, e, data), d0, d1)
  {
    hide RsStep;
    var x := data + [d0, d1];
    assert x[..|x| - 1] == data + [d0];
    assert (data + [d0])[..|data|] == data;
  }

  // ----- block layout and interleave

  function DataOff(b: nat): nat {
    if b <= 19 then b * SHORT else 19 * SHORT + (b - 19) * (SHORT + 1)
  }

  function DataLen(b: nat): nat {
    if b < 19 then SHORT else SHORT + 1
  }

  // A byte of the block structure: data byte j or check byte j of block b.
  datatype Cell = DataCell(b: nat, j: nat) | EccCell(b: nat, j: nat)

  predicate IsCell(c: Cell) {
    c.b < BLOCKS && c.j < if c.DataCell? then DataLen(c.b) else ECC
  }

  // data_cw and ecc_cw: where a cell goes in the final stream.
  function IndexOf(c: Cell): nat {
    match c
    case DataCell(b, j) => if j < SHORT then b + j * BLOCKS else 2950 + b - 19
    case EccCell(b, j) => DATA_CODEWORDS + b + j * BLOCKS
  }

  // The cell emitted at position i: 118 full columns, the extra byte of the six
  // long blocks, 30 check columns.
  function CellAt(i: nat): Cell {
    if i < SHORT * BLOCKS then DataCell(i % BLOCKS, i / BLOCKS)
    else if i < DATA_CODEWORDS then DataCell(19 + (i - SHORT * BLOCKS), SHORT)
    else EccCell((i - DATA_CODEWORDS) % BLOCKS, (i - DATA_CODEWORDS) / BLOCKS)
  }

  // The closed-form indices are a bijection between the cells and 0..3705, and
  // the nested loops emit the cells in exactly that order.
  lemma CellOfIndex(i: nat)
    requires i < CODEWORDS
    ensures IsCell(CellAt(i)) && IndexOf(CellAt(i)) == i
  {}

  lemma IndexOfCell(c: Cell)
    requires IsCell(c)
    ensures IndexOf(c) < CODEWORDS && CellAt(IndexOf(c)) == c
  {}

  lemma OffBound(b: nat)
    requires b < BLOCKS
    ensures DataOff(b) + DataLen(b) == DataOff(b + 1) <= DATA_CODEWORDS
  {}

  function Block(data: Bytes, b: nat): (r: Bytes)
    requires |data| == DATA_CODEWORDS && b < BLOCKS
    ensures |r| == DataLen(b)
  {
    OffBound(b);
    data[DataOff(b)..DataOff(b) + DataLen(b)]
  }

  function ValueAt(t: seq<Bytes>, data: Bytes, c: Cell): Byte
    requires ShapedTable(t) && |data| == DATA_CODEWORDS && IsCell(c)
  {
    if c.DataCell? then Block(data, c.b)[c.j] else EccOf(t, Block(data, c.b))[c.j]
  }

  // The encoder as a function: cell values in stream order.
  function Codewords(t: seq<Bytes>, data: Bytes): (r: Bytes)
    requires ShapedTable(t) && |data| == DATA_CODEWORDS
    ensures |r| == CODEWORDS
  {
    seq(CODEWORDS, i requires 0 <= i < CODEWORDS => CellOfIndex(i); ValueAt(t, data, CellAt(i)))
  }

  lemma EncodeAt(t: seq<Bytes>, data: Bytes, c: Cell)
    requires ShapedTable(t) && |data| == DATA_CODEWORDS && IsCell(c)
    ensures IndexOf(c) < CODEWORDS && Codewords(t, data)[IndexOf(c)] == ValueAt(t, data, c)
  {
    hide IndexOf, CellAt, ValueAt, IsCell;
    IndexOfCell(c);
  }

  // The systematic encoder is XOR-linear in its data.
  lemma EncodeXor(t: seq<Bytes>, a: Bytes, b: Bytes)
    requires LinearTable(t) && |a| == |b| == DATA_CODEWORDS
    ensures Codewords(t, Xor(a, b)) == Xor(Codewords(t, a), Codewords(t, b))
  {
    hide Xor, EccOf, Row, Block, CellAt, IsCell, IndexOf, Add;
    var l, r := Codewords(t, Xor(a, b)), Xor(Codewords(t, a), Codewords(t, b));
    forall i | 0 <= i < CODEWORDS ensures l[i] == r[i] {
      CellOfIndex(i);
      var c := CellAt(i);
      BlockXor(a, b, c.b);
      EccXor(t, Block(a, c.b), Block(b, c.b));
    }
  }

  lemma BlockXor(a: Bytes, b: Bytes, k: nat)
    requires |a| == |b| == DATA_CODEWORDS
    ensures k < BLOCKS ==> Block(Xor(a, b), k) == Xor(Block(a, k), Block(b, k))
  {
    hide Xor, Add;
    if k < BLOCKS {
      OffBound(k);
      XorSlice(a, b, DataOff(k), DataOff(k) + DataLen(k));
    }
  }

  // ----- the cooperative encoder (qrcodegen_dosferV40LBegin / Step)

  // The cells of the first n blocks are in place.
  ghost predicate BlocksDone(t: seq<Bytes>, data: Bytes, result: Bytes, n: nat)
    requires ShapedTable(t) && |data| == DATA_CODEWORDS
  {
    |result| == CODEWORDS &&
    forall c :: IsCell(c) && c.b < n ==> IndexOf(c) < CODEWORDS && result[IndexOf(c)] == ValueAt(t, data, c)
  }

  lemma AllBlocksDone(t: seq<Bytes>, data: Bytes, result: Bytes)
    requires ShapedTable(t) && |data| == DATA_CODEWORDS && BlocksDone(t, data, result, BLOCKS)
    ensures result == Codewords(t, data)
  {
    hide ValueAt, IndexOf, CellAt;
    forall i | 0 <= i < CODEWORDS ensures result[i] == Codewords(t, data)[i] {
      CellOfIndex(i);
    }
  }

  class Encoder {
    const table: seq<Bytes>
    var data: Bytes
    var result: array<Byte>
    var dataOffset: nat
    var block: nat

    ghost predicate Valid()
      reads this, result
    {
      && ShapedTable(table) && |data| == DATA_CODEWORDS && block <= BLOCKS && dataOffset == DataOff(block)
      && result.Length == CODEWORDS && BlocksDone(table, data, result[..], block)
    }

    constructor (t: seq<Bytes>, input: Bytes, output: array<Byte>)
      requires ShapedTable(t) && |input| == DATA_CODEWORDS && output.Length == CODEWORDS
      ensures Valid() && table == t && data == input && result == output && block == 0
    {
      table, data, result := t, input, output;
      dataOffset, block := 0, 0;
    }

    // One block: 1 when the last one is done, 0 when more remain.
    method Step() returns (rc: int)
      requires Valid()
      modifies this`dataOffset, this`block, result
      ensures Valid()
      ensures old(block) == BLOCKS ==> rc == 1 && block == old(block) && result[..] == old(result[..])
      ensures old(block) < BLOCKS ==> block == old(block) + 1 && rc == if block == BLOCKS then 1 else 0
      ensures rc == 1 ==> block == BLOCKS && result[..] == Codewords(table, data)
    {
      hide BlocksDone, EccFrom, EccOf, Block, DataOff;
      if block == BLOCKS {
        AllBlocksDone(table, data, result[..]);
        return 1;
      }
      OffBound(block);
      var dat := Block(data, block);
      BlockIs(data, block);
      var ecc := new Byte[ECC](_ => 0);
      assert ecc[..] == Zeros(ECC);
      RsPairs(table, dat, ecc);
      EccIs(table, dat);
      ghost var before := result[..];
      WriteBlock(dat, ecc[..]);
      BlockWritten(table, data, before, result[..], block, dat, ecc[..]);
      dataOffset := dataOffset + |dat|;
      block := block + 1;
      if block == BLOCKS {
        AllBlocksDone(table, data, result[..]);
      }
      rc := if block == BLOCKS then 1 else 0;
    }

    // The three strided copies of one block.
    method WriteBlock(dat: Bytes, ecc: Bytes)
      requires block < BLOCKS && result.Length == CODEWORDS && |dat| == DataLen(block) && |ecc| == ECC
      modifies result
      ensures forall i :: 0 <= i < CODEWORDS ==>
                result[i] == if CellAt(i).b != block then old(result[i])
                             else if CellAt(i).DataCell? then dat[CellAt(i).j] else ecc[CellAt(i).j]
    {
      for j := 0 to SHORT
        invariant forall i :: 0 <= i < CODEWORDS ==>
                    result[i] == if CellAt(i).b == block && CellAt(i).DataCell? && CellAt(i).j < j then dat[CellAt(i).j]
                                 else old(result[i])
      {
        Column(DataCell(block, j));
        result[block + j * BLOCKS] := dat[j];
      }
      if block >= 19 {
        Column(DataCell(block, SHORT));
        result[2950 + block - 19] := dat[SHORT];
      }
      for j := 0 to ECC
        invariant forall i :: 0 <= i < CODEWORDS ==>
                    result[i] == if CellAt(i).b == block && CellAt(i).DataCell? then dat[CellAt(i).j]
                                 else if CellAt(i).b == block && CellAt(i).j < j then ecc[CellAt(i).j]
                                 else old(result[i])
      {
        Column(EccCell(block, j));
        result[DATA_CODEWORDS + block + j * BLOCKS] := ecc[j];
      }
    }
  }

  lemma Column(c: Cell)
    requires IsCell(c)
    ensures IndexOf(c) < CODEWORDS
    ensures forall i :: 0 <= i < CODEWORDS ==> (CellAt(i) == c <==> i == IndexOf(c))
  {
    IndexOfCell(c);
    forall i | 0 <= i < CODEWORDS ensures CellAt(i) == c <==> i == IndexOf(c) {
      CellOfIndex(i);
    }
  }

  lemma BlockIs(data: Bytes, b: nat)
    requires |data| == DATA_CODEWORDS && b < BLOCKS
    ensures DataOff(b) + DataLen(b) <= |data| && Block(data, b) == data[DataOff(b)..DataOff(b) + DataLen(b)]
  {
    OffBound(b);
  }

  lemma EccIs(t: seq<Bytes>, data: Bytes)
    requires ShapedTable(t)
    ensures EccOf(t, data) == EccFrom(t, Zeros(ECC), data)
  {}

  lemma BlockWritten(t: seq<Bytes>, data: Bytes, before: Bytes, after: Bytes, b: nat, dat: Bytes, ecc: Bytes)
    requires ShapedTable(t) && |data| == DATA_CODEWORDS && b < BLOCKS
    requires BlocksDone(t, data, before, b) && |after| == CODEWORDS
    requires dat == Block(data, b) && ecc == EccOf(t, dat)
    requires forall i :: 0 <= i < CODEWORDS ==>
               IsCell(CellAt(i)) &&
               after[i] == if CellAt(i).b != b then before[i]
                           else if CellAt(i).DataCell? then dat[CellAt(i).j] else ecc[CellAt(i).j]
    ensures BlocksDone(t, data, after, b + 1)
  {
    hide EccOf, Block, CellAt, IndexOf;
    forall c | IsCell(c) && c.b < b + 1
      ensures IndexOf(c) < CODEWORDS && after[IndexOf(c)] == ValueAt(t, data, c)
    {
      IndexOfCell(c);
    }
  }

  // qrcodegen_dosferEncodePrepackedV40L.
  method EncodePrepacked(t: seq<Bytes>, data: Bytes, result: array<Byte>)
    requires ShapedTable(t) && |data| == DATA_CODEWORDS && result.Length == CODEWORDS
    modifies result
    ensures result[..] == Codewords(t, data)
  {
    hide ShapedTable, Codewords;
    var state := new Encoder(t, data, result);
    var rc := 0;
    while rc == 0
      invariant state.Valid() && state.result == result && state.data == data && state.table == t && fresh(state)
      invariant rc == 0 || rc == 1
      invariant rc == 1 ==> result[..] == Codewords(t, data)
      invariant rc == 0 ==> state.block < BLOCKS
      decreases BLOCKS - state.block, 1 - rc
    {
      rc := state.Step();
    }
  }

  // ----- encoding only a protocol header

  const PREFIX: Bytes := [0x70, 0x34, 0x0B, 0x88]

  // Prefix, header and an all-zero payload.
  function HeaderData(header: Bytes): (r: Bytes)
    requires |header| == HEADER
    ensures |r| == DATA_CODEWORDS
  {
    PREFIX + header + Zeros(PAYLOAD)
  }

  lemma HeaderBlocks(header: Bytes, b: nat)
    requires |header| == HEADER && b < BLOCKS
    ensures Block(HeaderData(header), b) == if b == 0 then PREFIX + header + Zeros(66) else Zeros(DataLen(b))
  {
    BlockIs(HeaderData(header), b);
    var l := Block(HeaderData(header), b);
    var off := DataOff(b);
    if b > 0 {
      assert off >= SHORT;
    }
  }

  // qrcodegen_dosferHeaderCorrectionV40L: the header's bytes all sit in block
  // zero, so one block is encoded instead of twenty-five.
  method HeaderCorrection(t: seq<Bytes>, header: Bytes, result: array<Byte>)
    requires LinearTable(t) && |header| == HEADER && result.Length == CODEWORDS
    modifies result
    ensures result[..] == Codewords(t, HeaderData(header))
  {
    hide LinearTable, Codewords, EccOf, EccFrom;
    var data := PREFIX + header + Zeros(66);
    assert |data| == SHORT && ShapedTable(t) by { TableShape(t); }
    var register := new Byte[ECC](_ => 0);
    assert register[..] == Zeros(ECC);
    RsPairs(t, data, register);
    EccIs(t, data);
    var ecc := register[..];
    for i := 0 to CODEWORDS
      invariant forall k :: 0 <= k < i ==> result[k] == 0
    {
      result[i] := 0;
    }
    for j := 0 to SHORT
      invariant forall i :: 0 <= i < CODEWORDS ==>
                  result[i] == if CellAt(i).b == 0 && CellAt(i).DataCell? && CellAt(i).j < j then data[CellAt(i).j] else 0
    {
      Column(DataCell(0, j));
      result[j * BLOCKS] := data[j];
    }
    for j := 0 to ECC
      invariant forall i :: 0 <= i < CODEWORDS ==>
                  result[i] == if CellAt(i).b == 0 && CellAt(i).DataCell? then data[CellAt(i).j]
                               else if CellAt(i).b == 0 && CellAt(i).j < j then ecc[CellAt(i).j] else 0
    {
      Column(EccCell(0, j));
      result[DATA_CODEWORDS + j * BLOCKS] := ecc[j];
    }
    HeaderCells(t, header, result[..], ecc);
  }

  lemma TableShape(t: seq<Bytes>)
    requires LinearTable(t)
    ensures ShapedTable(t)
  {}

  lemma HeaderCells(t: seq<Bytes>, header: Bytes, result: Bytes, ecc: Bytes)
    requires LinearTable(t) && |header| == HEADER && |result| == CODEWORDS
    requires ecc == EccOf(t, PREFIX + header + Zeros(66))
    requires forall i :: 0 <= i < CODEWORDS ==>
               IsCell(CellAt(i)) &&
               result[i] == if CellAt(i).b == 0 && CellAt(i).DataCell? then (PREFIX + header + Zeros(66))[CellAt(i).j]
                            else if CellAt(i).b == 0 then ecc[CellAt(i).j] else 0
    ensures result == Codewords(t, HeaderData(header))
  {
    hide LinearTable, EccOf, Block, CellAt, Row;
    TableShape(t);
    forall i | 0 <= i < CODEWORDS ensures result[i] == Codewords(t, HeaderData(header))[i] {
      var c := CellAt(i);
      HeaderBlocks(header, c.b);
      if c.b > 0 {
        EccZeros(t, DataLen(c.b));
      }
    }
  }

  // delta_codewords: the recurrence on byte differences, cell by cell.
  method DeltaCodewords(t: seq<Bytes>, before: Bytes, after: Bytes, out: array<Byte>)
    requires LinearTable(t) && |before| == |after| == DATA_CODEWORDS && out.Length == CODEWORDS
    modifies out
    ensures out[..] == Xor(Codewords(t, before), Codewords(t, after))
  {
    hide LinearTable, Codewords, EccOf, EccFrom, BlocksDone, Xor, DataOff, DataLen;
    TableShape(t);
    ghost var data := Xor(before, after);
    DoneNone(t, data, out[..]);
    for b := 0 to BLOCKS
      invariant BlocksDone(t, data, out[..], b)
    {
      OffBound(b);
      BlockIs(data, b);
      DeltaBlock(t, before, after, b, out);
    }
    AllBlocksDone(t, data, out[..]);
    EncodeXor(t, before, after);
  }

  lemma DoneNone(t: seq<Bytes>, data: Bytes, out: Bytes)
    requires ShapedTable(t) && |data| == DATA_CODEWORDS && |out| == CODEWORDS
    ensures BlocksDone(t, data, out, 0)
  {}

  method DeltaBlock(t: seq<Bytes>, before: Bytes, after: Bytes, b: nat, out: array<Byte>)
    requires ShapedTable(t) && |before| == |after| == DATA_CODEWORDS && out.Length == CODEWORDS && b < BLOCKS
    requires BlocksDone(t, Xor(before, after), out[..], b)
    modifies out
    ensures BlocksDone(t, Xor(before, after), out[..], b + 1)
  {
    hide EccOf, EccFrom, BlocksDone, RsStep, Xor, Add, ShapedTable;
    ghost var data := Xor(before, after);
    ghost var dat := Block(data, b);
    ghost var start := out[..];
    OffBound(b);
    BlockIs(data, b);
    var off := DataOff(b);
    var ecc := Zeros(ECC);
    EccNone(t);
    for j := 0 to DataLen(b)
      invariant |ecc| == ECC && ecc == EccFrom(t, Zeros(ECC), dat[..j])
      invariant forall i :: 0 <= i < CODEWORDS ==>
                  out[i] == if CellAt(i).b == b && CellAt(i).DataCell? && CellAt(i).j < j then dat[CellAt(i).j] else start[i]
    {
      var delta := Add(before[off + j], after[off + j]);
      DeltaAt(before, after, b, j);
      EccNext(t, dat, j);
      ecc := RsStep(t, ecc, delta);
      Column(DataCell(b, j));
      out[IndexOf(DataCell(b, j))] := delta;
    }
    assert dat[..DataLen(b)] == dat;
    EccIs(t, dat);
    for j := 0 to ECC
      invariant forall i :: 0 <= i < CODEWORDS ==>
                  out[i] == if CellAt(i).b == b && CellAt(i).DataCell? then dat[CellAt(i).j]
                            else if CellAt(i).b == b && CellAt(i).j < j then ecc[CellAt(i).j] else start[i]
    {
      Column(EccCell(b, j));
      out[IndexOf(EccCell(b, j))] := ecc[j];
    }
    CellsInRange();
    BlockWritten(t, data, start, out[..], b, dat, ecc);
  }

  lemma CellsInRange()
    ensures forall i :: 0 <= i < CODEWORDS ==> IsCell(CellAt(i))
  {}

  lemma EccNone(t: seq<Bytes>)
    requires ShapedTable(t)
    ensures EccFrom(t, Zeros(ECC), []) == Zeros(ECC)
  {}

  lemma EccNext(t: seq<Bytes>, data: Bytes, j: nat)
    requires ShapedTable(t) && j < |data|
    ensures EccFrom(t, Zeros(ECC), data[..j + 1]) == RsStep(t, EccFrom(t, Zeros(ECC), data[..j]), data[j])
  {
    hide RsStep;
    assert data[..j + 1][..j] == data[..j];
  }

  lemma DeltaAt(before: Bytes, after: Bytes, b: nat, j: nat)
    requires |before| == |after| == DATA_CODEWORDS && b < BLOCKS && j < DataLen(b)
    ensures DataOff(b) + j < DATA_CODEWORDS
    ensures Block(Xor(before, after), b)[j] == Add(before[DataOff(b) + j], after[DataOff(b) + j])
  {
    hide Add;
    OffBound(b);
    BlockIs(Xor(before, after), b);
  }
}
