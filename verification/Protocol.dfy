// The DQR1 frame and the DQRC record: layout, validation, whitening choice and
// both checksums, as the senders write them (frame_header, dos32_frame,
// dos32_record, make_record) and the receiver reads them back (parseFrame,
// parseRecord).

module Protocol {
  import ByteValues
  import opened Gf2
  import opened Crc32
  import opened Whitening

  type Short = bv16
  type U8 = n: nat | n < 0x100
  type U16 = n: nat | n < 0x1_0000
  type U32 = n: nat | n < 0x1_0000_0000

  datatype Result<T> = Ok(value: T) | Err

  const DATA: U8 := 1
  const CHAIN_XOR: U8 := 4
  const BLOCK_XOR: U8 := 5
  const PLANE_CODED: U8 := 6

  const FLAG_PAIR_WHITENED: Short := 0x0004
  const FLAG_WHITENED: Short := 0x0008
  const FLAG_PLANE_WHITENED: Short := 0x0010
  const FLAG_GROUP_XOR_WHITENED: Short := 0x0020
  const UNKNOWN_FLAGS: Short := 0xFFC2

  const SESSION: U8 := 1
  const DIRECTORY: U8 := 2
  const FILE_BEGIN: U8 := 3
  const FILE_DATA: U8 := 4
  const FILE_END: U8 := 5
  const TRANSFER_END: U8 := 6

  const HEADER: nat := 48
  const RECORD_HEADER: nat := 24
  const MAX_WINDOW: nat := 128

  // ----- big-endian fields

  function Val(b: Byte): (r: U8) { b as int }

  function ToByte(n: U8): Byte { n as Byte }

  lemma ToByteVal(n: U8)
    ensures Val(ToByte(n)) == n
  {
    ByteValues.ByteRound(n);
  }

  lemma ValToByte(b: Byte)
    ensures ToByte(Val(b)) == b
  {}

  function Put16(n: U16): (r: Bytes)
    ensures |r| == 2
  {
    [ToByte(n / 0x100), ToByte(n % 0x100)]
  }

  function Get16(b: Bytes): (n: U16)
    requires |b| == 2
  {
    Val(b[0]) * 0x100 + Val(b[1])
  }

  function Put32(n: U32): (r: Bytes)
    ensures |r| == 4
  {
    Put16(n / 0x1_0000) + Put16(n % 0x1_0000)
  }

  function Get32(b: Bytes): (n: U32)
    requires |b| == 4
  {
    Get16(b[..2]) * 0x1_0000 + Get16(b[2..])
  }

  lemma Get16Put(n: U16)
    ensures Get16(Put16(n)) == n
  {
    hide Val, ToByte;
    ToByteVal(n / 0x100);
    ToByteVal(n % 0x100);
  }

  lemma Put16Get(b: Bytes)
    requires |b| == 2
    ensures Put16(Get16(b)) == b
  {
    hide Val, ToByte;
    ValToByte(b[0]);
    ValToByte(b[1]);
    var n := Get16(b);
    assert n / 0x100 == Val(b[0]) && n % 0x100 == Val(b[1]);
  }

  lemma Get32Put(n: U32)
    ensures Get32(Put32(n)) == n
  {
    hide Get16, Put16;
    Get16Put(n / 0x1_0000);
    Get16Put(n % 0x1_0000);
    assert Put32(n)[..2] == Put16(n / 0x1_0000) && Put32(n)[2..] == Put16(n % 0x1_0000);
  }

  lemma Put32Get(b: Bytes)
    requires |b| == 4
    ensures Put32(Get32(b)) == b
  {
    hide Get16, Put16;
    Put16Get(b[..2]);
    Put16Get(b[2..]);
    var n := Get32(b);
    assert n / 0x1_0000 == Get16(b[..2]) && n % 0x1_0000 == Get16(b[2..]);
    assert b[..2] + b[2..] == b;
  }

  // Checksum words are stored most significant byte first.
  function PutWord(w: Word): (r: Bytes)
    ensures |r| == 4
  {
    [Byte3(w), Byte2(w), Byte1(w), Low(w)]
  }

  function PutFlags(f: Short): (r: Bytes)
    ensures |r| == 2
  {
    [(f >> 8) as Byte, (f & 0xFF) as Byte]
  }

  function GetFlags(b: Bytes): Short
    requires |b| == 2
  {
    ((b[0] as Short) << 8) | (b[1] as Short)
  }

  lemma GetFlagsPut(f: Short)
    ensures GetFlags(PutFlags(f)) == f
  {}

  lemma PutFlagsGet(b: Bytes)
    requires |b| == 2
    ensures PutFlags(GetFlags(b)) == b
  {}

  function ToWord(n: nat): Word {
    (n % 0x1_0000_0000) as Word
  }

  // ----- frames

  datatype Frame = Frame(kind: U8, flags: Short, session: U32, window: U32, globalIndex: U32,
                         windowIndex: U16, windowCount: U16, streamId: U32, streamOffset: U32,
                         payload: Bytes)

  predicate Has(flags: Short, bit: Short) { flags & bit != 0 }

  function Stride(f: Frame): nat {
    if f.streamOffset == 0 then 1 else f.streamOffset
  }

  function Bit(b: bool): nat { if b then 1 else 0 }

  function WhiteningModes(flags: Short): nat {
    Bit(Has(flags, FLAG_PAIR_WHITENED)) + Bit(Has(flags, FLAG_WHITENED)) +
    Bit(Has(flags, FLAG_PLANE_WHITENED)) + Bit(Has(flags, FLAG_GROUP_XOR_WHITENED))
  }

  predicate GroupValid(f: Frame) {
    !Has(f.flags, FLAG_GROUP_XOR_WHITENED) ||
    (&& f.kind == BLOCK_XOR && 1 <= f.streamId <= 3 && Stride(f) <= MAX_WINDOW
     && f.windowIndex + (f.streamId - 1) * Stride(f) < f.windowCount)
  }

  // The field checks shared by encodeFrame and parseFrame.
  predicate Acceptable(f: Frame) {
    && f.session != 0
    && 1 <= f.kind <= 6
    && |f.payload| < 0x1_0000
    && f.flags & UNKNOWN_FLAGS == 0
    && WhiteningModes(f.flags) <= 1
    && (Has(f.flags, FLAG_PLANE_WHITENED) ==> f.kind == PLANE_CODED)
    && GroupValid(f)
  }

  function GroupSeeds(session: nat, globalIndex: nat, count: nat, stride: nat): (r: seq<Word>)
    ensures |r| == count
  {
    seq(count, i requires 0 <= i < count => Seed(ToWord(session), ToWord(globalIndex + i * stride)))
  }

  // The whitening generators of a frame, in the order the flags are tested.
  function Seeds(f: Frame): seq<Word> {
    if Has(f.flags, FLAG_GROUP_XOR_WHITENED) then GroupSeeds(f.session, f.globalIndex, f.streamId, Stride(f))
    else if Has(f.flags, FLAG_PLANE_WHITENED) then GroupSeeds(f.session, f.streamId, 1, 1)
    else if Has(f.flags, FLAG_PAIR_WHITENED) then GroupSeeds(f.session, f.globalIndex, 2, 1)
    else if Has(f.flags, FLAG_WHITENED) then GroupSeeds(f.session, f.globalIndex, 1, 1)
    else []
  }

  const MAGIC: Bytes := [0x44, 0x51, 0x52, 0x31]

  // The 48 header bytes around the two checksum fields.
  function HeaderBytes(f: Frame, length: U16, payloadCrc: Bytes, headerCrc: Bytes): (r: Bytes)
    requires |payloadCrc| == 4 && |headerCrc| == 4
    ensures |r| == HEADER
  {
    MAGIC + [1, ToByte(f.kind)] + PutFlags(f.flags) +
    Put32(f.session) + Put32(f.window) + Put32(f.globalIndex) +
    Put16(f.windowIndex) + Put16(f.windowCount) +
    Put32(f.streamId) + Put32(f.streamOffset) +
    Put16(length) + Put16(HEADER) +
    payloadCrc + headerCrc + [0, 0, 0, 0]
  }

  function Sealed(f: Frame, wire: Bytes): (r: Bytes)
    requires |wire| < 0x1_0000
    ensures |r| == HEADER + |wire|
  {
    var pcrc := PutWord(Crc(wire));
    HeaderBytes(f, |wire|, pcrc, PutWord(Crc(HeaderBytes(f, |wire|, pcrc, [0, 0, 0, 0])))) + wire
  }

  // encodeFrame.
  function EncodeFrame(f: Frame): Result<Bytes> {
    if !Acceptable(f) then Err else Ok(Sealed(f, Whiten(f.payload, Seeds(f))))
  }

  // The fields as they stand in a raw string of at least 48 bytes.
  function Fields(raw: Bytes): Frame
    requires |raw| >= HEADER
  {
    Frame(Val(raw[5]), GetFlags(raw[6..8]), Get32(raw[8..12]), Get32(raw[12..16]), Get32(raw[16..20]),
          Get16(raw[20..22]), Get16(raw[22..24]), Get32(raw[24..28]), Get32(raw[28..32]), raw[HEADER..])
  }

  // parseFrame: every check fails with the same exception.
  function ParseFrame(raw: Bytes): Result<Frame> {
    if |raw| < HEADER then Err
    else if raw[..4] != MAGIC then Err
    else
      var w := Fields(raw);
      if raw[4] != 1 || Get16(raw[34..36]) != HEADER || raw[44..48] != [0, 0, 0, 0] ||
         |raw| != HEADER + Get16(raw[32..34]) || !Acceptable(w) then Err
      else if PutWord(Crc(raw[..40] + [0, 0, 0, 0] + raw[44..HEADER])) != raw[40..44] then Err
      else if PutWord(Crc(w.payload)) != raw[36..40] then Err
      else Ok(w.(payload := Whiten(w.payload, Seeds(w))))
  }

  lemma HeaderSlices(f: Frame, length: U16, p: Bytes, h: Bytes)
    requires |p| == 4 && |h| == 4
    ensures var b := HeaderBytes(f, length, p, h);
            && b[..4] == MAGIC && b[4] == 1 && b[5] == ToByte(f.kind)
            && b[6..8] == PutFlags(f.flags)
            && b[8..12] == Put32(f.session) && b[12..16] == Put32(f.window) && b[16..20] == Put32(f.globalIndex)
            && b[20..22] == Put16(f.windowIndex) && b[22..24] == Put16(f.windowCount)
            && b[24..28] == Put32(f.streamId) && b[28..32] == Put32(f.streamOffset)
            && b[32..34] == Put16(length) && b[34..36] == Put16(HEADER)
            && b[36..40] == p && b[40..44] == h && b[44..48] == [0, 0, 0, 0]
  {
    hide Put32, Put16, PutFlags, ToByte;
  }

  lemma FieldsOfHeader(f: Frame, wire: Bytes, p: Bytes, h: Bytes)
    requires |p| == 4 && |h| == 4 && |wire| < 0x1_0000
    ensures var raw := HeaderBytes(f, |wire|, p, h) + wire;
            && Fields(raw) == f.(payload := wire)
            && Get16(raw[32..34]) == |wire| && Get16(raw[34..36]) == HEADER
            && raw[..4] == MAGIC && raw[4] == 1 && raw[44..48] == [0, 0, 0, 0]
            && raw[36..40] == p && raw[40..44] == h
  {
    hide Put32, Put16, PutFlags, ToByte, Get32, Get16, GetFlags, Val, HeaderBytes;
    HeaderSlices(f, |wire|, p, h);
    var b := HeaderBytes(f, |wire|, p, h);
    var raw := b + wire;
    assert raw[HEADER..] == wire;
    assert forall i, j :: 0 <= i <= j <= HEADER ==> raw[i..j] == b[i..j];
    assert raw[5] == b[5] && raw[4] == b[4];
    ToByteVal(f.kind);
    GetFlagsPut(f.flags);
    Get32Put(f.session); Get32Put(f.window); Get32Put(f.globalIndex);
    Get16Put(f.windowIndex); Get16Put(f.windowCount);
    Get32Put(f.streamId); Get32Put(f.streamOffset);
    Get16Put(|wire|); Get16Put(HEADER);
  }

  lemma AcceptableWire(f: Frame, wire: Bytes)
    requires |wire| == |f.payload|
    ensures Acceptable(f.(payload := wire)) == Acceptable(f)
    ensures Seeds(f.(payload := wire)) == Seeds(f)
  {}

  // The receiver reads back every field and the plain payload of any frame the
  // encoder accepts.
  lemma ParseEncode(f: Frame)
    requires Acceptable(f)
    ensures EncodeFrame(f).Ok? && ParseFrame(EncodeFrame(f).value) == Ok(f)
  {
    hide *;
    AcceptableDef(f);
    var wire := Whiten(f.payload, Seeds(f));
    var raw := Sealed(f, wire);
    SealedParts(f, wire);
    AcceptableWire(f, wire);
    WhitenTwice(f.payload, Seeds(f));
    ParseDef(raw);
    assert f.(payload := wire).(payload := f.payload) == f;
  }

  lemma AcceptableDef(f: Frame)
    requires Acceptable(f)
    ensures |f.payload| < 0x1_0000
    ensures EncodeFrame(f) == Ok(Sealed(f, Whiten(f.payload, Seeds(f))))
  {
    hide Has, Seeds, Whiten, GroupValid, WhiteningModes, Sealed;
  }

  // parseFrame as one condition.
  ghost predicate WellSealed(raw: Bytes) {
    && |raw| >= HEADER && raw[..4] == MAGIC && raw[4] == 1 && Get16(raw[34..36]) == HEADER
    && raw[44..48] == [0, 0, 0, 0] && |raw| == HEADER + Get16(raw[32..34])
    && Acceptable(Fields(raw))
    && raw[40..44] == PutWord(Crc(raw[..40] + [0, 0, 0, 0] + raw[44..HEADER]))
    && raw[36..40] == PutWord(Crc(raw[HEADER..]))
  }

  lemma ParseDef(raw: Bytes)
    ensures ParseFrame(raw).Ok? <==> WellSealed(raw)
    ensures WellSealed(raw) ==>
              ParseFrame(raw) == Ok(Fields(raw).(payload := Whiten(raw[HEADER..], Seeds(Fields(raw)))))
  {
    hide Acceptable, Seeds, Whiten, Crc, PutWord, Get16, Get32, GetFlags, Val;
  }

  lemma SealedParts(f: Frame, wire: Bytes)
    requires |wire| < 0x1_0000
    ensures var raw := Sealed(f, wire);
            && Fields(raw) == f.(payload := wire) && raw[HEADER..] == wire
            && (Acceptable(f.(payload := wire)) ==> WellSealed(raw))
  {
    hide HeaderBytes, Crc, PutWord, Acceptable, Sealed, Fields, Get16;
    var p := PutWord(Crc(wire));
    var z := HeaderBytes(f, |wire|, p, [0, 0, 0, 0]);
    var h := PutWord(Crc(z));
    var b := HeaderBytes(f, |wire|, p, h);
    var raw := b + wire;
    assert Sealed(f, wire) == raw by { SealedDef(f, wire); }
    FieldsOfHeader(f, wire, p, h);
    HeaderExceptCrc(f, |wire|, p, h);
    assert raw[HEADER..] == wire;
    assert raw[..40] == b[..40] && raw[44..HEADER] == b[44..];
  }

  lemma SealedDef(f: Frame, wire: Bytes)
    requires |wire| < 0x1_0000
    ensures var p := PutWord(Crc(wire));
            Sealed(f, wire) == HeaderBytes(f, |wire|, p, PutWord(Crc(HeaderBytes(f, |wire|, p, [0, 0, 0, 0])))) + wire
  {
    hide HeaderBytes, Crc, PutWord;
  }

  lemma HeaderExceptCrc(f: Frame, length: U16, p: Bytes, h: Bytes)
    requires |p| == 4 && |h| == 4
    ensures var b := HeaderBytes(f, length, p, h);
            HeaderBytes(f, length, p, [0, 0, 0, 0]) == b[..40] + [0, 0, 0, 0] + b[44..]
  {
    hide Put32, Put16, PutFlags, ToByte;
  }

  lemma HeaderFromSlices(raw: Bytes)
    requires |raw| >= HEADER && raw[..4] == MAGIC && raw[4] == 1
    requires Get16(raw[34..36]) == HEADER && raw[44..48] == [0, 0, 0, 0]
    ensures HeaderBytes(Fields(raw), Get16(raw[32..34]), raw[36..40], raw[40..44]) == raw[..HEADER]
  {
    hide Put32, Put16, PutFlags, ToByte, Get32, Get16, GetFlags, Val;
    Put16Get(raw[34..36]);
    Put16Get(raw[32..34]);
    PutFlagsGet(raw[6..8]);
    ValToByte(raw[5]);
    Put32Get(raw[8..12]); Put32Get(raw[12..16]); Put32Get(raw[16..20]);
    Put16Get(raw[20..22]); Put16Get(raw[22..24]);
    Put32Get(raw[24..28]); Put32Get(raw[28..32]);
    var b := HeaderBytes(Fields(raw), Get16(raw[32..34]), raw[36..40], raw[40..44]);
    assert b == raw[..4] + [raw[4], raw[5]] + raw[6..8] + raw[8..12] + raw[12..16] + raw[16..20] +
                raw[20..22] + raw[22..24] + raw[24..28] + raw[28..32] + raw[32..34] + raw[34..36] +
                raw[36..40] + raw[40..44] + raw[44..48];
  }

  // Nothing else parses: an accepted string is the encoding of what was read.
  lemma EncodeParse(raw: Bytes)
    requires ParseFrame(raw).Ok?
    ensures EncodeFrame(ParseFrame(raw).value) == Ok(raw)
  {
    hide HeaderBytes, Crc, PutWord, Acceptable, Sealed, Fields, Get16, Whiten, Seeds;
    ParseDef(raw);
    var w := Fields(raw);
    var wire := raw[HEADER..];
    assert w.payload == wire && |wire| == Get16(raw[32..34]) by { FieldsPayload(raw); }
    var f := w.(payload := Whiten(wire, Seeds(w)));
    AcceptableWire(w, f.payload);
    WhitenTwice(wire, Seeds(w));
    AcceptableDef(f);
    HeaderFromSlices(raw);
    SameHeader(f, w, |wire|, raw[36..40], raw[40..44]);
    SameHeader(f, w, |wire|, raw[36..40], [0, 0, 0, 0]);
    HeaderExceptCrc(w, |wire|, raw[36..40], raw[40..44]);
    assert raw[..HEADER][..40] == raw[..40] && raw[..HEADER][44..] == raw[44..HEADER];
    SealedDef(f, wire);
    assert raw == raw[..HEADER] + wire;
  }

  lemma FieldsPayload(raw: Bytes)
    requires |raw| >= HEADER
    ensures Fields(raw).payload == raw[HEADER..]
  {
    hide Get32, Get16, GetFlags, Val;
  }

  lemma SameHeader(f: Frame, g: Frame, length: U16, p: Bytes, h: Bytes)
    requires |p| == 4 && |h| == 4 && f == g.(payload := f.payload)
    ensures HeaderBytes(f, length, p, h) == HeaderBytes(g, length, p, h)
  {
    hide Put32, Put16, PutFlags, ToByte;
  }

  // ----- records

  datatype Record = Record(kind: U8, recordId: U32, fileId: U32, body: Bytes)

  const RECORD_MAGIC: Bytes := [0x44, 0x51, 0x52, 0x43]

  predicate GoodRecord(r: Record) {
    1 <= r.kind <= 6 && |r.body| < 0x1_0000_0000
  }

  // make_record, and the part of dos32_record before the zero fill.
  function EncodeRecord(r: Record): (b: Bytes)
    requires GoodRecord(r)
    ensures |b| == RECORD_HEADER + |r.body|
  {
    RECORD_MAGIC + [1, ToByte(r.kind)] + [0, 0] + Put32(r.recordId) + Put32(r.fileId) +
    Put32(|r.body|) + PutWord(Crc(r.body)) + r.body
  }

  function ParseRecord(raw: Bytes): Result<Record> {
    if |raw| < RECORD_HEADER then Err
    else if raw[..4] != RECORD_MAGIC || raw[4] != 1 || Val(raw[5]) < 1 || Val(raw[5]) > 6 ||
            raw[6..8] != [0, 0] || Get32(raw[16..20]) != |raw| - RECORD_HEADER then Err
    else if PutWord(Crc(raw[RECORD_HEADER..])) != raw[20..24] then Err
    else Ok(Record(Val(raw[5]), Get32(raw[8..12]), Get32(raw[12..16]), raw[RECORD_HEADER..]))
  }

  // Where the fields of an encoded record sit, whatever follows it.
  lemma RecordSlices(r: Record, rest: Bytes)
    requires GoodRecord(r)
    ensures var b := EncodeRecord(r) + rest;
            && b[..4] == RECORD_MAGIC && b[4] == 1 && b[5] == ToByte(r.kind) && b[6..8] == [0, 0]
            && b[8..12] == Put32(r.recordId) && b[12..16] == Put32(r.fileId) && b[16..20] == Put32(|r.body|)
            && b[20..24] == PutWord(Crc(r.body)) && b[RECORD_HEADER..] == r.body + rest
  {
    hide Put32, PutWord, Crc, ToByte;
  }

  lemma ParseEncodeRecord(r: Record)
    requires GoodRecord(r)
    ensures ParseRecord(EncodeRecord(r)) == Ok(r)
  {
    hide Put32, Get32, PutWord, Crc, ToByte, Val, EncodeRecord;
    RecordSlices(r, []);
    assert EncodeRecord(r) + [] == EncodeRecord(r);
    assert r.body + [] == r.body;
    ToByteVal(r.kind);
    Get32Put(r.recordId);
    Get32Put(r.fileId);
    Get32Put(|r.body|);
  }

  lemma EncodeParseRecord(raw: Bytes)
    requires ParseRecord(raw).Ok?
    ensures GoodRecord(ParseRecord(raw).value) && EncodeRecord(ParseRecord(raw).value) == raw
  {
    hide Put32, Get32, PutWord, Crc, ToByte, Val;
    ValToByte(raw[5]);
    Put32Get(raw[8..12]);
    Put32Get(raw[12..16]);
    Put32Get(raw[16..20]);
    assert raw == raw[..4] + [raw[4], raw[5]] + raw[6..8] + raw[8..12] + raw[12..16] + raw[16..20] + raw[20..24] +
                  raw[RECORD_HEADER..];
  }

  // The protected-mode sender fills every record with zeros to the fixed
  // payload size.
  const PAYLOAD: nat := 2904

  function Padded(r: Record): (b: Bytes)
    requires GoodRecord(r) && |r.body| <= PAYLOAD - RECORD_HEADER
    ensures |b| == PAYLOAD
  {
    EncodeRecord(r) + Zeros(PAYLOAD - RECORD_HEADER - |r.body|)
  }

  // trimPlaneRecord: cut a plane payload back to the length in its header.
  function Trim(payload: Bytes): Result<Bytes> {
    if |payload| < RECORD_HEADER then Err
    else
      var n := RECORD_HEADER + Get32(payload[16..20]);
      if n > |payload| then Err else Ok(payload[..n])
  }

  lemma TrimPadded(r: Record)
    requires GoodRecord(r) && |r.body| <= PAYLOAD - RECORD_HEADER
    ensures Trim(Padded(r)) == Ok(EncodeRecord(r))
  {
    hide Put32, Get32, PutWord, Crc, ToByte, Val, EncodeRecord;
    RecordSlices(r, Zeros(PAYLOAD - RECORD_HEADER - |r.body|));
    Get32Put(|r.body|);
  }

  // An ordinary DATA frame is not trimmed: the receiver takes a zero-filled
  // record only when there was nothing to fill.
  lemma PaddedParses(r: Record)
    requires GoodRecord(r) && |r.body| <= PAYLOAD - RECORD_HEADER
    ensures ParseRecord(Padded(r)).Ok? <==> |r.body| == PAYLOAD - RECORD_HEADER
  {
    hide Put32, Get32, PutWord, Crc, ToByte, Val, EncodeRecord;
    RecordSlices(r, Zeros(PAYLOAD - RECORD_HEADER - |r.body|));
    Get32Put(|r.body|);
    if |r.body| == PAYLOAD - RECORD_HEADER {
      assert Padded(r) == EncodeRecord(r);
      ParseEncodeRecord(r);
    }
  }
}
