// The wire format in numbers: where each field of a frame and of a record
// stands and what it must be, the whitening stream byte by byte, and the bits
// in front of a symbol's data.

module WireFormat {
  import opened Gf2
  import opened Crc32
  import opened Whitening
  import opened Protocol
  import V40L
  import DerivedSymbols
  import Producer
  import Schedule
  import Sender

  // ----- numbers in bytes

  // Most significant byte first.
  function BigEndian(b: Bytes): (n: nat) {
    if b == [] then 0 else 256 * BigEndian(b[..|b| - 1]) + Val(b[|b| - 1])
  }

  // A checksum, most significant byte first.
  function Checksum(b: Bytes): Word
    requires |b| == 4
  {
    ((b[0] as Word) << 24) | ((b[1] as Word) << 16) | ((b[2] as Word) << 8) | (b[3] as Word)
  }

  lemma ChecksumPut(w: Word)
    ensures Checksum(PutWord(w)) == w
  {}

  lemma One(b: Bytes)
    requires |b| == 1
    ensures BigEndian(b) == Val(b[0])
  {
    hide Val;
    assert b[..0] == [];
    assert BigEndian(b[..0]) == 0;
  }

  lemma Two(b: Bytes)
    requires |b| == 2
    ensures BigEndian(b) == Get16(b)
  {
    hide Val;
    One(b[..1]);
  }

  lemma Four(b: Bytes)
    requires |b| == 4
    ensures BigEndian(b) == Get32(b)
  {
    hide Val;
    Two(b[..2]);
    assert b[..3][..2] == b[..2] && b[..2] == [b[0], b[1]];
    assert BigEndian(b[..3]) == 256 * BigEndian(b[..2]) + Val(b[2]);
    assert Get16(b[2..]) == Val(b[2]) * 256 + Val(b[3]);
  }

  lemma Put16Is(n: U16)
    ensures BigEndian(Put16(n)) == n
  {
    hide BigEndian, Get16, Put16;
    Two(Put16(n));
    Get16Put(n);
  }

  lemma Put32Is(n: U32)
    ensures BigEndian(Put32(n)) == n
  {
    hide BigEndian, Get32, Put32;
    Four(Put32(n));
    Get32Put(n);
  }

  // ----- frames

  // Which frames there are: a session, a kind from 1 to 6, a payload of 16-bit
  // length, at most one whitening mode with the repeat bit beside it, and the
  // modes that go with one kind only.
  lemma AcceptableIs(f: Frame)
    ensures Acceptable(f) <==>
              && f.session > 0 && 1 <= f.kind <= 6 && |f.payload| < 65536
              && f.flags | 1 in {0x0001 as Short, 0x0005, 0x0009, 0x0011, 0x0021}
              && (f.flags | 1 == 0x0011 ==> f.kind == 6)
              && (f.flags | 1 == 0x0021 ==>
                    && f.kind == 5 && 1 <= f.streamId <= 3 && f.streamOffset <= 128
                    && f.windowIndex + (f.streamId - 1) * (if f.streamOffset == 0 then 1 else f.streamOffset) < f.windowCount)
  {
    FlagSet(f.flags);
    hide Has, WhiteningModes;
  }

  lemma FlagSet(flags: Short)
    ensures flags & UNKNOWN_FLAGS == 0 && WhiteningModes(flags) <= 1 <==>
              flags | 1 in {0x0001 as Short, 0x0005, 0x0009, 0x0011, 0x0021}
    ensures flags & UNKNOWN_FLAGS == 0 && WhiteningModes(flags) <= 1 ==>
              && (Has(flags, FLAG_PLANE_WHITENED) <==> flags | 1 == 0x0011)
              && (Has(flags, FLAG_GROUP_XOR_WHITENED) <==> flags | 1 == 0x0021)
              && (Has(flags, FLAG_PAIR_WHITENED) <==> flags | 1 == 0x0005)
              && (Has(flags, FLAG_WHITENED) <==> flags | 1 == 0x0009)
  {}

  // Every field of a frame in its place, big-endian.
  predicate HeaderIs(raw: Bytes, f: Frame)
    requires |raw| >= 48
  {
    && raw[..4] == [0x44, 0x51, 0x52, 0x31] && raw[4] == 1
    && BigEndian(raw[5..6]) == f.kind && raw[6] == (f.flags >> 8) as Byte && raw[7] == (f.flags & 0xFF) as Byte
    && BigEndian(raw[8..12]) == f.session && BigEndian(raw[12..16]) == f.window && BigEndian(raw[16..20]) == f.globalIndex
    && BigEndian(raw[20..22]) == f.windowIndex && BigEndian(raw[22..24]) == f.windowCount
    && BigEndian(raw[24..28]) == f.streamId && BigEndian(raw[28..32]) == f.streamOffset
    && BigEndian(raw[32..34]) == |f.payload| && BigEndian(raw[34..36]) == 48 && raw[44..48] == [0, 0, 0, 0]
  }

  // The checksum of the payload on the wire, and that of the header with its
  // own field zero.
  predicate ChecksumsAre(raw: Bytes)
    requires |raw| >= 48
  {
    && Checksum(raw[36..40]) == Crc(raw[48..])
    && Checksum(raw[40..44]) == Crc(raw[..40] + [0, 0, 0, 0] + raw[44..48])
  }

  lemma FrameLayout(f: Frame)
    requires Acceptable(f)
    ensures EncodeFrame(f).Ok? && |EncodeFrame(f).value| == 48 + |f.payload|
    ensures HeaderIs(EncodeFrame(f).value, f) && ChecksumsAre(EncodeFrame(f).value)
    ensures forall i :: 0 <= i < |f.payload| ==> EncodeFrame(f).value[48 + i] == Add(f.payload[i], KeyByte(Seeds(f), i))
  {
    AcceptableDef(f);
    hide Acceptable, Seeds, HeaderIs, ChecksumsAre, Crc, PutWord, HeaderBytes, KeyByte, Sealed;
    var wire := Whiten(f.payload, Seeds(f));
    SealedLayout(f, wire);
    assert Sealed(f, wire)[48..] == wire by { SealedDef(f, wire); }
  }

  lemma SealedLayout(f: Frame, wire: Bytes)
    requires |wire| == |f.payload| < 0x1_0000
    ensures HeaderIs(Sealed(f, wire), f) && ChecksumsAre(Sealed(f, wire)) && Sealed(f, wire)[48..] == wire
  {
    hide BigEndian, Put16, Put32, Crc, PutWord, ToByte, Checksum, HeaderBytes, Val, ChecksumsAre;
    var p := PutWord(Crc(wire));
    var h := PutWord(Crc(HeaderBytes(f, |wire|, p, [0, 0, 0, 0])));
    var b := HeaderBytes(f, |wire|, p, h);
    var raw := Sealed(f, wire);
    assert raw == b + wire;
    HeaderSlices(f, |wire|, p, h);
    assert forall i, j :: 0 <= i <= j <= 48 ==> raw[i..j] == b[i..j];
    assert raw[48..] == wire && raw[4] == b[4] && raw[5] == b[5];
    NumbersIn(f, |wire|);
    KindIn(raw, f.kind);
    FlagsIn(raw, f.flags);
    SealedChecksums(f, wire, p, h);
  }

  lemma SealedChecksums(f: Frame, wire: Bytes, p: Bytes, h: Bytes)
    requires |wire| < 0x1_0000 && p == PutWord(Crc(wire)) && h == PutWord(Crc(HeaderBytes(f, |wire|, p, [0, 0, 0, 0])))
    ensures ChecksumsAre(HeaderBytes(f, |wire|, p, h) + wire)
  {
    hide Put16, Put32, Crc, PutWord, ToByte, Checksum, HeaderBytes, Val;
    var b := HeaderBytes(f, |wire|, p, h);
    var raw := b + wire;
    HeaderSlices(f, |wire|, p, h);
    HeaderExceptCrc(f, |wire|, p, h);
    ChecksumPut(Crc(wire));
    ChecksumPut(Crc(HeaderBytes(f, |wire|, p, [0, 0, 0, 0])));
    assert raw[36..40] == b[36..40] == p && raw[40..44] == b[40..44] == h && raw[48..] == wire;
    assert raw[..40] == b[..40] && raw[44..48] == b[44..48];
  }

  lemma NumbersIn(f: Frame, length: U16)
    ensures BigEndian(Put32(f.session)) == f.session && BigEndian(Put32(f.window)) == f.window
    ensures BigEndian(Put32(f.globalIndex)) == f.globalIndex && BigEndian(Put16(f.windowIndex)) == f.windowIndex
    ensures BigEndian(Put16(f.windowCount)) == f.windowCount && BigEndian(Put32(f.streamId)) == f.streamId
    ensures BigEndian(Put32(f.streamOffset)) == f.streamOffset && BigEndian(Put16(length)) == length && BigEndian(Put16(48)) == 48
  {
    hide BigEndian, Put16, Put32;
    Put32Is(f.session); Put32Is(f.window); Put32Is(f.globalIndex); Put32Is(f.streamId); Put32Is(f.streamOffset);
    Put16Is(f.windowIndex); Put16Is(f.windowCount); Put16Is(length); Put16Is(48);
  }

  lemma KindIn(raw: Bytes, kind: U8)
    requires |raw| >= 6 && raw[5] == ToByte(kind)
    ensures BigEndian(raw[5..6]) == kind
  {
    hide Val, ToByte;
    One(raw[5..6]);
    ToByteVal(kind);
  }

  lemma FlagsIn(raw: Bytes, flags: Short)
    requires |raw| >= 8 && raw[6..8] == PutFlags(flags)
    ensures raw[6] == (flags >> 8) as Byte && raw[7] == (flags & 0xFF) as Byte
  {
    assert raw[6] == raw[6..8][0] && raw[7] == raw[6..8][1];
  }

  // Which generators whiten a payload.
  lemma SeedsAre(f: Frame)
    requires Acceptable(f)
    ensures var flags := f.flags | 1; var session := ToWord(f.session);
            && (flags == 0x0001 ==> Seeds(f) == [])
            && (flags == 0x0009 ==> Seeds(f) == [Seed(session, ToWord(f.globalIndex))])
            && (flags == 0x0005 ==> Seeds(f) == [Seed(session, ToWord(f.globalIndex)), Seed(session, ToWord(f.globalIndex + 1))])
            && (flags == 0x0011 ==> Seeds(f) == [Seed(session, ToWord(f.streamId))])
            && (flags == 0x0021 ==> |Seeds(f)| == f.streamId && forall i :: 0 <= i < f.streamId ==>
                  Seeds(f)[i] == Seed(session, ToWord(f.globalIndex + i * (if f.streamOffset == 0 then 1 else f.streamOffset))))
  {
    FlagSet(f.flags);
    hide Has, WhiteningModes, Seed, ToWord;
  }

  // The frame of a tail record: named by the record's own file and offset.
  lemma TailFields(c: Sender.Config, i: nat)
    requires Schedule.GoodPlan(c.plan) && |c.records| == c.plan.total && i < c.plan.total && |c.records[i]| == PAYLOAD
    ensures var f, r := Sender.TailFrame(c, i), c.records[i];
            && f.kind == 1 && f.flags == 0x0008 && f.session == c.session && f.globalIndex == i && f.payload == r
            && f.window == i / c.plan.window && f.windowIndex == i % c.plan.window
            && f.streamId == (if 3 <= Val(r[5]) <= 5 then BigEndian(r[12..16]) else 0)
            && f.streamOffset == (if Val(r[5]) == 4 then BigEndian(r[24..28]) else 0)
  {
    hide BigEndian, Get32, Val;
    Four(c.records[i][12..16]);
    Four(c.records[i][24..28]);
  }

  // ----- the whitening stream

  // The first four key words of one generator.
  lemma FirstWords(seed: Word, a: Word, b: Word, c: Word, d: Word)
    requires a == Xorshift(seed) && b == Xorshift(a) && c == Xorshift(b) && d == Xorshift(c)
    ensures State(seed, 1) == a && State(seed, 2) == b && State(seed, 3) == c && State(seed, 4) == d
  {
    hide Xorshift;
    assert State(seed, 0) == seed;
    assert State(seed, 1) == Xorshift(State(seed, 0));
    assert State(seed, 2) == Xorshift(State(seed, 1));
    assert State(seed, 3) == Xorshift(State(seed, 2));
    assert State(seed, 4) == Xorshift(State(seed, 3));
  }

  lemma NextWord(seeds: seq<Word>, k: nat)
    ensures Stream(seeds, 4 * k + 4) == Stream(seeds, 4 * k) + Store(KeyWord(seeds, k))
  {
    hide Store, KeyWord;
    var l, r := Stream(seeds, 4 * k + 4), Stream(seeds, 4 * k) + Store(KeyWord(seeds, k));
    forall i | 0 <= i < 4 * k + 4 ensures l[i] == r[i] {
      if i >= 4 * k { assert i / 4 == k && i % 4 == i - 4 * k; }
    }
  }

  lemma FourWords(seeds: seq<Word>, a: Word, b: Word, c: Word, d: Word)
    requires KeyWord(seeds, 0) == a && KeyWord(seeds, 1) == b && KeyWord(seeds, 2) == c && KeyWord(seeds, 3) == d
    ensures Stream(seeds, 16) == Store(a) + Store(b) + Store(c) + Store(d)
  {
    hide Store, KeyWord, Stream;
    assert Stream(seeds, 0) == [];
    NextWord(seeds, 0);
    NextWord(seeds, 1);
    NextWord(seeds, 2);
    NextWord(seeds, 3);
  }

  lemma OneKey(seed: Word, k: nat)
    ensures KeyWord([seed], k) == State(seed, k + 1)
  {
    assert [seed][..0] == [];
    PlusZero(State(seed, k + 1));
  }

  // The vector every part of the system checks itself against: session
  // 6A67C69D, record 4.
  lemma WhiteningVector()
    ensures Stream([Seed(0x6A67C69D, 4)], 16) ==
            [0x9D, 0x3B, 0x19, 0x23, 0xA8, 0xAC, 0x39, 0x89, 0x3E, 0xAD, 0x32, 0x29, 0xF4, 0x3D, 0x3F, 0xEE]
  {
    assert Seed(0x6A67C69D, 4) == 0xC2E5C15A;
    assert Xorshift(0xC2E5C15A) == 0x23193B9D;
    assert Xorshift(0x23193B9D) == 0x8939ACA8;
    assert Xorshift(0x8939ACA8) == 0x2932AD3E;
    assert Xorshift(0x2932AD3E) == 0xEE3F3DF4;
    VectorWords();
    hide Seed, Xorshift, Store, KeyWord, State;
    var seed := Seed(0x6A67C69D, 4);
    FirstWords(seed, 0x23193B9D, 0x8939ACA8, 0x2932AD3E, 0xEE3F3DF4);
    OneKey(seed, 0); OneKey(seed, 1); OneKey(seed, 2); OneKey(seed, 3);
    FourWords([seed], 0x23193B9D, 0x8939ACA8, 0x2932AD3E, 0xEE3F3DF4);
  }

  lemma VectorWords()
    ensures Store(0x23193B9D) == [0x9D, 0x3B, 0x19, 0x23] && Store(0x8939ACA8) == [0xA8, 0xAC, 0x39, 0x89]
    ensures Store(0x2932AD3E) == [0x3E, 0xAD, 0x32, 0x29] && Store(0xEE3F3DF4) == [0xF4, 0x3D, 0x3F, 0xEE]
  {}

  // And the one of a stride group: records 120, 123 and 126.
  lemma GroupWhiteningVector()
    ensures Stream([Seed(0x6A67C69D, 120), Seed(0x6A67C69D, 123), Seed(0x6A67C69D, 126)], 16) ==
            [0x3C, 0x72, 0x76, 0xA9, 0x24, 0xF5, 0x09, 0x81, 0xB2, 0x74, 0x08, 0x4A, 0x5D, 0xC9, 0x5C, 0xD7]
  {
    Generators();
    GroupWords();
    hide Seed, Xorshift, Store, KeyWord, State, Plus;
    var a, b, c := Seed(0x6A67C69D, 120), Seed(0x6A67C69D, 123), Seed(0x6A67C69D, 126);
    FirstWords(a, 0x162FC2CA, 0x20A84BD1, 0x139D9838, 0xB3C3C6D5);
    FirstWords(b, 0xF78E0C37, 0xF7161153, 0x92B1126D, 0xAF61A873);
    FirstWords(c, 0x48D7BCC1, 0x56B7AFA6, 0xCB24FEE7, 0xCBFEA7FB);
    ThreeKeys(a, b, c, 0); ThreeKeys(a, b, c, 1); ThreeKeys(a, b, c, 2); ThreeKeys(a, b, c, 3);
    FourWords([a, b, c], 0xA976723C, 0x8109F524, 0x4A0874B2, 0xD75CC95D);
  }

  lemma Generators()
    ensures Seed(0x6A67C69D, 120) == 0x90392906 && Seed(0x6A67C69D, 123) == 0xBE9F5C5D && Seed(0x6A67C69D, 126) == 0x6575CEB0
    ensures Xorshift(0x90392906) == 0x162FC2CA && Xorshift(0x162FC2CA) == 0x20A84BD1
    ensures Xorshift(0x20A84BD1) == 0x139D9838 && Xorshift(0x139D9838) == 0xB3C3C6D5
    ensures Xorshift(0xBE9F5C5D) == 0xF78E0C37 && Xorshift(0xF78E0C37) == 0xF7161153
    ensures Xorshift(0xF7161153) == 0x92B1126D && Xorshift(0x92B1126D) == 0xAF61A873
    ensures Xorshift(0x6575CEB0) == 0x48D7BCC1 && Xorshift(0x48D7BCC1) == 0x56B7AFA6
    ensures Xorshift(0x56B7AFA6) == 0xCB24FEE7 && Xorshift(0xCB24FEE7) == 0xCBFEA7FB
  {}

  lemma GroupWords()
    ensures Plus(Plus(0x162FC2CA, 0xF78E0C37), 0x48D7BCC1) == 0xA976723C && Plus(Plus(0x20A84BD1, 0xF7161153), 0x56B7AFA6) == 0x8109F524
    ensures Plus(Plus(0x139D9838, 0x92B1126D), 0xCB24FEE7) == 0x4A0874B2 && Plus(Plus(0xB3C3C6D5, 0xAF61A873), 0xCBFEA7FB) == 0xD75CC95D
    ensures Store(0xA976723C) == [0x3C, 0x72, 0x76, 0xA9] && Store(0x8109F524) == [0x24, 0xF5, 0x09, 0x81]
    ensures Store(0x4A0874B2) == [0xB2, 0x74, 0x08, 0x4A] && Store(0xD75CC95D) == [0x5D, 0xC9, 0x5C, 0xD7]
  {}

  lemma ThreeKeys(a: Word, b: Word, c: Word, k: nat)
    ensures KeyWord([a, b, c], k) == Plus(Plus(State(a, k + 1), State(b, k + 1)), State(c, k + 1))
  {
    hide Plus, State;
    assert [a, b, c][..2] == [a, b] && [a, b][..1] == [a];
    OneKey(a, k);
    KeyWordAppend([a], b, k);
    KeyWordAppend([a, b], c, k);
  }

  // ----- records

  // Every field of a record in its place.
  predicate RecordIs(raw: Bytes, r: Record)
    requires |raw| >= 24
  {
    && raw[..4] == [0x44, 0x51, 0x52, 0x43] && raw[4] == 1 && BigEndian(raw[5..6]) == r.kind && raw[6..8] == [0, 0]
    && BigEndian(raw[8..12]) == r.recordId && BigEndian(raw[12..16]) == r.fileId && BigEndian(raw[16..20]) == |r.body|
    && Checksum(raw[20..24]) == Crc(r.body) && raw[24..] == r.body
  }

  lemma RecordLayout(r: Record)
    requires GoodRecord(r)
    ensures |EncodeRecord(r)| == 24 + |r.body| && RecordIs(EncodeRecord(r), r)
  {
    hide Put32, PutWord, Crc, ToByte, EncodeRecord, BigEndian, Checksum;
    RecordSlices(r, []);
    assert EncodeRecord(r) + [] == EncodeRecord(r) && r.body + [] == r.body;
    Put32Is(r.recordId); Put32Is(r.fileId); Put32Is(|r.body|);
    ChecksumPut(Crc(r.body));
    KindIn(EncodeRecord(r), r.kind);
  }

  // What the records of a transfer say, byte by byte.
  lemma MetaLayout(e: Producer.Entry)
    requires |e.path| < Producer.PATH_BYTES
    ensures var b, at := Producer.Meta(e), if e.directory then 8 else 12;
            && |b| == at + |e.path| && b[0] == e.attributes && b[1] == 0
            && BigEndian(b[2..4]) == e.date && BigEndian(b[4..6]) == e.time
            && (!e.directory ==> BigEndian(b[6..10]) == e.size)
            && BigEndian(b[at - 2..at]) == |e.path| && b[at..] == e.path
  {
    hide Put16, Put32, BigEndian;
    Put16Is(e.date); Put16Is(e.time); Put16Is(|e.path|); Put32Is(e.size);
    var b := Producer.Meta(e);
    assert b[2..4] == Put16(e.date) && b[4..6] == Put16(e.time);
    if e.directory {
      assert b[6..8] == Put16(|e.path|) && b[8..] == e.path;
    } else {
      assert b[6..10] == Put32(e.size) && b[10..12] == Put16(|e.path|) && b[12..] == e.path;
    }
  }

  lemma SessionLayout(now: U32)
    ensures var i := Producer.SessionItem(now);
            && i.kind == 1 && i.fileId == 0 && |i.body| == 12
            && BigEndian(i.body[..4]) == now && BigEndian(i.body[4..6]) == 6
            && i.body[6..] == [0x44, 0x4F, 0x53, 0x46, 0x45, 0x52]
  {
    hide Put16, Put32, BigEndian;
    Put16Is(6);
    Put32Is(now);
    var b := Producer.SessionItem(now).body;
    assert b[..4] == Put32(now) && b[4..6] == Put16(6) && b[6..] == Producer.NAME;
  }

  // ----- in front of the data of a symbol

  // The half bytes of a symbol's data: ECI 3, byte mode, and the number of
  // bytes (ISO/IEC 18004:2015, sections 7.4.2 and 7.4.5).
  predicate Announces(codewords: Bytes, length: nat)
    requires |codewords| >= 4
  {
    && Val(codewords[0]) / 16 == 7
    && Val(codewords[0]) % 16 * 16 + Val(codewords[1]) / 16 == 3
    && Val(codewords[1]) % 16 == 4
    && BigEndian(codewords[2..4]) == length
  }

  lemma PrefixAnnounces(length: nat)
    requires length <= 2952
    ensures Announces(DerivedSymbols.Prefix(length), length)
    ensures V40L.PREFIX == DerivedSymbols.Prefix(2952)
  {
    hide BigEndian, Put16;
    Put16Is(length);
    var p := DerivedSymbols.Prefix(length);
    assert p[2..4] == Put16(length);
    FullLength();
  }

  lemma FullLength()
    ensures Put16(2952) == [0x0B, 0x88]
  {}

  // A packed frame: the announcement, the frame, a terminator and the pad bytes
  // EC and 11 in turn (section 7.4.10).
  lemma PackedReads(wire: Bytes)
    requires |wire| <= 2952
    ensures var c := DerivedSymbols.Packed(wire);
            && |c| == 2956 && Announces(c, |wire|) && c[4..4 + |wire|] == wire
            && (|wire| < 2952 ==> c[4 + |wire|] == 0)
            && forall i :: 4 + |wire| < i < 2956 ==> c[i] == if (i - |wire|) % 2 == 1 then 0xEC else 0x11
  {
    hide BigEndian, Put16;
    var c := DerivedSymbols.Packed(wire);
    PrefixAnnounces(|wire|);
    assert c[2..4] == DerivedSymbols.Prefix(|wire|)[2..4];
  }
}
