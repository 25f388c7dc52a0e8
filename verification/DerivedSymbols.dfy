// sender.c: chain and stride-group parity symbols derived from the codewords of
// the DATA symbols that were already encoded, and the checksum shortcut of a
// full-size chain frame.

module DerivedSymbols {
  import opened Gf2
  import opened Crc32
  import opened Whitening
  import opened Protocol
  import opened V40L
  import opened PlaneParity

  // DATA frames of one payload size, each `stride` records after the one before.
  datatype Members = Members(session: U32, first: U32, stride: nat, size: nat, records: seq<Bytes>)

  ghost predicate GoodMembers(m: Members) {
    && 1 <= |m.records| <= 3 && 1 <= m.stride <= MAX_WINDOW && m.size <= PAYLOAD
    && forall i :: 0 <= i < |m.records| ==> |m.records[i]| == m.size
  }

  predicate IsData(m: Members, f: Frame, i: nat)
    requires i < |m.records|
  {
    && f.kind == DATA && f.flags == FLAG_WHITENED && f.session == m.session
    && f.globalIndex == m.first + i * m.stride && f.payload == m.records[i]
  }

  // A chain frame (pairs of neighbours) or a stride-group block frame.
  predicate IsParity(m: Members, f: Frame)
    requires forall i :: 0 <= i < |m.records| ==> |m.records[i]| == m.size
  {
    && f.session == m.session && f.globalIndex == m.first && f.payload == XorAll(m.records, m.size)
    && (|| (f.kind == CHAIN_XOR && f.flags == FLAG_PAIR_WHITENED && |m.records| == 2 && m.stride == 1)
        || (f.kind == BLOCK_XOR && f.flags == FLAG_GROUP_XOR_WHITENED && f.streamId == |m.records| && f.streamOffset == m.stride))
  }

  // A frame as it goes out.
  function Sent(f: Frame): (r: Bytes)
    requires |f.payload| <= PAYLOAD
    ensures |r| == HEADER + |f.payload|
  {
    Sealed(f, Whiten(f.payload, Seeds(f)))
  }

  // Header and payload parts of frames of one size.
  function Heads(wires: seq<Bytes>, size: nat): (r: seq<Bytes>)
    requires AllLong(wires, size)
    ensures |r| == |wires| && forall i :: 0 <= i < |r| ==> |r[i]| == HEADER && r[i] == wires[i][..HEADER]
  {
    seq(|wires|, i requires 0 <= i < |wires| => wires[i][..HEADER])
  }

  function Bodies(wires: seq<Bytes>, size: nat): (r: seq<Bytes>)
    requires AllLong(wires, size)
    ensures |r| == |wires| && forall i :: 0 <= i < |r| ==> |r[i]| == size && r[i] == wires[i][HEADER..]
  {
    seq(|wires|, i requires 0 <= i < |wires| => wires[i][HEADER..])
  }

  predicate AllLong(wires: seq<Bytes>, size: nat) {
    forall i :: 0 <= i < |wires| ==> |wires[i]| == HEADER + size
  }

  lemma Flags()
    ensures Has(FLAG_WHITENED, FLAG_WHITENED) && !Has(FLAG_WHITENED, FLAG_GROUP_XOR_WHITENED)
    ensures !Has(FLAG_WHITENED, FLAG_PLANE_WHITENED) && !Has(FLAG_WHITENED, FLAG_PAIR_WHITENED)
    ensures Has(FLAG_PAIR_WHITENED, FLAG_PAIR_WHITENED) && !Has(FLAG_PAIR_WHITENED, FLAG_GROUP_XOR_WHITENED)
    ensures !Has(FLAG_PAIR_WHITENED, FLAG_PLANE_WHITENED) && Has(FLAG_GROUP_XOR_WHITENED, FLAG_GROUP_XOR_WHITENED)
  {}

  function MemberSeeds(m: Members): seq<Word> {
    GroupSeeds(m.session, m.first, |m.records|, m.stride)
  }

  lemma DataSeed(m: Members, f: Frame, i: nat)
    requires i < |m.records| && IsData(m, f, i)
    ensures Seeds(f) == [MemberSeeds(m)[i]]
  {
    hide Has;
    Flags();
  }

  lemma ParitySeeds(m: Members, f: Frame)
    requires GoodMembers(m) && IsParity(m, f)
    ensures Seeds(f) == MemberSeeds(m)
  {
    hide Has, XorAll;
    Flags();
  }

  ghost predicate Wires(m: Members, wires: seq<Bytes>, frames: seq<Frame>) {
    && |wires| == |frames| == |m.records|
    && forall i :: 0 <= i < |wires| ==> IsData(m, frames[i], i) && |frames[i].payload| <= PAYLOAD && wires[i] == Sent(frames[i])
  }

  // On the wire the parity payload is the XOR of the members' payloads as they
  // went out, each whitened by its own index.
  lemma WirePayload(m: Members, wires: seq<Bytes>, frames: seq<Frame>, f: Frame)
    requires GoodMembers(m) && Wires(m, wires, frames) && IsParity(m, f)
    ensures AllLong(wires, m.size) && |f.payload| == m.size
    ensures Sent(f)[HEADER..] == XorAll(Bodies(wires, m.size), m.size)
  {
    hide Whiten, XorAll, Seeds, GroupSeeds;
    ParitySeeds(m, f);
    var seeds := MemberSeeds(m);
    ParityOfWhitened(m.records, seeds, m.size);
    var each := WhitenEach(m.records, seeds);
    forall i | 0 <= i < |wires| ensures |wires[i]| == HEADER + m.size && wires[i][HEADER..] == each[i] {
      assert IsData(m, frames[i], i);
      DataSeed(m, frames[i], i);
    }
    assert Bodies(wires, m.size) == each;
  }

  // The checksum of a chain frame of two equally long members, without reading
  // its payload.
  lemma ChainCrc(m: Members, left: Frame, right: Frame, chain: Frame)
    requires GoodMembers(m) && |m.records| == 2 && IsData(m, left, 0) && IsData(m, right, 1) && IsParity(m, chain)
    ensures |chain.payload| == m.size
    ensures Crc(Sent(chain)[HEADER..]) ==
            Plus(Plus(Crc(Whiten(left.payload, Seeds(left))), Crc(Whiten(right.payload, Seeds(right)))), Crc(Zeros(m.size)))
  {
    hide Whiten, XorAll, Seeds, Crc, Plus, Xor, Sent;
    var wires, frames := [Sent(left), Sent(right)], [left, right];
    WirePayload(m, wires, frames, chain);
    WirePart(left);
    WirePart(right);
    var a, b := wires[0][HEADER..], wires[1][HEADER..];
    assert Bodies(wires, m.size) == [a, b];
    TwoXor(a, b);
    CrcXor(a, b);
  }

  lemma WirePart(f: Frame)
    requires |f.payload| <= PAYLOAD
    ensures |Sent(f)| == HEADER + |f.payload| && Sent(f)[HEADER..] == Whiten(f.payload, Seeds(f))
  {
    hide Whiten, Seeds, HeaderBytes, Crc;
  }

  lemma TwoXor(a: Bytes, b: Bytes)
    requires |a| == |b|
    ensures XorAll([a, b], |a|) == Xor(a, b)
  {
    hide Xor;
    assert [a, b][..1] == [a] && [a][..0] == [];
    assert XorAll([a], |a|) == Xor(XorAll([], |a|), a);
    XorComm(Zeros(|a|), a);
    XorZero(a);
  }

  // ----- the codewords

  // The prefix announces the length of the frame; what a shorter frame leaves
  // free is a terminator and pad bytes.
  function Prefix(length: nat): (r: Bytes)
    requires length <= HEADER + PAYLOAD
    ensures |r| == 4
  {
    [0x70, 0x34] + Put16(length)
  }

  function Fill(n: nat): (r: Bytes)
    ensures |r| == n
  {
    seq(n, i requires 0 <= i < n => if i == 0 then 0 else if i % 2 == 1 then 0xEC else 0x11)
  }

  // qrcodegen_dosferPackFrameV40L.
  function Packed(wire: Bytes): (r: Bytes)
    requires |wire| <= HEADER + PAYLOAD
    ensures |r| == DATA_CODEWORDS
  {
    Prefix(|wire|) + wire + Fill(HEADER + PAYLOAD - |wire|)
  }

  // The data codewords qrcodegen_dosferCorrectXorV40L encodes: the prefix,
  // when an even number of members cancelled it, and the header difference.
  function CorrectionData(count: nat, headerXor: Bytes): (r: Bytes)
    requires |headerXor| == HEADER
    ensures |r| == DATA_CODEWORDS
  {
    PrefixLength();
    (if count % 2 == 1 then Zeros(4) else PREFIX) + headerXor + Zeros(PAYLOAD)
  }

  ghost function Encoded(t: seq<Bytes>, inputs: seq<Bytes>): (r: seq<Bytes>)
    requires ShapedTable(t) && DataBlocks(inputs)
    ensures |r| == |inputs| && forall i :: 0 <= i < |r| ==> |r[i]| == CODEWORDS && r[i] == Codewords(t, inputs[i])
  {
    seq(|inputs|, i requires 0 <= i < |inputs| => Codewords(t, inputs[i]))
  }

  lemma {:induction false} EncodedXorAll(t: seq<Bytes>, inputs: seq<Bytes>)
    requires LinearTable(t) && ShapedTable(t) && DataBlocks(inputs)
    ensures XorAll(Encoded(t, inputs), CODEWORDS) == Codewords(t, XorAll(inputs, DATA_CODEWORDS))
  {
    hide Xor, Codewords, LinearTable;
    if inputs == [] {
      var z := Zeros(DATA_CODEWORDS);
      EncodeXor(t, z, z);
      XorSelf(z);
      XorSelf(Codewords(t, z));
    } else {
      var k := |inputs| - 1;
      EncodedXorAll(t, inputs[..k]);
      assert Encoded(t, inputs)[..k] == Encoded(t, inputs[..k]);
      EncodeXor(t, XorAll(inputs[..k], DATA_CODEWORDS), inputs[k]);
    }
  }

  function Inputs(wires: seq<Bytes>, size: nat): (r: seq<Bytes>)
    requires AllLong(wires, size) && size <= PAYLOAD
    ensures |r| == |wires| && forall i :: 0 <= i < |r| ==> |r[i]| == DATA_CODEWORDS && r[i] == Packed(wires[i])
  {
    seq(|wires|, i requires 0 <= i < |wires| => Packed(wires[i]))
  }

  // What n equal parts XOR to.
  function Left(n: nat, a: Bytes): (r: Bytes)
    ensures |r| == |a|
  {
    if n % 2 == 1 then a else Zeros(|a|)
  }

  lemma LeftNext(n: nat, a: Bytes)
    ensures Xor(Left(n, a), a) == Left(n + 1, a)
  {
    hide Xor, Zeros;
    XorSelf(a);
    XorZero(a);
    XorComm(a, Zeros(|a|));
  }

  lemma {:induction false} SidesXorAll(a: Bytes, list: seq<Bytes>, b: Bytes, n: nat, all: seq<Bytes>)
    requires |all| == |list| && forall i :: 0 <= i < |list| ==> |list[i]| == n && all[i] == a + list[i] + b
    ensures forall i :: 0 <= i < |all| ==> |all[i]| == |a| + n + |b|
    ensures XorAll(all, |a| + n + |b|) == Left(|list|, a) + XorAll(list, n) + Left(|list|, b)
    decreases |list|
  {
    hide Xor, Left;
    if list == [] {
      NoneLeft(a);
      NoneLeft(b);
      assert Zeros(|a| + n + |b|) == Zeros(|a|) + Zeros(n) + Zeros(|b|);
    } else {
      var k := |list| - 1;
      SidesXorAll(a, list[..k], b, n, all[..k]);
      LeftNext(k, a);
      LeftNext(k, b);
      XorConcat(Left(k, a) + XorAll(list[..k], n), Left(k, b), a + list[k], b);
      XorConcat(Left(k, a), XorAll(list[..k], n), a, list[k]);
    }
  }

  lemma NoneLeft(a: Bytes)
    ensures Left(0, a) == Zeros(|a|)
  {}

  lemma {:induction false} PartsXorAll(wires: seq<Bytes>, size: nat)
    requires AllLong(wires, size)
    ensures XorAll(wires, HEADER + size) == XorAll(Heads(wires, size), HEADER) + XorAll(Bodies(wires, size), size)
    decreases |wires|
  {
    hide Xor;
    if wires == [] {
      assert Zeros(HEADER + size) == Zeros(HEADER) + Zeros(size);
    } else {
      var k := |wires| - 1;
      PartsXorAll(wires[..k], size);
      assert Heads(wires, size)[..k] == Heads(wires[..k], size);
      assert Bodies(wires, size)[..k] == Bodies(wires[..k], size);
      assert wires[k] == wires[k][..HEADER] + wires[k][HEADER..];
      XorConcat(XorAll(Heads(wires[..k], size), HEADER), XorAll(Bodies(wires[..k], size), size), wires[k][..HEADER], wires[k][HEADER..]);
    }
  }

  // The data the correction leads to.
  lemma CorrectedData(count: nat, size: nat, h: Bytes, p: Bytes, hp: Bytes)
    requires size <= PAYLOAD && |h| == |hp| == HEADER && |p| == size
    ensures |Xor(hp, h)| == HEADER
    ensures var prefix, fill := Prefix(HEADER + size), Fill(PAYLOAD - size);
            Xor(Left(count, prefix) + (h + p) + Left(count, fill), CorrectionData(count, Xor(hp, h)))
            == Xor(Left(count, prefix), if count % 2 == 1 then Zeros(4) else PREFIX) + (hp + p) + Left(count, fill)
  {
    hide Zeros, Xor, PREFIX, Prefix, Fill, Left;
    PrefixLength();
    var a, fill := Left(count, Prefix(HEADER + size)), Left(count, Fill(PAYLOAD - size));
    var b, d := if count % 2 == 1 then Zeros(4) else PREFIX, Xor(hp, h);
    ZerosTwo(size, PAYLOAD - size);
    assert CorrectionData(count, d) == b + (d + Zeros(size)) + Zeros(PAYLOAD - size);
    XorConcat(a + (h + p), fill, b + (d + Zeros(size)), Zeros(PAYLOAD - size));
    XorConcat(a, h + p, b, d + Zeros(size));
    XorConcat(h, p, d, Zeros(size));
    XorZero(fill);
    XorZero(p);
    XorComm(h, d);
    XorCancel(hp, h);
  }

  lemma ZerosTwo(a: nat, b: nat)
    ensures Zeros(a + b) == Zeros(a) + Zeros(b)
  {}

  // It is the packed parity frame for an odd number of members, and for two
  // only when they are full.
  lemma CorrectedPrefix(count: nat, size: nat)
    requires size <= PAYLOAD
    ensures var prefix, fill := Prefix(HEADER + size), Fill(PAYLOAD - size);
            var was := Xor(Left(count, prefix), if count % 2 == 1 then Zeros(4) else PREFIX);
            && |was| == 4
            && (count % 2 == 1 || size == PAYLOAD ==> was == prefix && Left(count, fill) == fill)
            && (count % 2 == 0 && size < PAYLOAD ==> was[2..] != prefix[2..])
  {
    hide Xor, Zeros, Fill, Put16;
    PrefixLength();
    var prefix := Prefix(HEADER + size);
    XorZero(prefix);
    XorZero(PREFIX);
    XorComm(Zeros(4), PREFIX);
    Get16Put(HEADER + size);
    FullPrefix();
    Get16Put(HEADER + PAYLOAD);
  }

  lemma FullPrefix()
    ensures Put16(HEADER + PAYLOAD) == PREFIX[2..] && Prefix(HEADER + PAYLOAD) == PREFIX && Left(2, Fill(0)) == Fill(0)
  {}

  // The first bytes of the data are codewords of the symbol.
  lemma PrefixShows(t: seq<Bytes>, a: Bytes, b: Bytes)
    requires ShapedTable(t) && |a| == |b| == DATA_CODEWORDS && Codewords(t, a) == Codewords(t, b)
    ensures a[2] == b[2] && a[3] == b[3]
  {
    hide Codewords;
    EncodeAt(t, a, DataCell(0, 2));
    EncodeAt(t, b, DataCell(0, 2));
    EncodeAt(t, a, DataCell(0, 3));
    EncodeAt(t, b, DataCell(0, 3));
  }

  // The parity symbol is the XOR of the members' symbols, corrected by one
  // block's worth of header, exactly when their number is odd or they are full:
  // then no payload is encoded again.
  lemma DerivedSymbol(t: seq<Bytes>, m: Members, wires: seq<Bytes>, frames: seq<Frame>, f: Frame)
    requires LinearTable(t) && ShapedTable(t) && GoodMembers(m) && Wires(m, wires, frames) && IsParity(m, f)
    ensures AllLong(wires, m.size) && |f.payload| == m.size && DataBlocks(Inputs(wires, m.size))
    ensures var headerXor := Xor(Sent(f)[..HEADER], XorAll(Heads(wires, m.size), HEADER));
            Codewords(t, Packed(Sent(f))) ==
            Xor(XorAll(Encoded(t, Inputs(wires, m.size)), CODEWORDS), Codewords(t, CorrectionData(|wires|, headerXor)))
            <==> |wires| % 2 == 1 || m.size == PAYLOAD
  {
    hide Whiten, XorAll, Seeds, Codewords, LinearTable, Xor, Zeros, PREFIX, Sent, IsParity, GoodMembers, Prefix, Fill, Left, CorrectionData;
    WirePayload(m, wires, frames, f);
    SizeBound(m);
    var n, size := |wires|, m.size;
    var prefix, fill := Prefix(HEADER + size), Fill(PAYLOAD - size);
    PartsXorAll(wires, size);
    SidesXorAll(prefix, wires, fill, HEADER + size, Inputs(wires, size));
    EncodedXorAll(t, Inputs(wires, size));
    var h, p, hp := XorAll(Heads(wires, size), HEADER), XorAll(Bodies(wires, size), size), Sent(f)[..HEADER];
    assert Sent(f) == hp + p;
    CorrectedData(n, size, h, p, hp);
    CorrectedPrefix(n, size);
    EncodeXor(t, XorAll(Inputs(wires, size), DATA_CODEWORDS), CorrectionData(n, Xor(hp, h)));
    var data := Xor(XorAll(Inputs(wires, size), DATA_CODEWORDS), CorrectionData(n, Xor(hp, h)));
    if Codewords(t, Packed(Sent(f))) == Codewords(t, data) {
      PrefixShows(t, Packed(Sent(f)), data);
      SamePrefix(Packed(Sent(f)), data, prefix);
    }
  }

  lemma SizeBound(m: Members)
    requires GoodMembers(m)
    ensures m.size <= PAYLOAD
  {}

  lemma SamePrefix(a: Bytes, b: Bytes, prefix: Bytes)
    requires |a| >= 4 && |b| >= 4 && |prefix| == 4 && a[..4] == prefix && a[2] == b[2] && a[3] == b[3]
    ensures b[..4][2..] == prefix[2..]
  {
    assert prefix[2] == a[..4][2] && prefix[3] == a[..4][3];
  }
}
