// main.c of dos_sender32: the record stream of one file.  Two half-buffers of a
// disk ring are drained and refilled in turn; every record is filled with zeros
// to the fixed payload.  The records are those the legacy producer would plan
// for the same file.

module RecordStream {
  import opened Gf2
  import opened Crc32
  import opened Protocol
  import opened Repair
  import opened Producer
  import opened Reconstructor
  import opened FileTransfer
  import opened Utf8

  const RING_SLOT: nat := 32768
  const PIECE: nat := 2876
  const MAX_FILE: nat := 0x8000_0000

  // The one file as a manifest: file number 1, no attributes, no time stamp.
  function Selection(name: Bytes, size: U32): (m: seq<Entry>)
    ensures |m| == 1
  {
    [Entry(false, 0, 0, 0, size, 1, name)]
  }

  function Contents(content: Bytes): (s: seq<Source>)
    ensures |s| == 1
  {
    [Source(true, content, true, true)]
  }

  predicate GoodFile(name: Bytes, content: Bytes) {
    1 <= |name| < PATH_BYTES && |content| < MAX_FILE
  }

  // The records before padding.
  function Planned(session: U32, name: Bytes, content: Bytes): seq<Item>
    requires GoodFile(name, content)
  {
    Items(Selection(name, |content|), Contents(content), session, PAYLOAD)
  }

  // data_records.
  function DataRecords(size: nat): nat {
    (size + 2875) / PIECE
  }

  lemma {:induction false} PieceCount(e: Entry, content: Bytes, off: nat)
    requires off <= |content| < 0x1_0000_0000
    ensures |DataItems(e, content, off, PIECE)| == DataRecords(|content| - off)
    decreases |content| - off
  {
    hide DataItem;
    if off < |content| {
      PieceCount(e, content, off + PieceLength(content, off, PIECE));
    }
  }

  // total_records counts the stream exactly.
  lemma TotalIs(session: U32, name: Bytes, content: Bytes)
    requires GoodFile(name, content)
    ensures |Planned(session, name, content)| == 4 + DataRecords(|content|)
  {
    hide DataItems, DataItem, BeginItem, EndItem, TransferItem, SessionItem, DataRecords;
    var m, s := Selection(name, |content|), Contents(content);
    Unrefused(name, content);
    RestIs(m, s, 0, PAYLOAD);
    PieceCount(m[0], content, 0);
    Tail4(m, s);
  }

  lemma Unrefused(name: Bytes, content: Bytes)
    requires GoodFile(name, content)
    ensures GoodManifest(Selection(name, |content|), Contents(content))
    ensures !Refused(Selection(name, |content|)[0], Contents(content)[0], PAYLOAD)
    ensures AllSendable(Selection(name, |content|), Contents(content), 0, PAYLOAD)
  {}

  lemma Tail4(m: seq<Entry>, s: seq<Source>)
    requires GoodManifest(m, s) && |m| == 1 && s[0].sameAfter && |s[0].content| < 0x1_0000_0000
    ensures FileClose(m, s, 0, PAYLOAD) == [EndItem(m[0], s[0].content)] + Rest(m, s, 1, PAYLOAD)
    ensures Rest(m, s, 1, PAYLOAD) == [TransferItem(m)]
  {
    hide EndItem, TransferItem;
  }

  predicate Pads(item: Item) {
    1 <= item.kind <= 6 && |item.body| <= PAYLOAD - RECORD_HEADER
  }

  function Fixed(item: Item, n: nat): (b: Bytes)
    requires Pads(item)
    ensures |b| == PAYLOAD
  {
    Padded(Numbered(item, n))
  }

  class Stream {
    const session: U32
    const name: Bytes
    const content: Bytes
    const total: nat
    var stage: nat
    var fileOffset: nat
    var fileCrc: Word
    var recordId: nat
    var global: nat
    // the ring
    var unread: Bytes
    const ring: array<Bytes>
    const pos: array<nat>
    var slot: nat

    function Buffered(i: nat): Bytes
      requires ring.Length == pos.Length == 2 && i < 2 && pos[i] <= |ring[i]|
      reads ring, pos
    {
      ring[i][pos[i]..]
    }

    // The bytes not yet read are those of the current buffer, of the other one
    // and of the file, in this order.
    ghost predicate Reading()
      reads this`unread, this`slot, this`fileOffset, ring, pos
    {
      && ring.Length == pos.Length == 2 && slot < 2 && pos[0] <= |ring[0]| && pos[1] <= |ring[1]|
      && fileOffset <= |content|
      && content[fileOffset..] == Buffered(slot) + (Buffered(1 - slot) + unread)
      && (Buffered(slot) == [] ==> Buffered(1 - slot) == [])
    }

    // fread of one half-buffer.
    method Fill(i: nat)
      requires ring.Length == pos.Length == 2 && i < 2
      modifies this`unread, ring, pos
      ensures pos[i] == 0 && ring[i] + unread == old(unread) && (ring[i] == [] ==> old(unread) == [])
      ensures ring[1 - i] == old(ring[1 - i]) && pos[1 - i] == old(pos[1 - i])
    {
      var n := if |unread| < RING_SLOT then |unread| else RING_SLOT;
      ring[i] := unread[..n];
      pos[i] := 0;
      unread := unread[n..];
    }

    // stream_open, with the prefetch of both halves.
    constructor (s: U32, n: Bytes, file: Bytes)
      requires GoodFile(n, file)
      ensures session == s && name == n && content == file && total == 4 + DataRecords(|file|)
      ensures stage == 0 && fileOffset == 0 && recordId == global == 0 && Reading()
      ensures fresh(ring) && fresh(pos)
    {
      session, name, content, total := s, n, file, 4 + DataRecords(|file|);
      stage, fileOffset, fileCrc, recordId, global := 0, 0, START, 0, 0;
      unread, slot := file, 0;
      ring := new Bytes[2](_ => []);
      pos := new nat[2](_ => 0);
      new;
      Fill(0);
      Fill(1);
    }

    // The current half-buffer, refilled when it is drained; nothing waits in the
    // other one then.
    method Refill()
      requires Reading()
      modifies this`unread, ring, pos
      ensures Reading() && (Buffered(slot) == [] ==> fileOffset == |content|)
    {
      ghost var rest := content[fileOffset..];
      if pos[slot] == |ring[slot]| {
        Fill(slot);
        assert Buffered(slot) == ring[slot] && Buffered(1 - slot) == [];
        assert rest == Buffered(slot) + ([] + unread);
      }
    }

    // n bytes of the current half-buffer are used.
    method Use(n: nat)
      requires Reading() && n <= |Buffered(slot)|
      modifies this`slot, this`fileOffset, pos
      ensures Reading() && fileOffset == old(fileOffset) + n
    {
      ghost var here, there := Buffered(slot), Buffered(1 - slot);
      TakeFront(content, fileOffset, here, there + unread, n);
      HandOver(here[n..], there, unread);
      pos[slot] := pos[slot] + n;
      fileOffset := fileOffset + n;
      assert Buffered(slot) == here[n..];
      if pos[slot] >= |ring[slot]| { slot := 1 - slot; }
    }

    // One memcpy of ring_read: what the current half-buffer has; nothing only at
    // the end of the file.
    method TakeBuffered(limit: nat) returns (out: Bytes)
      requires Reading() && limit > 0
      modifies this`unread, this`slot, this`fileOffset, ring, pos
      ensures Reading() && old(fileOffset) <= fileOffset && out == content[old(fileOffset)..fileOffset] && |out| <= limit
      ensures out == [] ==> fileOffset == |content|
    {
      Refill();
      var n := if |ring[slot]| - pos[slot] < limit then |ring[slot]| - pos[slot] else limit;
      out := ring[slot][pos[slot]..pos[slot] + n];
      assert out == Buffered(slot)[..n];
      TakeFront(content, fileOffset, Buffered(slot), Buffered(1 - slot) + unread, n);
      Use(n);
    }

    // ring_read: the next bytes of the file, fewer only at its end.
    method RingRead(want: nat) returns (out: Bytes)
      requires Reading()
      modifies this`unread, this`slot, this`fileOffset, ring, pos
      ensures Reading() && fileOffset == old(fileOffset) + PieceLength(content, old(fileOffset), want)
      ensures out == content[old(fileOffset)..fileOffset]
    {
      out := [];
      while |out| < want
        invariant Reading() && old(fileOffset) <= fileOffset
        invariant out == content[old(fileOffset)..fileOffset] && |out| <= want
        decreases want - |out|
      {
        var more := TakeBuffered(want - |out|);
        if more == [] { break; }
        out := out + more;
      }
    }

    ghost predicate Valid()
      reads this, ring, pos
    {
      && Reading() && GoodFile(name, content) && total == 4 + DataRecords(|content|) && stage <= 5 && recordId == global
      && (stage <= 1 ==> fileOffset == 0)
      && (stage == 2 ==> fileCrc == Run(START, content[..fileOffset]))
      && (stage >= 3 ==> fileOffset == |content|)
      && (stage == 3 ==> fileCrc == Run(START, content))
      && global + |Left()| == total
    }

    // What is still to come.
    ghost function Left(): seq<Item>
      requires GoodFile(name, content) && fileOffset <= |content|
      reads this`stage, this`fileOffset
    {
      var m, s := Selection(name, |content|), Contents(content);
      if stage == 0 then Planned(session, name, content)
      else if stage == 1 then Rest(m, s, 0, PAYLOAD)
      else if stage == 2 then FileRest(m, s, 0, fileOffset, PAYLOAD)
      else if stage == 3 then FileClose(m, s, 0, PAYLOAD)
      else if stage == 4 then [TransferItem(m)]
      else []
    }

    // dos32_record with the next number.
    method Emit(item: Item) returns (r: Bytes)
      requires Pads(item) && recordId == global
      modifies this`recordId, this`global
      ensures r == Fixed(item, old(global)) && recordId == global == old(global) + 1
    {
      r := Fixed(item, recordId);
      recordId, global := recordId + 1, global + 1;
    }

    // What a call did: the first of the records still to come.
    ghost predicate Did(r: Bytes, was: seq<Item>, n: nat)
      reads this, ring, pos
    {
      was != [] && Pads(was[0]) && r == Fixed(was[0], n) && Valid() && Left() == was[1..] && global == n + 1
    }

    method SendSession() returns (r: Bytes)
      requires Valid() && stage == 0
      modifies this`stage, this`recordId, this`global
      ensures Did(r, old(Left()), old(global))
    {
      hide Fixed, Rest, Reading, DataRecords;
      HeadTail(SessionItem(session), Rest(Selection(name, |content|), Contents(content), 0, PAYLOAD));
      stage := 1;
      r := Emit(SessionItem(session));
    }

    method SendBegin() returns (r: Bytes)
      requires Valid() && stage == 1
      modifies this`stage, this`fileCrc, this`recordId, this`global
      ensures Did(r, old(Left()), old(global))
    {
      hide Fixed, Rest, FileRest, Reading, DataRecords, Meta, Refused, Run;
      ghost var m, s := Selection(name, |content|), Contents(content);
      Unrefused(name, content);
      RestIs(m, s, 0, PAYLOAD);
      HeadTail(BeginItem(m[0]), FileRest(m, s, 0, 0, PAYLOAD));
      stage, fileCrc := 2, START;
      RunNothing(content);
      r := Emit(BeginItem(Selection(name, |content|)[0]));
    }

    method SendPiece() returns (r: Bytes)
      requires Valid() && stage == 2 && fileOffset < |content|
      modifies this`unread, this`slot, this`fileOffset, this`fileCrc, this`recordId, this`global, ring, pos
      ensures Did(r, old(Left()), old(global))
    {
      hide Fixed, FileRest, Reading, DataRecords, Run, Put32;
      ghost var m, s := Selection(name, |content|), Contents(content);
      var off := fileOffset;
      Unrefused(name, content);
      FileRestIs(m, s, 0, off, PAYLOAD);
      var piece := RingRead(PIECE);
      RunConcat(START, content[..off], piece);
      assert content[..off] + piece == content[..fileOffset];
      fileCrc := Run(fileCrc, piece);
      HeadTail(DataItem(m[0], content, off, PIECE), FileRest(m, s, 0, fileOffset, PAYLOAD));
      r := Emit(Item(FILE_DATA, 1, Put32(off) + piece));
    }

    method SendEnd() returns (r: Bytes)
      requires Valid() && stage == 3
      modifies this`stage, this`recordId, this`global
      ensures Did(r, old(Left()), old(global))
    {
      hide Fixed, Rest, Reading, DataRecords, Run, Put32, PutWord;
      ghost var m, s := Selection(name, |content|), Contents(content);
      Unrefused(name, content);
      Tail4(m, s);
      HeadTail(EndItem(m[0], content), Rest(m, s, 1, PAYLOAD));
      stage := 4;
      r := Emit(Item(FILE_END, 1, Put32(|content|) + PutWord(Plus(fileCrc, START))));
    }

    method SendTransferEnd() returns (r: Bytes)
      requires Valid() && stage == 4
      modifies this`stage, this`recordId, this`global
      ensures Did(r, old(Left()), old(global))
    {
      hide Fixed, Reading, DataRecords, Put32;
      OneFile(name, |content|);
      stage := 5;
      r := Emit(Item(TRANSFER_END, 0, Put32(1) + Put32(0) + Put32(0) + Put32(|content|)));
    }

    // stream_next; None when the stream is at its end.
    method Next() returns (r: Option<Bytes>)
      requires Valid()
      modifies this, ring, pos
      ensures old(Left()) == [] ==> r == None && Valid() && Left() == [] && global == old(global)
      ensures old(Left()) != [] ==> r.Some? && Did(r.value, old(Left()), old(global))
    {
      if stage >= 5 || global >= total { return None; }
      var b;
      if stage == 2 && fileOffset >= |content| { EndOfFile(); }
      hide Did, Left;
      if stage == 0 { b := SendSession(); }
      else if stage == 1 { b := SendBegin(); }
      else if stage == 2 { b := SendPiece(); }
      else if stage == 3 { b := SendEnd(); }
      else { b := SendTransferEnd(); }
      r := Some(b);
    }

    method EndOfFile()
      requires Valid() && stage == 2 && fileOffset == |content|
      modifies this`stage
      ensures Valid() && stage == 3 && Left() == old(Left())
    {
      hide Reading, FileRest, FileClose, Run, DataRecords;
      Unrefused(name, content);
      FileRestIs(Selection(name, |content|), Contents(content), 0, fileOffset, PAYLOAD);
      assert content[..fileOffset] == content;
      stage := 3;
    }
  }

  lemma RunNothing(content: Bytes)
    ensures Run(START, content[..0]) == START
  {}

  lemma OneFile(name: Bytes, size: U32)
    ensures TransferItem(Selection(name, size)) == Item(TRANSFER_END, 0, Put32(1) + Put32(0) + Put32(0) + Put32(size))
  {
    hide Put32;
    var m := Selection(name, size);
    assert Files(m, 1) == Files(m, 0) + 1 && Volume(m, 1) == Volume(m, 0) + size;
  }

  // The records of a whole file.
  ghost predicate RecordsOf(records: seq<Bytes>, items: seq<Item>) {
    |records| == |items| && forall i :: 0 <= i < |items| ==> Pads(items[i]) && records[i] == Fixed(items[i], i)
  }

  // Everything stream_next gives for one file: as many records as were
  // announced, each of the fixed size.
  method ReadAll(session: U32, name: Bytes, content: Bytes) returns (records: seq<Bytes>)
    requires GoodFile(name, content)
    ensures RecordsOf(records, Planned(session, name, content))
    ensures |records| == 4 + DataRecords(|content|) && forall i :: 0 <= i < |records| ==> |records[i]| == PAYLOAD
  {
    hide *;
    TotalIs(session, name, content);
    var s := new Stream(session, name, content);
    Opened(s);
    ghost var items := Planned(session, name, content);
    records := [];
    var more := true;
    while more
      invariant s.Valid() && fresh(s) && fresh(s.ring) && fresh(s.pos)
      invariant GoodFile(s.name, s.content) && s.fileOffset <= |s.content|
      invariant |records| <= |items| && s.Left() == items[|records|..] && s.global == |records|
      invariant forall i :: 0 <= i < |records| ==> Pads(items[i]) && records[i] == Fixed(items[i], i)
      invariant !more ==> |records| == |items|
      decreases more, |items| - |records|
    {
      var r := ReadOne(s, items, |records|);
      if r.None? { more := false; } else { records := records + [r.value]; }
    }
    Complete(records, items);
  }

  lemma Complete(records: seq<Bytes>, items: seq<Item>)
    requires |records| == |items| && forall i :: 0 <= i < |records| ==> Pads(items[i]) && records[i] == Fixed(items[i], i)
    ensures RecordsOf(records, items) && forall i :: 0 <= i < |records| ==> |records[i]| == PAYLOAD
  {
    hide Pads, Fixed;
  }

  method ReadOne(s: Stream, ghost items: seq<Item>, n: nat) returns (r: Option<Bytes>)
    requires s.Valid() && n <= |items| && s.Left() == items[n..] && s.global == n
    modifies s, s.ring, s.pos
    ensures s.Valid() && GoodFile(s.name, s.content) && s.fileOffset <= |s.content|
    ensures r.None? <==> n == |items|
    ensures r.None? ==> s.Left() == items[n..] && s.global == n
    ensures r.Some? ==> Pads(items[n]) && r.value == Fixed(items[n], n) && s.Left() == items[n + 1..] && s.global == n + 1
  {
    hide Stream.Left, Fixed, Pads, DataRecords;
    r := s.Next();
  }

  lemma Opened(s: Stream)
    requires GoodFile(s.name, s.content) && s.total == 4 + DataRecords(|s.content|) && s.stage == 0 && s.fileOffset == 0
    requires s.recordId == s.global == 0 && s.Reading()
    ensures s.Valid() && s.fileOffset <= |s.content| && s.Left() == Planned(s.session, s.name, s.content)
    ensures Planned(s.session, s.name, s.content)[0..] == Planned(s.session, s.name, s.content)
  {
    TotalIs(s.session, s.name, s.content);
  }

  // A plane frame's payload, cut back to its record, is the planned record, so
  // the reconstructor makes the file again: whenever its name is safe.
  lemma FileComesOut(session: U32, name: Bytes, content: Bytes, records: seq<Bytes>, payloads: seq<Bytes>, frames: seq<Bytes>)
    requires GoodFile(name, content) && RecordsOf(records, Planned(session, name, content))
    requires |payloads| == |records| && forall i :: 0 <= i < |records| ==> Trim(records[i]) == Ok(payloads[i])
    requires Carries(frames, payloads)
    ensures Consumed(Empty(), frames).ok <==> SafeBytes(name)
    ensures SafeBytes(name) ==> Consumed(Empty(), frames).made == [Made.File(Decode(name), content)]
  {
    hide Carries, Consumed, SafeBytes, Items, Refused, DataRecords, Trim, Fixed, Wire, Pads;
    var m, s := Selection(name, |content|), Contents(content);
    var items := Planned(session, name, content);
    Unrefused(name, content);
    TotalIs(session, name, content);
    FewRecords(|content|);
    forall i | 0 <= i < |items| ensures Fits(items[i], PAYLOAD) && payloads[i] == Wire(items[i], 0 + i, PAYLOAD) {
      assert Trim(records[i]) == Ok(payloads[i]);
      Unpadded(items[i], i);
    }
    assert items[..|items|] == items;
    EndToEnd(m, s, session, PAYLOAD, |items|, payloads, frames);
    OneOutput(name, content);
  }

  lemma FewRecords(size: nat)
    requires size < MAX_FILE
    ensures 4 + DataRecords(size) <= LIMIT
  {}

  lemma Unpadded(item: Item, n: nat)
    requires Pads(item)
    ensures Fits(item, PAYLOAD) && Trim(Fixed(item, n)) == Ok(Wire(item, n, PAYLOAD))
  {
    hide EncodeRecord, Padded, Trim;
    TrimPadded(Numbered(item, n));
  }

  lemma OneOutput(name: Bytes, content: Bytes)
    requires GoodFile(name, content)
    ensures var m := Selection(name, |content|);
            && (AllSafe(m, 0) <==> SafeBytes(name)) && Volume(m, |m|) < LIMIT
            && [] + Outputs(m, Contents(content), 0) == [Made.File(Decode(name), content)]
  {
    hide SafeBytes;
    var m := Selection(name, |content|);
    assert Volume(m, 1) == Volume(m, 0) + |content|;
    assert Outputs(m, Contents(content), 1) == [];
    assert m[0].path == name;
  }
}
