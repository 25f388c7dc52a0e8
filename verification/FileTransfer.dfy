// End to end: what the producer makes of a selection, the reconstructor turns
// back into the same directories and the same bytes.

module FileTransfer {
  import opened Gf2
  import opened Crc32
  import opened Protocol
  import opened Repair
  import opened Producer
  import opened Reconstructor
  import opened Utf8

  const LIMIT: nat := 0x1_0000_0000

  // The directories and files a selection should become.
  function Outputs(m: seq<Entry>, sources: seq<Source>, k: nat): seq<Made>
    requires |m| == |sources| && k <= |m|
    decreases |m| - k
  {
    if k == |m| then []
    else [if m[k].directory then Made.Directory(Decode(m[k].path)) else Made.File(Decode(m[k].path), sources[k].content)] + Outputs(m, sources, k + 1)
  }

  predicate AllSafe(m: seq<Entry>, k: nat)
    requires k <= |m|
  {
    forall i :: k <= i < |m| ==> SafeBytes(m[i].path)
  }

  // The interpreter over records as the producer plans them.
  function Fed(s: Sink, items: seq<Item>): Report
    decreases |items|
  {
    hide Absorbed;
    if items == [] then Report(false, s.made)
    else
      match Absorbed(s, Numbered(items[0], s.expected))
      case Broken => Report(false, s.made)
      case Complete(t) => Report(true, t.made)
      case More(t) => Fed(t, items[1..])
  }

  // ----- the fields of each record read back

  lemma MetaFields(e: Entry)
    requires |e.path| < PATH_BYTES
    ensures var b := Meta(e); var at := if e.directory then 8 else 12;
            && |b| == at + |e.path| && Get16(b[at - 2..at]) == |e.path| && b[at..at + |e.path|] == e.path
            && (!e.directory ==> Get32(b[6..10]) == e.size)
  {
    hide Put16, Get16, Put32, Get32;
    Get16Put(|e.path|);
    Get32Put(e.size);
    var b := Meta(e);
    if e.directory {
      assert b[6..8] == Put16(|e.path|);
    } else {
      assert b[10..12] == Put16(|e.path|) && b[6..10] == Put32(e.size);
    }
  }

  lemma DirectoryTaken(s: Sink, e: Entry)
    requires e.directory && |e.path| < PATH_BYTES && s.expected < LIMIT
    ensures Absorbed(s, Numbered(Item(DIRECTORY, 0, Meta(e)), s.expected)) ==
            if SafeBytes(e.path)
            then More(s.(expected := s.expected + 1, dirs := s.dirs + 1, made := s.made + [Made.Directory(Decode(e.path))])) else Broken
  {
    hide Meta, SafeText, Decode, Get16, Get32;
    MetaFields(e);
    EmptyUnsafe(e.path);
  }

  lemma EmptyUnsafe(p: Bytes)
    ensures SafeBytes(p) ==> 1 <= |p| <= 1024
  {}

  lemma BeginTaken(s: Sink, e: Entry)
    requires !e.directory && |e.path| < PATH_BYTES && s.expected < LIMIT && s.open.None?
    ensures Absorbed(s, Numbered(BeginItem(e), s.expected)) ==
            if SafeBytes(e.path)
            then More(s.(expected := s.expected + 1, open := Some(OpenFile(e.fileId, e.size, Decode(e.path), [])))) else Broken
  {
    hide Meta, SafeText, Decode, Get16, Get32;
    MetaFields(e);
    EmptyUnsafe(e.path);
  }

  lemma DataTaken(s: Sink, e: Entry, content: Bytes, cap: nat)
    requires s.expected < LIMIT && s.open.Some? && s.open.value.id == e.fileId
    requires |s.open.value.content| <= |content| < LIMIT && s.open.value.content == content[..|s.open.value.content|]
    ensures var off := |s.open.value.content|; var n := PieceLength(content, off, cap);
            Absorbed(s, Numbered(DataItem(e, content, off, cap), s.expected)) ==
            More(s.(expected := s.expected + 1, total := s.total + n,
                    open := Some(s.open.value.(content := content[..off + n]))))
  {
    hide Put32, Get32, Get16, SafePath;
    var off := |s.open.value.content|;
    var n := PieceLength(content, off, cap);
    Get32Put(off);
    var body := DataItem(e, content, off, cap).body;
    assert body[..4] == Put32(off) && body[4..] == content[off..off + n];
    assert content[..off] + content[off..off + n] == content[..off + n];
  }

  lemma EndTaken(s: Sink, e: Entry, content: Bytes)
    requires s.expected < LIMIT && |content| == e.size
    requires s.open == Some(OpenFile(e.fileId, e.size, Decode(e.path), content))
    ensures Absorbed(s, Numbered(EndItem(e, content), s.expected)) ==
            More(s.(expected := s.expected + 1, open := None, files := s.files + 1, made := s.made + [Made.File(Decode(e.path), content)]))
  {
    hide Put32, Get32, Get16, SafePath, PutWord, Crc;
    Get32Put(e.size);
    var body := EndItem(e, content).body;
    assert body[..4] == Put32(e.size) && body[4..8] == PutWord(Crc(content));
  }

  lemma SessionTaken(s: Sink, now: U32)
    requires s.expected < LIMIT
    ensures Absorbed(s, Numbered(SessionItem(now), s.expected)) == More(s.(expected := s.expected + 1))
  {
    hide Put32, Put16;
  }

  lemma EndIs(s: Sink, r: Record)
    requires r.kind == TRANSFER_END && |r.body| == 16 && r.recordId == s.expected
    ensures Absorbed(s, r) ==
            if s.open.Some? || Get32(r.body[..4]) != s.files || Get32(r.body[4..8]) != s.dirs || Get32(r.body[12..16]) != s.total
            then Broken else Complete(s.(expected := s.expected + 1))
  {
    hide Get32, Get16, SafePath, Crc, PutWord;
  }

  // The closing record agrees exactly when the volume fits its 32-bit field.
  lemma TransferTaken(s: Sink, m: seq<Entry>)
    requires s.expected < LIMIT && |m| < LIMIT && s.open.None?
    requires s.files == Files(m, |m|) && s.dirs == |m| - Files(m, |m|) && s.total == Volume(m, |m|)
    ensures Absorbed(s, Numbered(TransferItem(m), s.expected)) ==
            if Volume(m, |m|) < LIMIT then Complete(s.(expected := s.expected + 1)) else Broken
  {
    hide Get32, Files, Volume, Absorbed, TransferItem;
    TransferBody(m);
    EndIs(s, Numbered(TransferItem(m), s.expected));
    SmallRemainder(Volume(m, |m|));
  }

  lemma SmallRemainder(n: nat)
    ensures n % LIMIT == n <==> n < LIMIT
  {}

  lemma TransferBody(m: seq<Entry>)
    requires |m| < LIMIT
    ensures var i := TransferItem(m);
            && i.kind == TRANSFER_END && |i.body| == 16 && Get32(i.body[..4]) == Files(m, |m|)
            && Get32(i.body[4..8]) == |m| - Files(m, |m|) && Get32(i.body[12..16]) == Volume(m, |m|) % LIMIT
  {
    hide Put32, Get32, Files, Volume;
    Get32Put(Files(m, |m|));
    Get32Put(|m| - Files(m, |m|));
    Get32Put(Volume(m, |m|) % LIMIT);
    var body := TransferItem(m).body;
    assert body[..4] == Put32(Files(m, |m|)) && body[4..8] == Put32(|m| - Files(m, |m|));
    assert body[12..16] == Put32(Volume(m, |m|) % LIMIT);
  }

  // ----- the plan, read back entry by entry

  ghost predicate Between(s: Sink, m: seq<Entry>, k: nat)
    requires k <= |m|
  {
    s.open.None? && s.files == Files(m, k) && s.dirs == k - Files(m, k) && s.total == Volume(m, k)
  }

  // The outcome of the rest of a plan.
  ghost predicate Outcome(r: Report, m: seq<Entry>, sources: seq<Source>, k: nat, payload: nat, made: seq<Made>)
    requires |m| == |sources| && k <= |m|
  {
    && (r.ok <==> AllSendable(m, sources, k, payload) && AllSafe(m, k) && Volume(m, |m|) < LIMIT)
    && (r.ok ==> r.made == made + Outputs(m, sources, k))
  }

  lemma {:induction false} RestFed(s: Sink, m: seq<Entry>, sources: seq<Source>, k: nat, payload: nat)
    requires GoodManifest(m, sources) && k <= |m| && RECORD_HEADER + 4 < payload
    requires Between(s, m, k) && s.expected + |Rest(m, sources, k, payload)| <= LIMIT
    ensures Outcome(Fed(s, Rest(m, sources, k, payload)), m, sources, k, payload, s.made)
    decreases |m| - k, 3
  {
    hide Absorbed, Numbered, SafeBytes, FileRest, BeginItem, Meta, TransferItem, Refused, AllSendable, AllSafe, Volume;
    if k == |m| {
      TransferTaken(s, m);
      LastRest(m, sources, payload);
    } else {
      RestIs(m, sources, k, payload);
      Stuck(m, sources, k, payload);
      if !Refused(m[k], sources[k], payload) {
        if m[k].directory { DirectoryFed(s, m, sources, k, payload); } else { BeginFed(s, m, sources, k, payload); }
      }
    }
  }

  lemma {:induction false} DirectoryFed(s: Sink, m: seq<Entry>, sources: seq<Source>, k: nat, payload: nat)
    requires GoodManifest(m, sources) && k < |m| && RECORD_HEADER + 4 < payload && m[k].directory
    requires !Refused(m[k], sources[k], payload)
    requires Between(s, m, k) && s.expected + |Rest(m, sources, k, payload)| <= LIMIT
    ensures Outcome(Fed(s, Rest(m, sources, k, payload)), m, sources, k, payload, s.made)
    decreases |m| - k, 2
  {
    hide Absorbed, Numbered, SafeBytes, FileRest, Meta, Rest, Refused, AllSendable, AllSafe, Volume, Between;
    var e := m[k];
    RestIs(m, sources, k, payload);
    Stuck(m, sources, k, payload);
    Start(s, m, k);
    DirectoryTaken(s, e);
    HeadTail(Item(DIRECTORY, 0, Meta(e)), Rest(m, sources, k + 1, payload));
    if SafeBytes(e.path) {
      var t := s.(expected := s.expected + 1, dirs := s.dirs + 1, made := s.made + [Made.Directory(Decode(e.path))]);
      BetweenNext(s, t, m, k);
      RestFed(t, m, sources, k + 1, payload);
      OutcomeNext(Fed(t, Rest(m, sources, k + 1, payload)), m, sources, k, payload, s.made);
    }
  }

  lemma {:induction false} BeginFed(s: Sink, m: seq<Entry>, sources: seq<Source>, k: nat, payload: nat)
    requires GoodManifest(m, sources) && k < |m| && RECORD_HEADER + 4 < payload && !m[k].directory
    requires !Refused(m[k], sources[k], payload)
    requires Between(s, m, k) && s.expected + |Rest(m, sources, k, payload)| <= LIMIT
    ensures Outcome(Fed(s, Rest(m, sources, k, payload)), m, sources, k, payload, s.made)
    decreases |m| - k, 2
  {
    hide Absorbed, Numbered, SafeBytes, FileRest, BeginItem, Rest, Refused, AllSendable, AllSafe;
    var e := m[k];
    RestIs(m, sources, k, payload);
    Stuck(m, sources, k, payload);
    BeginTaken(s, e);
    HeadTail(BeginItem(e), FileRest(m, sources, k, 0, payload));
    if SafeBytes(e.path) {
      var t := s.(expected := s.expected + 1, open := Some(OpenFile(e.fileId, e.size, Decode(e.path), [])));
      FileFed(t, m, sources, k, 0, payload);
    }
  }

  lemma Start(s: Sink, m: seq<Entry>, k: nat)
    requires k <= |m| && Between(s, m, k)
    ensures s.open.None?
  {}

  lemma LastRest(m: seq<Entry>, sources: seq<Source>, payload: nat)
    requires GoodManifest(m, sources) && RECORD_HEADER + 4 < payload
    ensures Rest(m, sources, |m|, payload) == [TransferItem(m)] && [TransferItem(m)][1..] == []
    ensures AllSendable(m, sources, |m|, payload) && AllSafe(m, |m|)
  {}

  lemma BetweenNext(s: Sink, t: Sink, m: seq<Entry>, k: nat)
    requires k < |m| && m[k].directory && Between(s, m, k) && t == s.(expected := t.expected, dirs := s.dirs + 1, made := t.made)
    ensures Between(t, m, k + 1)
  {}

  // An entry that is refused, or whose path is unsafe, spoils the transfer.
  lemma Stuck(m: seq<Entry>, sources: seq<Source>, k: nat, payload: nat)
    requires |m| == |sources| && k < |m|
    ensures Refused(m[k], sources[k], payload) ==> !AllSendable(m, sources, k, payload)
    ensures !SafeBytes(m[k].path) ==> !AllSafe(m, k)
    ensures !Refused(m[k], sources[k], payload) && m[k].directory ==> Sendable(m[k], sources[k], payload)
  {
    hide Refused, SafeBytes;
    if Refused(m[k], sources[k], payload) { assert !Sendable(m[k], sources[k], payload); }
  }

  lemma OutcomeNext(r: Report, m: seq<Entry>, sources: seq<Source>, k: nat, payload: nat, made: seq<Made>)
    requires |m| == |sources| && k < |m| && Sendable(m[k], sources[k], payload) && SafeBytes(m[k].path)
    requires Outcome(r, m, sources, k + 1, payload,
                     made + [if m[k].directory then Made.Directory(Decode(m[k].path)) else Made.File(Decode(m[k].path), sources[k].content)])
    ensures Outcome(r, m, sources, k, payload, made)
  {
    hide SafeBytes, Sendable, Volume;
    var x := if m[k].directory then Made.Directory(Decode(m[k].path)) else Made.File(Decode(m[k].path), sources[k].content);
    assert (made + [x]) + Outputs(m, sources, k + 1) == made + ([x] + Outputs(m, sources, k + 1));
  }

  ghost predicate Inside(s: Sink, m: seq<Entry>, sources: seq<Source>, k: nat, off: nat)
    requires |m| == |sources| && k < |m| && off <= |sources[k].content|
  {
    && !m[k].directory && s.files == Files(m, k) && s.dirs == k - Files(m, k) && s.total == Volume(m, k) + off
    && s.open == Some(OpenFile(m[k].fileId, m[k].size, Decode(m[k].path), sources[k].content[..off]))
  }

  lemma {:induction false} FileFed(s: Sink, m: seq<Entry>, sources: seq<Source>, k: nat, off: nat, payload: nat)
    requires GoodManifest(m, sources) && k < |m| && RECORD_HEADER + 4 < payload && SafeBytes(m[k].path)
    requires !Refused(m[k], sources[k], payload) && |sources[k].content| == m[k].size && off <= m[k].size
    requires Inside(s, m, sources, k, off) && s.expected + |FileRest(m, sources, k, off, payload)| <= LIMIT
    ensures Outcome(Fed(s, FileRest(m, sources, k, off, payload)), m, sources, k, payload, s.made)
    decreases |m| - k, 1, m[k].size - off
  {
    hide Absorbed, Numbered, SafeBytes, FileRest, DataItem, EndItem, Rest, Refused, AllSendable;
    var e, content := m[k], sources[k].content;
    FileRestIs(m, sources, k, off, payload);
    if off == |content| {
      CloseFed(s, m, sources, k, payload);
    } else {
      var cap := payload - RECORD_HEADER - 4;
      var n := PieceLength(content, off, cap);
      DataTaken(s, e, content, cap);
      HeadTail(DataItem(e, content, off, cap), FileRest(m, sources, k, off + n, payload));
      var t := s.(expected := s.expected + 1, total := s.total + n, open := Some(s.open.value.(content := content[..off + n])));
      FileFed(t, m, sources, k, off + n, payload);
    }
  }

  lemma {:induction false} CloseFed(s: Sink, m: seq<Entry>, sources: seq<Source>, k: nat, payload: nat)
    requires GoodManifest(m, sources) && k < |m| && RECORD_HEADER + 4 < payload && SafeBytes(m[k].path)
    requires !Refused(m[k], sources[k], payload) && |sources[k].content| == m[k].size
    requires Inside(s, m, sources, k, m[k].size) && s.expected + |FileClose(m, sources, k, payload)| <= LIMIT
    ensures Outcome(Fed(s, FileClose(m, sources, k, payload)), m, sources, k, payload, s.made)
    decreases |m| - k, 0
  {
    hide Absorbed, Numbered, SafeBytes, EndItem, Rest, Refused;
    var e, content := m[k], sources[k].content;
    if !sources[k].sameAfter {
      assert !Sendable(m[k], sources[k], payload);
    } else {
      assert content[..m[k].size] == content;
      EndTaken(s, e, content);
      HeadTail(EndItem(e, content), Rest(m, sources, k + 1, payload));
      var t := s.(expected := s.expected + 1, open := None, files := s.files + 1, made := s.made + [Made.File(Decode(e.path), content)]);
      RestFed(t, m, sources, k + 1, payload);
      OutcomeNext(Fed(t, Rest(m, sources, k + 1, payload)), m, sources, k, payload, s.made);
    }
  }

  // ----- from frames to records

  // The DATA frames among `frames`, in order, carry exactly these payloads.
  ghost predicate Carries(frames: seq<Bytes>, payloads: seq<Bytes>)
    decreases |frames|
  {
    if frames == [] then payloads == []
    else
      var f := ParseFrame(frames[0]);
      && f.Ok?
      && if f.value.kind != DATA then Carries(frames[1..], payloads)
         else payloads != [] && f.value.payload == payloads[0] && Carries(frames[1..], payloads[1..])
  }

  // The payloads of a plan whose first record has number n.
  ghost predicate WiresOf(payloads: seq<Bytes>, items: seq<Item>, n: nat, payload: nat) {
    && payload < 0x1_0000 && |payloads| == |items|
    && forall i :: 0 <= i < |items| ==> Fits(items[i], payload) && payloads[i] == Wire(items[i], n + i, payload)
  }

  lemma WiresNext(payloads: seq<Bytes>, items: seq<Item>, n: nat, payload: nat)
    requires WiresOf(payloads, items, n, payload) && items != []
    ensures Fits(items[0], payload) && payloads[0] == Wire(items[0], n, payload)
    ensures WiresOf(payloads[1..], items[1..], n + 1, payload)
  {
    hide Fits, Wire;
    assert Fits(items[0], payload) && payloads[0] == Wire(items[0], n + 0, payload);
    forall i | 0 <= i < |items[1..]| ensures Fits(items[1..][i], payload) && payloads[1..][i] == Wire(items[1..][i], n + 1 + i, payload) {
      assert Fits(items[i + 1], payload) && payloads[i + 1] == Wire(items[i + 1], n + (i + 1), payload);
    }
  }

  lemma WireParses(item: Item, n: nat, payload: nat)
    requires Fits(item, payload) && payload < 0x1_0000
    ensures ParseRecord(Wire(item, n, payload)) == Ok(Numbered(item, n))
  {
    hide EncodeRecord, ParseRecord;
    ParseEncodeRecord(Numbered(item, n));
  }

  lemma {:induction false} CarriedFed(s: Sink, frames: seq<Bytes>, payloads: seq<Bytes>, items: seq<Item>, payload: nat)
    requires Carries(frames, payloads) && WiresOf(payloads, items, s.expected, payload)
    ensures Consumed(s, frames) == Fed(s, items)
    decreases |frames|
  {
    hide ParseFrame, ParseRecord, Absorbed, Numbered, Wire, WiresOf, Fits;
    SameLength(payloads, items, s.expected, payload);
    if frames != [] {
      var f := ParseFrame(frames[0]);
      if f.value.kind != DATA {
        CarriedFed(s, frames[1..], payloads, items, payload);
      } else {
        WiresNext(payloads, items, s.expected, payload);
        WireParses(items[0], s.expected, payload);
        match Absorbed(s, Numbered(items[0], s.expected))
        case Broken =>
        case Complete(t) =>
        case More(t) =>
          Counted(s, Numbered(items[0], s.expected));
          CarriedFed(t, frames[1..], payloads[1..], items[1..], payload);
      }
    }
  }

  lemma SameLength(payloads: seq<Bytes>, items: seq<Item>, n: nat, payload: nat)
    requires WiresOf(payloads, items, n, payload)
    ensures |payloads| == |items| && payload < 0x1_0000
  {}

  // Every record taken advances the expected number by one.
  lemma Counted(s: Sink, r: Record)
    ensures Absorbed(s, r).More? ==> Absorbed(s, r).sink.expected == s.expected + 1
  {
    hide SafePath, Get16, Get32, Crc, PutWord;
  }

  // What completes early completes.
  lemma {:induction false} FedMore(s: Sink, items: seq<Item>, k: nat)
    requires k <= |items|
    ensures Fed(s, items[..k]).ok ==> Fed(s, items) == Fed(s, items[..k])
    decreases |items|
  {
    hide Absorbed, Numbered;
    if k > 0 {
      var r := Absorbed(s, Numbered(items[0], s.expected));
      assert items[..k][0] == items[0] && items[..k][1..] == items[1..][..k - 1];
      if r.More? { FedMore(r.sink, items[1..], k - 1); }
    }
  }

  // Feeding the producer's records in order, the first k of them, and all when
  // every entry can be sent: the transfer is reported complete exactly when
  // every entry could be sent, every path is safe and the volume fits 32 bits,
  // and then the outputs are the selection, byte for byte.
  lemma EndToEnd(m: seq<Entry>, sources: seq<Source>, now: U32, payload: nat, k: nat, payloads: seq<Bytes>, frames: seq<Bytes>)
    requires GoodManifest(m, sources) && 96 <= payload < 0x1_0000 && k <= |Items(m, sources, now, payload)| <= LIMIT
    requires AllSendable(m, sources, 0, payload) ==> k == |Items(m, sources, now, payload)|
    requires WiresOf(payloads, Items(m, sources, now, payload)[..k], 0, payload) && Carries(frames, payloads)
    ensures Outcome(Consumed(Empty(), frames), m, sources, 0, payload, [])
  {
    hide Absorbed, Numbered, Wire, WiresOf, Rest, SafeBytes, AllSendable, Carries;
    var items := Items(m, sources, now, payload);
    CarriedFed(Empty(), frames, payloads, items[..k], payload);
    SessionTaken(Empty(), now);
    HeadTail(SessionItem(now), Rest(m, sources, 0, payload));
    var s := Empty().(expected := 1);
    RestFed(s, m, sources, 0, payload);
    assert Outcome(Fed(Empty(), items), m, sources, 0, payload, []);
    FedMore(Empty(), items, k);
    assert k == |items| ==> items[..k] == items;
  }

  // ----- the two programs one after the other

  // The DATA frame of one record.
  function DataFrame(session: U32, window: nat, i: nat, payload: Bytes): Frame
    requires 0 < window < 0x1_0000 && i < LIMIT
  {
    Frame(DATA, FLAG_WHITENED, session, i / window, i, i % window, window, 0, 0, payload)
  }

  lemma DataFrameParses(session: U32, window: nat, i: nat, payload: Bytes)
    requires 0 < window < 0x1_0000 && i < LIMIT && session != 0 && |payload| < 0x1_0000
    ensures var f := DataFrame(session, window, i, payload);
            EncodeFrame(f).Ok? && ParseFrame(EncodeFrame(f).value) == Ok(f)
  {
    hide EncodeFrame, ParseFrame;
    var f := DataFrame(session, window, i, payload);
    OneMode();
    assert Acceptable(f);
    ParseEncode(f);
  }

  lemma OneMode()
    ensures FLAG_WHITENED & UNKNOWN_FLAGS == 0 && WhiteningModes(FLAG_WHITENED) == 1
    ensures !Has(FLAG_WHITENED, FLAG_PLANE_WHITENED) && !Has(FLAG_WHITENED, FLAG_GROUP_XOR_WHITENED)
  {}

  lemma {:induction false} CarriesMore(frames: seq<Bytes>, payloads: seq<Bytes>, frame: Bytes, payload: Bytes)
    requires Carries(frames, payloads) && ParseFrame(frame).Ok? && ParseFrame(frame).value.kind == DATA
    requires ParseFrame(frame).value.payload == payload
    ensures Carries(frames + [frame], payloads + [payload])
    decreases |frames|
  {
    hide ParseFrame;
    if frames == [] {
      assert ([frame] + [])[1..] == [] && ([payload] + [])[1..] == [];
      assert Carries([], []);
      assert frames + [frame] == [frame] && payloads + [payload] == [payload];
    } else {
      assert (frames + [frame])[0] == frames[0] && (frames + [frame])[1..] == frames[1..] + [frame];
      if ParseFrame(frames[0]).value.kind != DATA {
        CarriesMore(frames[1..], payloads, frame, payload);
      } else {
        CarriesMore(frames[1..], payloads[1..], frame, payload);
        assert (payloads + [payload])[0] == payloads[0] && (payloads + [payload])[1..] == payloads[1..] + [payload];
      }
    }
  }

  // All records, as the wire bytes of their frames.
  method FrameAll(records: seq<Bytes>, window: nat, session: U32) returns (frames: seq<Bytes>)
    requires 0 < window < 0x1_0000 && session != 0 && |records| <= LIMIT
    requires forall i :: 0 <= i < |records| ==> |records[i]| < 0x1_0000
    ensures Carries(frames, records)
  {
    hide EncodeFrame, ParseFrame, Carries, DataFrame;
    frames := [];
    NothingCarried();
    assert records[..0] == [];
    for i := 0 to |records|
      invariant Carries(frames, records[..i])
    {
      DataFrameParses(session, window, i, records[i]);
      FrameIsData(session, window, i, records[i]);
      var frame := EncodeFrame(DataFrame(session, window, i, records[i])).value;
      CarriesMore(frames, records[..i], frame, records[i]);
      assert records[..i] + [records[i]] == records[..i + 1];
      frames := frames + [frame];
    }
    assert records[..|records|] == records;
  }

  lemma FrameIsData(session: U32, window: nat, i: nat, payload: Bytes)
    requires 0 < window < 0x1_0000 && i < LIMIT
    ensures DataFrame(session, window, i, payload).kind == DATA && DataFrame(session, window, i, payload).payload == payload
  {}

  method SendAll(m: seq<Entry>, sources: seq<Source>, now: U32, payload: nat, window: nat) returns (reported: bool, records: seq<Bytes>)
    requires GoodManifest(m, sources) && 96 <= payload <= 2904 && 0 < window
    ensures var items := Items(m, sources, now, payload);
            && |records| <= |items| && WiresOf(records, items[..|records|], 0, payload)
            && (AllSendable(m, sources, 0, payload) ==> |records| == |items|)
            && (reported <==> |items| >= window || AllSendable(m, sources, 0, payload))
  {
    hide Wire, Fits, Rest, AllSendable;
    var p := new Producer(m, sources, payload, now);
    reported, records := p.RunTransfer(window);
    ghost var items := Items(m, sources, now, payload);
    assert |records| <= |items|;
    forall i | 0 <= i < |records| ensures items[..|records|][i] == items[i] {}
  }

  // Send everything, receive every frame, reconstruct.  The sender announces a
  // complete transfer also when an entry cannot be sent, unless that happens in
  // the first window.
  method Transfer(m: seq<Entry>, sources: seq<Source>, now: U32, payload: nat, window: nat, session: U32)
    returns (reported: bool, ok: bool, made: seq<Made>)
    requires GoodManifest(m, sources) && 96 <= payload <= 2904 && 0 < window < 0x1_0000 && session != 0
    requires |Items(m, sources, now, payload)| <= LIMIT
    ensures ok <==> AllSendable(m, sources, 0, payload) && AllSafe(m, 0) && Volume(m, |m|) < LIMIT
    ensures ok ==> made == Outputs(m, sources, 0)
    ensures reported <==> |Items(m, sources, now, payload)| >= window || AllSendable(m, sources, 0, payload)
  {
    hide EncodeFrame, ParseFrame, Wire, Fits, Items, WiresOf, Carries, SafeBytes, AllSendable, AllSafe, Volume;
    var records;
    reported, records := SendAll(m, sources, now, payload, window);
    RecordSizes(records, Items(m, sources, now, payload)[..|records|], payload);
    var frames := FrameAll(records, window, session);
    EndToEnd(m, sources, now, payload, |records|, records, frames);
    ok, made := Reconstruct(frames);
    assert [] + Outputs(m, sources, 0) == Outputs(m, sources, 0);
  }

  lemma NothingCarried()
    ensures Carries([], [])
  {}

  lemma RecordSizes(records: seq<Bytes>, items: seq<Item>, payload: nat)
    requires WiresOf(records, items, 0, payload)
    ensures |records| == |items| && forall i :: 0 <= i < |records| ==> |records[i]| < 0x1_0000
  {
    hide EncodeRecord;
    forall i | 0 <= i < |records| ensures |records[i]| < 0x1_0000 {
      assert Fits(items[i], payload) && records[i] == Wire(items[i], 0 + i, payload);
    }
  }
}
