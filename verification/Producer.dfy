// producer.c: the records of one selection.  Directories and files become
// records in manifest order; a file is read through two disk buffers used in
// turn, and its checksum is kept piece by piece.

module Producer {
  import opened Gf2
  import opened Crc32
  import opened Protocol

  const DISK_BUFFER: nat := 16384
  const PATH_BYTES: nat := 128

  datatype Entry = Entry(directory: bool, attributes: Byte, date: U16, time: U16, size: U32, fileId: U32, path: Bytes)

  // A file as the producer meets it: whether it opens, what it holds, and
  // whether size and time stamp still match the manifest before and after.
  datatype Source = Source(opens: bool, content: Bytes, sameBefore: bool, sameAfter: bool)

  datatype Item = Item(kind: U8, fileId: U32, body: Bytes)

  predicate GoodManifest(m: seq<Entry>, sources: seq<Source>) {
    && |m| == |sources| < 0x1_0000_0000
    && forall k :: 0 <= k < |m| ==> |m[k].path| < PATH_BYTES && (sources[k].sameBefore ==> |sources[k].content| == m[k].size)
  }

  // ----- the records a selection stands for

  // path_meta.
  function Meta(e: Entry): (b: Bytes)
    requires |e.path| < PATH_BYTES
    ensures |b| == (if e.directory then 8 else 12) + |e.path|
  {
    [e.attributes, 0] + Put16(e.date) + Put16(e.time) + (if e.directory then [] else Put32(e.size)) + Put16(|e.path|) + e.path
  }

  function PieceLength(content: Bytes, off: nat, cap: nat): nat
    requires off <= |content|
  {
    if |content| - off < cap then |content| - off else cap
  }

  function DataItem(e: Entry, content: Bytes, off: nat, cap: nat): Item
    requires off <= |content| < 0x1_0000_0000
  {
    Item(FILE_DATA, e.fileId, Put32(off) + content[off..off + PieceLength(content, off, cap)])
  }

  function DataItems(e: Entry, content: Bytes, off: nat, cap: nat): seq<Item>
    requires off <= |content| < 0x1_0000_0000 && cap > 0
    decreases |content| - off
  {
    if off == |content| then []
    else [DataItem(e, content, off, cap)] + DataItems(e, content, off + PieceLength(content, off, cap), cap)
  }

  function BeginItem(e: Entry): Item
    requires |e.path| < PATH_BYTES
  {
    Item(FILE_BEGIN, e.fileId, Meta(e))
  }

  function EndItem(e: Entry, content: Bytes): Item {
    Item(FILE_END, e.fileId, Put32(e.size) + PutWord(Crc(content)))
  }

  function Files(m: seq<Entry>, k: nat): (n: nat)
    requires k <= |m|
    ensures n <= k
  {
    if k == 0 then 0 else Files(m, k - 1) + if m[k - 1].directory then 0 else 1
  }

  function Volume(m: seq<Entry>, k: nat): nat
    requires k <= |m|
  {
    if k == 0 then 0 else Volume(m, k - 1) + if m[k - 1].directory then 0 else m[k - 1].size
  }

  function TransferItem(m: seq<Entry>): Item
    requires |m| < 0x1_0000_0000
  {
    Item(TRANSFER_END, 0, Put32(Files(m, |m|)) + Put32(|m| - Files(m, |m|)) + Put32(0) + Put32(Volume(m, |m|) % 0x1_0000_0000))
  }

  const NAME: Bytes := [0x44, 0x4F, 0x53, 0x46, 0x45, 0x52]

  function SessionItem(now: U32): Item {
    Item(SESSION, 0, Put32(now) + Put16(6) + NAME)
  }

  // Whether an entry is refused at once: the file does not open, is not the
  // one selected any more, or the metadata does not fit the payload.
  predicate Refused(e: Entry, s: Source, payload: nat) {
    || (!e.directory && (!s.opens || !s.sameBefore))
    || RECORD_HEADER + (if e.directory then 8 else 12) + |e.path| > payload
  }

  // An entry the producer can send to the end.
  predicate Sendable(e: Entry, s: Source, payload: nat) {
    !Refused(e, s, payload) && (e.directory || s.sameAfter)
  }

  predicate AllSendable(m: seq<Entry>, sources: seq<Source>, k: nat, payload: nat)
    requires |m| == |sources| && k <= |m|
  {
    forall i :: k <= i < |m| ==> Sendable(m[i], sources[i], payload)
  }

  // Everything from entry k on, up to the first entry that cannot be sent.
  function Rest(m: seq<Entry>, sources: seq<Source>, k: nat, payload: nat): seq<Item>
    requires GoodManifest(m, sources) && k <= |m| && RECORD_HEADER + 4 < payload
    decreases |m| - k, 2
  {
    if k == |m| then [TransferItem(m)]
    else if Refused(m[k], sources[k], payload) then []
    else if m[k].directory then [Item(DIRECTORY, 0, Meta(m[k]))] + Rest(m, sources, k + 1, payload)
    else [BeginItem(m[k])] + FileRest(m, sources, k, 0, payload)
  }

  // The same inside file k, from offset off on.
  function FileRest(m: seq<Entry>, sources: seq<Source>, k: nat, off: nat, payload: nat): seq<Item>
    requires GoodManifest(m, sources) && k < |m| && off <= |sources[k].content| < 0x1_0000_0000 && RECORD_HEADER + 4 < payload
    decreases |m| - k, 1
  {
    DataItems(m[k], sources[k].content, off, payload - RECORD_HEADER - 4) + FileClose(m, sources, k, payload)
  }

  function FileClose(m: seq<Entry>, sources: seq<Source>, k: nat, payload: nat): seq<Item>
    requires GoodManifest(m, sources) && k < |m| && |sources[k].content| < 0x1_0000_0000 && RECORD_HEADER + 4 < payload
    decreases |m| - k, 0
  {
    if !sources[k].sameAfter then []
    else [EndItem(m[k], sources[k].content)] + Rest(m, sources, k + 1, payload)
  }

  // The whole transfer.
  function Items(m: seq<Entry>, sources: seq<Source>, now: U32, payload: nat): seq<Item>
    requires GoodManifest(m, sources) && RECORD_HEADER + 4 < payload
  {
    [SessionItem(now)] + Rest(m, sources, 0, payload)
  }


  lemma TakeFront(content: Bytes, off: nat, a: Bytes, b: Bytes, n: nat)
    requires off <= |content| && content[off..] == a + b && n <= |a|
    ensures off + n <= |content| && content[off..off + n] == a[..n] && content[off + n..] == a[n..] + b
  {
    assert content[off..][..n] == content[off..off + n] && content[off..][n..] == content[off + n..];
  }

  // The equations of the plan, one at a time.
  lemma RestIs(m: seq<Entry>, sources: seq<Source>, k: nat, payload: nat)
    requires GoodManifest(m, sources) && k < |m| && RECORD_HEADER + 4 < payload
    ensures !Refused(m[k], sources[k], payload) && !m[k].directory ==> |sources[k].content| == m[k].size
    ensures Rest(m, sources, k, payload) ==
            if Refused(m[k], sources[k], payload) then []
            else if m[k].directory then [Item(DIRECTORY, 0, Meta(m[k]))] + Rest(m, sources, k + 1, payload)
            else [BeginItem(m[k])] + FileRest(m, sources, k, 0, payload)
  {
    hide FileRest, Meta;
  }

  lemma FileRestIs(m: seq<Entry>, sources: seq<Source>, k: nat, off: nat, payload: nat)
    requires GoodManifest(m, sources) && k < |m| && off <= |sources[k].content| < 0x1_0000_0000 && RECORD_HEADER + 4 < payload
    ensures FileRest(m, sources, k, off, payload) ==
            var content, cap := sources[k].content, payload - RECORD_HEADER - 4;
            if off == |content| then FileClose(m, sources, k, payload)
            else [DataItem(m[k], content, off, cap)] +
                 FileRest(m, sources, k, off + PieceLength(content, off, cap), payload)
  {
    hide FileClose, DataItem;
    if off == |sources[k].content| {
      assert [] + FileClose(m, sources, k, payload) == FileClose(m, sources, k, payload);
    } else {
      var content, cap := sources[k].content, payload - RECORD_HEADER - 4;
      var next := off + PieceLength(content, off, cap);
      assert ([DataItem(m[k], content, off, cap)] + DataItems(m[k], content, next, cap)) + FileClose(m, sources, k, payload)
          == [DataItem(m[k], content, off, cap)] + (DataItems(m[k], content, next, cap) + FileClose(m, sources, k, payload));
    }
  }

  lemma HeadTail<T>(x: T, rest: seq<T>)
    ensures ([x] + rest)[0] == x && ([x] + rest)[1..] == rest && [x] + rest != []
  {}

  lemma HandOver(here: Bytes, there: Bytes, unread: Bytes)
    ensures here == [] ==> here + (there + unread) == there + (here + unread)
  {
    if here == [] { assert here + unread == unread; }
  }

  lemma BeginFits(e: Entry, s: Source, payload: nat)
    requires |e.path| < PATH_BYTES && !e.directory && !Refused(e, s, payload)
    ensures RECORD_HEADER + |BeginItem(e).body| <= payload && s.sameBefore
  {
    hide Meta;
  }

  // One call's reply: a record, nothing more to send, or a failure.
  datatype Reply = Sent(payload: Bytes) | Finished | Failed

  predicate Fits(item: Item, payload: nat) {
    1 <= item.kind <= 6 && RECORD_HEADER + |item.body| <= payload
  }

  // A number of the record counter, which wraps at 32 bits.
  function Numbered(item: Item, n: nat): Record {
    Record(item.kind, n % 0x1_0000_0000, item.fileId, item.body)
  }

  function Wire(item: Item, n: nat, payload: nat): Bytes
    requires Fits(item, payload) && payload < 0x1_0000_0000
  {
    EncodeRecord(Numbered(item, n))
  }

  // The frames of k full windows, and what of n frames fills whole windows.
  function Windows(k: nat, frames: nat): nat {
    k * frames
  }

  function InWindows(n: nat, frames: nat): (r: nat)
    requires frames > 0
    ensures r <= n
  {
    Divided(n, frames);
    Windows(n / frames, frames)
  }

  lemma OneWindow(k: nat, frames: nat)
    ensures Windows(k + 1, frames) == Windows(k, frames) + frames && Windows(0, frames) == 0 && Windows(1, frames) == frames
  {}

  lemma WholeWindows(n: nat, frames: nat, k: nat)
    requires frames > 0
    ensures Windows(k, frames) <= n < Windows(k, frames) + frames ==> InWindows(n, frames) == Windows(k, frames)
  {
    var q := n / frames;
    Divided(n, frames);
    OneWindow(k, frames);
    OneWindow(q, frames);
    WindowsGrow(k + 1, q, frames);
    WindowsGrow(q + 1, k, frames);
    hide Windows;
  }

  lemma Divided(n: nat, frames: nat)
    requires frames > 0
    ensures Windows(n / frames, frames) <= n < Windows(n / frames, frames) + frames
  {}

  lemma WindowsGrow(a: nat, b: nat, frames: nat)
    ensures a <= b ==> Windows(a, frames) <= Windows(b, frames)
  {
    if a <= b { assert b * frames == a * frames + (b - a) * frames; }
  }

  class Producer {
    const manifest: seq<Entry>
    const sources: seq<Source>
    const payload: nat
    const now: U32
    var state: nat
    var at: nat
    var recordId: nat
    // the open file: what is left to read of it, and the two buffers
    var unread: Bytes
    const disk: array<Bytes>
    const pos: array<nat>
    var slot: nat
    var fileOffset: nat
    var fileCrc: Word
    var fileCount: nat
    var totalBytes: nat

    ghost predicate Fixed() {
      && GoodManifest(manifest, sources) && 96 <= payload < 0x1_0000
      && disk.Length == pos.Length == 2
    }

    // What is left of one buffer, and of the file.
    function Buffered(i: nat): Bytes
      requires disk.Length == pos.Length == 2 && i < 2 && pos[i] <= |disk[i]|
      reads disk, pos
    {
      disk[i][pos[i]..]
    }

    ghost predicate Reading(content: Bytes)
      requires disk.Length == pos.Length == 2
      reads this`unread, this`slot, this`fileOffset, disk, pos
    {
      && slot < 2 && pos[0] <= |disk[0]| && pos[1] <= |disk[1]| && fileOffset <= |content|
      && content[fileOffset..] == Buffered(slot) + (Buffered(1 - slot) + unread)
      && (Buffered(slot) == [] ==> Buffered(1 - slot) == [])
    }

    // Inside a file: the entry before `at`.
    ghost predicate InFile()
      requires Fixed()
      reads this, disk, pos
    {
      && 0 < at <= |manifest| && !manifest[at - 1].directory && !Refused(manifest[at - 1], sources[at - 1], payload)
      && var content := sources[at - 1].content;
         Reading(content) && fileCrc == Crc(content[..fileOffset])
    }

    ghost predicate AllSent(k: int)
      requires |manifest| == |sources| && k <= |manifest|
    {
      forall i :: 0 <= i < k ==> Sendable(manifest[i], sources[i], payload)
    }

    ghost predicate Valid()
      reads this, disk, pos
    {
      && Fixed() && at <= |manifest| && state in {0, 1, 2, 3, 5, 6}
      && (state == 0 ==> at == 0)
      && (state == 2 || state == 3 ==> InFile())
      && (state == 3 ==> fileOffset == |sources[at - 1].content|)
      && (state >= 5 ==> at == |manifest|)
      && AllSent(if state == 2 || state == 3 then at - 1 else at)
      && fileCount == Files(manifest, at) && totalBytes == Volume(manifest, at) % 0x1_0000_0000
    }

    // What is still to come.
    ghost function Left(): seq<Item>
      requires Valid()
      reads this, disk, pos
    {
      if state == 0 then Items(manifest, sources, now, payload)
      else if state == 1 then Rest(manifest, sources, at, payload)
      else if state == 2 then FileRest(manifest, sources, at - 1, fileOffset, payload)
      else if state == 3 then FileClose(manifest, sources, at - 1, payload)
      else if state == 5 then [TransferItem(manifest)]
      else []
    }

    constructor (m: seq<Entry>, s: seq<Source>, framePayload: nat, time: U32)
      requires GoodManifest(m, s) && 96 <= framePayload < 0x1_0000
      ensures Valid() && state == 0 && recordId == 0 && manifest == m && sources == s && payload == framePayload && now == time
      ensures fresh(disk) && fresh(pos)
    {
      manifest, sources, payload, now := m, s, framePayload, time;
      state, at, recordId, unread, slot, fileOffset, fileCrc := 0, 0, 0, [], 0, 0, 0;
      fileCount, totalBytes := 0, 0;
      disk := new Bytes[2](_ => []);
      pos := new nat[2](_ => 0);
    }

    // fread of one buffer.
    method Fill(i: nat)
      requires disk.Length == pos.Length == 2 && i < 2
      modifies this`unread, disk, pos
      ensures pos[i] == 0 && disk[i] + unread == old(unread) && (disk[i] == [] ==> old(unread) == [])
      ensures disk[1 - i] == old(disk[1 - i]) && pos[1 - i] == old(pos[1 - i])
    {
      var n := if |unread| < DISK_BUFFER then |unread| else DISK_BUFFER;
      disk[i] := unread[..n];
      pos[i] := 0;
      unread := unread[n..];
    }

    // start_file past its checks.
    method StartFile(content: Bytes)
      requires Fixed()
      modifies this`unread, this`slot, this`fileOffset, this`fileCrc, disk, pos
      ensures Reading(content) && fileOffset == 0 && fileCrc == 0
    {
      fileOffset, fileCrc, slot := 0, 0, 0;
      unread := content;
      Fill(0);
      Fill(1);
    }

    // The current buffer, refilled when it is empty.
    method Refill(ghost content: Bytes)
      requires Fixed() && Reading(content) && fileOffset < |content|
      modifies this`unread, disk, pos
      ensures Reading(content) && Buffered(slot) != []
    {
      ghost var rest := content[fileOffset..];
      if pos[slot] >= |disk[slot]| {
        Fill(slot);
        assert Buffered(slot) == disk[slot] && Buffered(1 - slot) == [];
        assert rest == Buffered(slot) + ([] + unread);
      }
    }

    // n bytes of the current buffer are used; when it is exhausted it hands
    // over to the other.
    method Use(n: nat, ghost content: Bytes)
      requires Fixed() && Reading(content) && n <= |Buffered(slot)|
      modifies this`slot, this`fileOffset, pos
      ensures Reading(content) && fileOffset == old(fileOffset) + n
    {
      hide GoodManifest;
      ghost var here, there := Buffered(slot), Buffered(1 - slot);
      TakeFront(content, fileOffset, here, there + unread, n);
      HandOver(here[n..], there, unread);
      pos[slot] := pos[slot] + n;
      fileOffset := fileOffset + n;
      assert Buffered(slot) == here[n..];
      if pos[slot] >= |disk[slot]| { slot := 1 - slot; }
    }

    // One memcpy of read_piece.
    method TakeBuffered(limit: nat, ghost content: Bytes) returns (out: Bytes)
      requires Fixed() && Reading(content) && fileOffset < |content| && limit > 0
      modifies this`unread, this`slot, this`fileOffset, disk, pos
      ensures Reading(content) && old(fileOffset) < fileOffset && out == content[old(fileOffset)..fileOffset] && |out| <= limit
    {
      Refill(content);
      var n := if |disk[slot]| - pos[slot] < limit then |disk[slot]| - pos[slot] else limit;
      out := disk[slot][pos[slot]..pos[slot] + n];
      assert out == Buffered(slot)[..n];
      TakeFront(content, fileOffset, Buffered(slot), Buffered(1 - slot) + unread, n);
      Use(n, content);
    }

    // read_piece: up to `want` bytes, whichever buffer they are in.
    method ReadPiece(want: nat, ghost content: Bytes, size: nat) returns (out: Bytes)
      requires Fixed() && Reading(content) && size == |content|
      modifies this`unread, this`slot, this`fileOffset, this`fileCrc, disk, pos
      ensures Reading(content) && fileOffset == old(fileOffset) + PieceLength(content, old(fileOffset), want)
      ensures out == content[old(fileOffset)..fileOffset]
      ensures fileCrc == CrcUpdate(old(fileCrc), out)
    {
      out := [];
      while |out| < want && fileOffset < size
        invariant Reading(content) && old(fileOffset) <= fileOffset && fileCrc == old(fileCrc)
        invariant out == content[old(fileOffset)..fileOffset] && |out| <= want
        decreases size - fileOffset
      {
        var more := TakeBuffered(want - |out|, content);
        out := out + more;
      }
      fileCrc := CrcUpdate(fileCrc, out);
    }

    // One record with the next number.
    method Emit(item: Item) returns (r: Reply)
      requires Fits(item, payload) && payload < 0x1_0000
      modifies this`recordId
      ensures r == Sent(Wire(item, old(recordId), payload)) && recordId == old(recordId) + 1
    {
      r := Sent(Wire(item, recordId, payload));
      recordId := recordId + 1;
    }

    // What a call did: the first of the records still to come, or nothing when
    // there is none.
    ghost predicate Did(r: Reply, was: seq<Item>, n: nat)
      reads this, disk, pos
    {
      match r
      case Sent(b) =>
        was != [] && Fits(was[0], payload) && payload < 0x1_0000 && b == Wire(was[0], n, payload)
        && Valid() && Left() == was[1..] && recordId == n + 1
      case Finished => was == [] && Valid() && Left() == [] && state == 6 && recordId == n
      case Failed => was == [] && |manifest| == |sources| && !AllSendable(manifest, sources, 0, payload)
    }

    method SendSession() returns (r: Reply)
      requires Valid() && state == 0
      modifies this`state, this`recordId
      ensures Did(r, old(Left()), old(recordId))
    {
      hide Wire, Rest, Files, Volume, Refused, GoodManifest, Sendable;
      HeadTail(SessionItem(now), Rest(manifest, sources, 0, payload));
      r := Emit(SessionItem(now));
      state := 1;
    }

    method SendTransferEnd() returns (r: Reply)
      requires Valid() && state == 5
      modifies this`state, this`recordId
      ensures Did(r, old(Left()), old(recordId))
    {
      hide Wire, Files, Volume, Put32, Refused, Sendable;
      var item := Item(TRANSFER_END, 0, Put32(fileCount) + Put32(|manifest| - fileCount) + Put32(0) + Put32(totalBytes));
      assert Left() == [item];
      r := Emit(item);
      state := 6;
    }

    method SendDirectory() returns (r: Reply)
      requires Valid() && state == 1 && at < |manifest| && manifest[at].directory
      requires !Refused(manifest[at], sources[at], payload)
      modifies this`at, this`recordId
      ensures Did(r, old(Left()), old(recordId))
    {
      hide Wire, Rest, Crc, Reading, Meta;
      var e := manifest[at];
      RestIs(manifest, sources, at, payload);
      at := at + 1;
      HeadTail(Item(DIRECTORY, 0, Meta(e)), Rest(manifest, sources, at, payload));
      r := Emit(Item(DIRECTORY, 0, Meta(e)));
    }

    method BeginFile() returns (r: Reply)
      requires Valid() && state == 1 && at < |manifest| && !manifest[at].directory
      requires !Refused(manifest[at], sources[at], payload)
      modifies this, disk, pos
      ensures Did(r, old(Left()), old(recordId))
    {
      hide Wire, Rest, FileRest, CrcUpdate, Crc, Reading, Meta, Sendable, Refused, DataItems, FileClose, TransferItem;
      var e := manifest[at];
      BeginFits(e, sources[at], payload);
      RestIs(manifest, sources, at, payload);
      HeadTail(BeginItem(e), FileRest(manifest, sources, at, 0, payload));
      StartFile(sources[at].content);
      CrcOfPieces([], []);
      at := at + 1;
      fileCount := fileCount + 1;
      totalBytes := (totalBytes + e.size) % 0x1_0000_0000;
      state := 2;
      assert sources[at - 1].content[..0] == [];
      r := Emit(BeginItem(e));
    }

    // The next manifest entry.
    method SendEntry() returns (r: Reply)
      requires Valid() && state == 1 && at < |manifest|
      modifies this, disk, pos
      ensures Did(r, old(Left()), old(recordId))
    {
      if Refused(manifest[at], sources[at], payload) {
        RefusedEntry();
        return Failed;
      }
      hide Left, Fits;
      if manifest[at].directory { r := SendDirectory(); } else { r := BeginFile(); }
    }

    lemma RefusedEntry()
      requires Valid() && state == 1 && at < |manifest| && Refused(manifest[at], sources[at], payload)
      ensures Left() == [] && !AllSendable(manifest, sources, 0, payload)
    {
      hide FileRest, Refused;
      assert !Sendable(manifest[at], sources[at], payload);
    }

    // The next piece of the open file.
    method SendPiece() returns (r: Reply)
      requires Valid() && state == 2 && fileOffset < manifest[at - 1].size
      modifies this`unread, this`slot, this`fileOffset, this`fileCrc, this`recordId, disk, pos
      ensures Did(r, old(Left()), old(recordId))
    {
      hide Wire, Rest, FileRest, FileClose, DataItems, CrcUpdate, Crc, Refused, Sendable, Reading, Put32, Files, Volume;
      var e := manifest[at - 1];
      ghost var content := sources[at - 1].content;
      OpenSize();
      var off := fileOffset;
      FileRestIs(manifest, sources, at - 1, off, payload);
      var piece := ReadPiece(payload - RECORD_HEADER - 4, content, e.size);
      CrcOfPieces(content[..off], piece);
      assert content[..off] + piece == content[..fileOffset];
      HeadTail(DataItem(e, content, off, payload - RECORD_HEADER - 4), FileRest(manifest, sources, at - 1, fileOffset, payload));
      r := Emit(Item(FILE_DATA, e.fileId, Put32(off) + piece));
    }

    lemma OpenSize()
      requires Valid() && (state == 2 || state == 3)
      ensures |sources[at - 1].content| == manifest[at - 1].size && fileOffset <= |sources[at - 1].content|
      ensures !manifest[at - 1].directory
    {
      hide Crc;
    }

    // The end of the open file.
    method SendFileEnd() returns (r: Reply)
      requires Valid() && state == 3
      modifies this`state, this`recordId
      ensures Did(r, old(Left()), old(recordId))
    {
      hide Wire, Rest, Crc, Refused, Reading, Put32, PutWord, Files, Volume;
      var e, s := manifest[at - 1], sources[at - 1];
      OpenSize();
      if !s.sameAfter {
        assert !Sendable(manifest[at - 1], sources[at - 1], payload);
        return Failed;
      }
      assert s.content[..fileOffset] == s.content;
      HeadTail(EndItem(e, s.content), Rest(manifest, sources, at, payload));
      r := Emit(Item(FILE_END, e.fileId, Put32(e.size) + PutWord(fileCrc)));
      state := 1;
    }

    // The states that pass on to the next without a record.
    method Settle()
      requires Valid()
      modifies this`state
      ensures Valid() && Left() == old(Left())
      ensures state == 1 ==> at < |manifest|
      ensures state == 2 ==> fileOffset < manifest[at - 1].size
    {
      hide GoodManifest, Refused, Sendable, Crc, Files, Volume, FileRest, FileClose, Items, TransferItem;
      if state == 1 && at == |manifest| { state := 5; }
      if state == 2 {
        OpenSize();
        FileRestIs(manifest, sources, at - 1, fileOffset, payload);
        if fileOffset >= manifest[at - 1].size { state := 3; }
      }
    }

    // producer_next.
    method Next() returns (r: Reply)
      requires Valid()
      modifies this, disk, pos
      ensures Did(r, old(Left()), old(recordId))
    {
      Settle();
      hide Fits, Left, AllSendable;
      if state == 0 { r := SendSession(); }
      else if state == 1 { r := SendEntry(); }
      else if state == 2 { r := SendPiece(); }
      else if state == 3 { r := SendFileEnd(); }
      else if state == 5 { r := SendTransferEnd(); }
      else { r := AtEnd(); }
    }

    method AtEnd() returns (r: Reply)
      requires Valid() && state == 6
      ensures Did(r, Left(), recordId)
    {
      r := Finished;
    }

    // The records sent so far of a plan that starts with record number n.
    ghost predicate Emitted(out: seq<Bytes>, was: seq<Item>, n: nat)
      requires payload < 0x1_0000
    {
      |out| <= |was| && forall i :: 0 <= i < |out| ==> Fits(was[i], payload) && out[i] == Wire(was[i], n + i, payload)
    }

    // producer_fill_window: up to `frames` records.  One result says both that
    // nothing is left and that a record could not be made; records before a
    // failure stay in a window nobody shows.
    method FillWindow(frames: nat) returns (filled: bool, out: seq<Bytes>)
      requires Valid() && frames > 0
      modifies this, disk, pos
      ensures payload < 0x1_0000 && Emitted(out, old(Left()), old(recordId)) && GoodManifest(manifest, sources)
      ensures |out| == if |old(Left())| < frames then |old(Left())| else frames
      ensures filled <==> |old(Left())| >= frames || (old(Left()) != [] && AllSendable(manifest, sources, 0, payload))
      ensures filled ==> Valid() && Left() == old(Left())[|out|..] && recordId == old(recordId) + |out| && (|out| < frames ==> state == 6)
    {
      hide Left, Wire, Fits, AllSendable, GoodManifest;
      ghost var was, n := Left(), recordId;
      Manifested();
      out := [];
      var failed, more := false, true;
      while more && |out| < frames
        invariant |out| <= |was| && |out| <= frames && payload < 0x1_0000 && Emitted(out, was, n)
        invariant !failed ==> Valid() && Left() == was[|out|..] && recordId == n + |out|
        invariant !more && !failed ==> state == 6 && |out| == |was|
        invariant failed ==> !more && |out| == |was| < frames && !AllSendable(manifest, sources, 0, payload)
        decreases more, frames - |out|
      {
        var r := Next();
        match r {
          case Failed => failed, more := true, false;
          case Finished => more := false;
          case Sent(b) => out := out + [b];
        }
      }
      if !failed && state == 6 { Drained(); }
      filled := !failed && |out| > 0;
    }

    lemma Manifested()
      requires Valid()
      ensures GoodManifest(manifest, sources) && payload < 0x1_0000
    {}

    lemma EmittedMore(shown: seq<Bytes>, window: seq<Bytes>, was: seq<Item>, n: nat)
      requires payload < 0x1_0000 && |shown| <= |was| && Emitted(shown, was, n) && Emitted(window, was[|shown|..], n + |shown|)
      ensures Emitted(shown + window, was, n)
    {
      hide Fits, Wire;
      forall i | 0 <= i < |shown + window| ensures Fits(was[i], payload) && (shown + window)[i] == Wire(was[i], n + i, payload) {
        if i >= |shown| { assert was[|shown|..][i - |shown|] == was[i]; }
      }
    }

    // After k windows, all of them full unless the plan has ended.
    ghost predicate Going(shown: seq<Bytes>, was: seq<Item>, frames: nat, k: nat)
      reads this, disk, pos
    {
      && Valid() && payload < 0x1_0000 && |shown| <= |was| && Emitted(shown, was, 0)
      && Left() == was[|shown|..] && recordId == |shown| && (|shown| == Windows(k, frames) || state == 6)
    }

    // When a window is not filled.
    ghost predicate Over(shown: seq<Bytes>, was: seq<Item>, frames: nat) {
      && payload < 0x1_0000 && |manifest| == |sources| && frames > 0 && Emitted(shown, was, 0)
      && |shown| == if AllSendable(manifest, sources, 0, payload) then |was| else InWindows(|was|, frames)
    }

    lemma StillGoing(shown: seq<Bytes>, window: seq<Bytes>, was: seq<Item>, frames: nat, k: nat)
      requires Valid() && payload < 0x1_0000 && |shown| + |window| <= |was|
      requires Emitted(shown, was, 0) && Emitted(window, was[|shown|..], |shown|)
      requires Left() == was[|shown|..][|window|..] && recordId == |shown| + |window|
      requires state == 6 || (|shown| == Windows(k, frames) && |window| == frames)
      ensures Going(shown + window, was, frames, k + 1)
    {
      hide Valid, Left, Emitted, Windows;
      EmittedMore(shown, window, was, 0);
      MoreLeft(was, |shown|, |window|);
      OneWindow(k, frames);
    }

    lemma NowOver(shown: seq<Bytes>, was: seq<Item>, frames: nat, k: nat)
      requires payload < 0x1_0000 && |manifest| == |sources| && frames > 0 && |shown| <= |was| && Emitted(shown, was, 0)
      requires |was| - |shown| < frames && (AllSendable(manifest, sources, 0, payload) ==> |shown| == |was|)
      requires AllSendable(manifest, sources, 0, payload) || |shown| == Windows(k, frames)
      ensures Over(shown, was, frames)
    {
      hide AllSendable, Emitted, Windows, InWindows;
      WholeWindows(|was|, frames, k);
    }

    lemma GoingParts(shown: seq<Bytes>, was: seq<Item>, frames: nat, k: nat)
      requires Going(shown, was, frames, k)
      ensures Valid() && payload < 0x1_0000 && |manifest| == |sources| && |shown| <= |was| && Emitted(shown, was, 0)
      ensures Left() == was[|shown|..] && recordId == |shown|
      ensures |shown| == Windows(k, frames) || (state == 6 && AllSendable(manifest, sources, 0, payload) && Left() == [])
    {
      hide Emitted, Windows, AllSendable;
      if state == 6 { Drained(); }
    }

    method NextWindow(frames: nat, shown: seq<Bytes>, ghost was: seq<Item>, ghost k: nat) returns (filled: bool, after: seq<Bytes>)
      requires frames > 0 && Going(shown, was, frames, k)
      modifies this, disk, pos
      ensures filled ==> Going(after, was, frames, k + 1) && |after| > |shown|
      ensures !filled ==> after == shown && Over(after, was, frames)
    {
      hide Valid, Left, AllSendable, GoodManifest, Emitted, Windows, Going, Over;
      GoingParts(shown, was, frames, k);
      var window;
      filled, window := FillWindow(frames);
      after := shown;
      if filled {
        StillGoing(shown, window, was, frames, k);
        after := shown + window;
      } else {
        NowOver(shown, was, frames, k);
      }
    }

    // The windows after the first, until one is not filled.
    method MoreWindows(frames: nat, first: seq<Bytes>, ghost was: seq<Item>) returns (shown: seq<Bytes>)
      requires frames > 0 && Going(first, was, frames, 1)
      modifies this, disk, pos
      ensures Over(shown, was, frames)
    {
      shown := first;
      var filled := true;
      ghost var k := 1;
      GoingSize(first, was, frames, 1);
      hide Going, Over;
      while filled
        invariant if filled then Going(shown, was, frames, k) else Over(shown, was, frames)
        invariant filled ==> |shown| <= |was|
        decreases filled, |was| - |shown|
      {
        filled, shown := NextWindow(frames, shown, was, k);
        k := k + 1;
        if filled { GoingSize(shown, was, frames, k); }
      }
    }

    lemma GoingSize(shown: seq<Bytes>, was: seq<Item>, frames: nat, k: nat)
      requires Going(shown, was, frames, k)
      ensures |shown| <= |was|
    {}

    lemma MoreLeft(was: seq<Item>, a: nat, b: nat)
      requires a + b <= |was|
      ensures was[a..][b..] == was[a + b..]
    {}

    // run_transfer without the display: window after window until one is not
    // filled.  Only before the first does that count as a failure.
    method RunTransfer(frames: nat) returns (reported: bool, shown: seq<Bytes>)
      requires Valid() && state == 0 && recordId == 0 && frames > 0
      modifies this, disk, pos
      ensures payload < 0x1_0000 && Emitted(shown, old(Left()), 0) && GoodManifest(manifest, sources)
      ensures reported <==> |old(Left())| >= frames || AllSendable(manifest, sources, 0, payload)
      ensures |shown| == if AllSendable(manifest, sources, 0, payload) then |old(Left())| else InWindows(|old(Left())|, frames)
    {
      Manifested();
      hide Wire, Fits, AllSendable, GoodManifest, Rest;
      ghost var was := Left();
      assert was != [];
      hide Left, Emitted, Windows, InWindows;
      var first;
      reported, first := FillWindow(frames);
      if reported {
        OneWindow(0, frames);
        shown := MoreWindows(frames, first, was);
      } else {
        OneWindow(0, frames);
        WholeWindows(|was|, frames, 0);
        shown := [];
        NoneEmitted(was);
      }
    }

    lemma NoneEmitted(was: seq<Item>)
      requires payload < 0x1_0000
      ensures Emitted([], was, 0)
    {}

    lemma Drained()
      requires Valid() && state == 6
      ensures Left() == [] && GoodManifest(manifest, sources) && AllSendable(manifest, sources, 0, payload)
    {}
  }
}
