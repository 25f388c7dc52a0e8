// Reconstructor.java and Protocol.safePath: the record interpreter that turns
// the recovered DATA frames back into directories and files.

module Reconstructor {
  import opened Gf2
  import opened Crc32
  import opened Protocol
  import opened Repair
  import opened Utf8

  datatype OpenFile = OpenFile(id: U32, size: U32, path: Text, content: Bytes)

  datatype Made = Directory(path: Text) | File(path: Text, content: Bytes)

  // The interpreter between two records.
  datatype Sink = Sink(open: Option<OpenFile>, expected: nat, files: nat, dirs: nat, total: nat, made: seq<Made>)

  datatype Step = Broken | More(sink: Sink) | Complete(sink: Sink)

  // What a reconstruction reports, and the outputs it has finished.
  datatype Report = Report(ok: bool, made: seq<Made>)

  // ----- paths

  const SLASH: Character := 0x2F

  // p.split("/", -1).
  function Split(p: Text): (parts: seq<Text>)
    ensures |parts| > 0
  {
    if |p| == 0 then [[]]
    else
      var head := Split(p[..|p| - 1]);
      var last := p[|p| - 1];
      if last == SLASH then head + [[]] else head[..|head| - 1] + [head[|head| - 1] + [last]]
  }

  predicate SafePart(part: Text) {
    && part != [] && part != [0x2E] && part != [0x2E, 0x2E] && |Encoded(part)| <= 255
    && forall i :: 0 <= i < |part| ==> part[i] >= 32
  }

  // A drive letter: the colon is the second UTF-16 unit, so it does not follow a
  // character above FFFF.
  predicate Drive(part: Text) {
    |part| >= 2 && part[0] < 0x10000 && part[1] == 0x3A
  }

  predicate SafeText(p: Text) {
    && !(|p| > 0 && p[0] == SLASH) && 0x5C !in p && 0 !in p
    && var parts := Split(p);
       && !Drive(parts[0])
       && forall i :: 0 <= i < |parts| ==> SafePart(parts[i])
  }

  predicate SafeBytes(p: Bytes) {
    1 <= |p| <= 1024 && SafeText(Decode(p))
  }

  // safePath of `length` bytes at `offset`.
  function SafePath(body: Bytes, offset: nat, length: nat): Option<Text> {
    if length == 0 || length > 1024 || offset + length > |body| then None
    else
      var p := Decode(body[offset..offset + length]);
      if SafeText(p) then Some(p) else None
  }

  // Bytes from 80 to BF alone make a safe path while their replacements, three
  // bytes each when encoded again, fit one component.
  lemma TrailsSafe(p: Bytes)
    requires forall i :: 0 <= i < |p| ==> Trails(p[i])
    ensures SafeBytes(p) <==> 1 <= |p| <= 85
  {
    TrailsReplaced(p);
    var t := Decode(p);
    ReplacedLength(t);
    OneComponent(t);
    ReplacedPart(t);
    hide Decode, Split, SafePart, Encoded;
  }

  lemma ReplacedPart(t: Text)
    requires forall i :: 0 <= i < |t| ==> t[i] == REPLACEMENT
    requires |Encoded(t)| == 3 * |t|
    ensures SafePart(t) <==> 1 <= |t| <= 85
    ensures !Drive(t) && 0x5C !in t && 0 !in t && SLASH !in t
  {
    hide Encoded;
    if t != [] { assert t[0] == REPLACEMENT; }
  }

  // A name that is accepted and lost: the byte 82 alone.
  lemma HighByteLost()
    ensures SafeBytes([0x82]) && Decode([0x82]) == [REPLACEMENT] && Encoded(Decode([0x82])) != [0x82]
  {
    hide Encoded;
    var p: Bytes := [0x82];
    assert Trails(p[0]);
    TrailsSafe(p);
    TrailsReplaced(p);
    ReplacedLength(Decode(p));
  }

  // A text without a slash is one component.
  lemma {:induction false} OneComponent(t: Text)
    requires SLASH !in t
    ensures Split(t) == [t]
    decreases |t|
  {
    if t != [] {
      OneComponent(t[..|t| - 1]);
      assert t == t[..|t| - 1] + [t[|t| - 1]];
    }
  }

  // ----- one record

  function Absorbed(s: Sink, r: Record): Step {
    if r.recordId != s.expected then Broken
    else
      var t := s.(expected := s.expected + 1);
      if r.kind == SESSION then More(t)
      else if r.kind == DIRECTORY then
        if |r.body| < 8 then Broken
        else
          var path := SafePath(r.body, 8, Get16(r.body[6..8]));
          if path.None? then Broken else More(t.(dirs := t.dirs + 1, made := t.made + [Directory(path.value)]))
      else if r.kind == FILE_BEGIN then
        if s.open.Some? || |r.body| < 12 then Broken
        else
          var path := SafePath(r.body, 12, Get16(r.body[10..12]));
          if path.None? then Broken else More(t.(open := Some(OpenFile(r.fileId, Get32(r.body[6..10]), path.value, []))))
      else if s.open.None? && (r.kind == FILE_DATA || r.kind == FILE_END) then Broken
      else if r.kind == FILE_DATA then
        var f := s.open.value;
        if f.id != r.fileId || |r.body| < 4 || Get32(r.body[..4]) != |f.content| then Broken
        else More(t.(open := Some(f.(content := f.content + r.body[4..])), total := t.total + |r.body| - 4))
      else if r.kind == FILE_END then
        var f := s.open.value;
        if f.id != r.fileId || |r.body| < 8 || Get32(r.body[..4]) != f.size || |f.content| != f.size ||
           PutWord(Crc(f.content)) != r.body[4..8] then Broken
        else More(t.(open := None, files := t.files + 1, made := t.made + [File(f.path, f.content)]))
      else if r.kind == TRANSFER_END then
        if |r.body| < 16 || s.open.Some? || Get32(r.body[..4]) != s.files || Get32(r.body[4..8]) != s.dirs ||
           Get32(r.body[12..16]) != s.total then Broken
        else Complete(t)
      else Broken
  }

  function Empty(): Sink {
    Sink(None, 0, 0, 0, 0, [])
  }

  // reconstruct: the stored frames in order; frames of other kinds are skipped.
  function Consumed(s: Sink, frames: seq<Bytes>): Report
    decreases |frames|
  {
    hide ParseFrame, ParseRecord, Absorbed;
    if frames == [] then Report(false, s.made)
    else
      var f := ParseFrame(frames[0]);
      if f.Err? then Report(false, s.made)
      else if f.value.kind != DATA then Consumed(s, frames[1..])
      else
        var r := ParseRecord(f.value.payload);
        if r.Err? then Report(false, s.made)
        else
          match Absorbed(s, r.value)
          case Broken => Report(false, s.made)
          case Complete(t) => Report(true, t.made)
          case More(t) => Consumed(t, frames[1..])
  }

  // ----- the interpreter itself

  class Interpreter {
    // the open file: identity, declared size, bytes written, running checksum
    var isOpen: bool
    var id: U32
    var size: U32
    var path: Text
    var written: nat
    var output: Bytes
    var crc: Word
    // counters and finished outputs
    var expected: nat
    var files: nat
    var dirs: nat
    var total: nat
    var made: seq<Made>

    ghost predicate Valid()
      reads this
    {
      isOpen ==> written == |output| && crc == Crc(output)
    }

    ghost function Now(): Sink
      reads this
    {
      Sink(if isOpen then Some(OpenFile(id, size, path, output)) else None, expected, files, dirs, total, made)
    }

    constructor ()
      ensures Valid() && Now() == Empty()
    {
      isOpen, id, size, path, written, output, crc := false, 0, 0, [], 0, [], 0;
      expected, files, dirs, total, made := 0, 0, 0, 0, [];
    }

    // How a step ended: -1 an exception, 0 on to the next record, 1 complete.
    ghost predicate Took(rc: int, s: Step, was: Sink)
      reads this
    {
      if rc < 0 then s == Broken && made == was.made
      else Valid() && s == if rc == 1 then Complete(Now()) else More(Now())
    }

    method MakeDirectory(rec: Record) returns (rc: int)
      requires Valid() && rec.kind == DIRECTORY && rec.recordId == expected
      modifies this
      ensures Took(rc, Absorbed(old(Now()), rec), old(Now()))
    {
      hide SafeText, Decode, Get16, Get32, Crc;
      if |rec.body| < 8 { return -1; }
      var name := SafePath(rec.body, 8, Get16(rec.body[6..8]));
      if name.None? { return -1; }
      expected, dirs, made := expected + 1, dirs + 1, made + [Directory(name.value)];
      rc := 0;
    }

    method BeginFile(rec: Record) returns (rc: int)
      requires Valid() && rec.kind == FILE_BEGIN && rec.recordId == expected
      modifies this
      ensures Took(rc, Absorbed(old(Now()), rec), old(Now()))
    {
      hide SafeText, Decode, Get16, Get32, Crc, CrcUpdate;
      if isOpen || |rec.body| < 12 { return -1; }
      var name := SafePath(rec.body, 12, Get16(rec.body[10..12]));
      if name.None? { return -1; }
      CrcOfPieces([], []);
      isOpen, id, size, path := true, rec.fileId, Get32(rec.body[6..10]), name.value;
      written, output, crc := 0, [], 0;
      expected, rc := expected + 1, 0;
    }

    method WriteData(rec: Record) returns (rc: int)
      requires Valid() && rec.kind == FILE_DATA && rec.recordId == expected
      modifies this
      ensures Took(rc, Absorbed(old(Now()), rec), old(Now()))
    {
      hide Get32, Crc, CrcUpdate;
      if !isOpen || id != rec.fileId || |rec.body| < 4 || Get32(rec.body[..4]) != written { return -1; }
      var data := rec.body[4..];
      CrcOfPieces(output, data);
      output, crc, written := output + data, CrcUpdate(crc, data), written + |data|;
      total, expected, rc := total + |data|, expected + 1, 0;
    }

    method EndFile(rec: Record) returns (rc: int)
      requires Valid() && rec.kind == FILE_END && rec.recordId == expected
      modifies this
      ensures Took(rc, Absorbed(old(Now()), rec), old(Now()))
    {
      hide Get32, Crc, PutWord;
      if !isOpen || id != rec.fileId || |rec.body| < 8 || Get32(rec.body[..4]) != size || written != size ||
         PutWord(crc) != rec.body[4..8] { return -1; }
      isOpen, files, made := false, files + 1, made + [File(path, output)];
      expected, rc := expected + 1, 0;
    }

    method EndTransfer(rec: Record) returns (rc: int)
      requires Valid() && rec.kind == TRANSFER_END && rec.recordId == expected
      modifies this
      ensures Took(rc, Absorbed(old(Now()), rec), old(Now()))
    {
      hide Get32, Crc;
      if |rec.body| < 16 || isOpen || Get32(rec.body[..4]) != files || Get32(rec.body[4..8]) != dirs ||
         Get32(rec.body[12..16]) != total { return -1; }
      expected, rc := expected + 1, 1;
    }

    // The switch of reconstruct.
    method Absorb(rec: Record) returns (rc: int)
      requires Valid()
      modifies this
      ensures Took(rc, Absorbed(old(Now()), rec), old(Now()))
    {
      hide Get32, Get16, Crc, SafePath, PutWord;
      if rec.recordId != expected { return -1; }
      if rec.kind == SESSION { expected, rc := expected + 1, 0; }
      else if rec.kind == DIRECTORY { rc := MakeDirectory(rec); }
      else if rec.kind == FILE_BEGIN { rc := BeginFile(rec); }
      else if rec.kind == FILE_DATA { rc := WriteData(rec); }
      else if rec.kind == FILE_END { rc := EndFile(rec); }
      else if rec.kind == TRANSFER_END { rc := EndTransfer(rec); }
      else { rc := -1; }
    }
  }

  // reconstruct.
  method Reconstruct(frames: seq<Bytes>) returns (ok: bool, made: seq<Made>)
    ensures Consumed(Empty(), frames) == Report(ok, made)
  {
    hide ParseFrame, ParseRecord, Absorbed;
    var state := new Interpreter();
    assert frames[0..] == frames;
    for i := 0 to |frames|
      invariant state.Valid()
      invariant Consumed(Empty(), frames) == Consumed(state.Now(), frames[i..])
    {
      ghost var was := state.Now();
      assert frames[i..][0] == frames[i] && frames[i..][1..] == frames[i + 1..];
      var f := ParseFrame(frames[i]);
      if f.Err? { return false, state.made; }
      if f.value.kind == DATA {
        var r := ParseRecord(f.value.payload);
        if r.Err? { return false, state.made; }
        var rc := state.Absorb(r.value);
        if rc < 0 { return false, state.made; }
        if rc == 1 { return true, state.made; }
      }
    }
    assert frames[|frames|..] == [];
    return false, state.made;
  }
}
