// Which paths Protocol.safePath lets through, by what stands between the
// slashes, and that nothing else is ever created.

module SafePaths {
  import opened Gf2
  import Crc32
  import opened Protocol
  import opened Repair
  import opened Producer
  import opened Reconstructor
  import opened FileTransfer
  import opened Utf8

  // ----- components by their place in the path

  // t[a..b] is a component: it reaches from one slash, or the front, to the
  // next, or the end.
  predicate Piece(t: Text, a: nat, b: nat) {
    && a <= b <= |t| && 0x2F !in t[a..b]
    && (a == 0 || t[a - 1] == 0x2F) && (b == |t| || t[b] == 0x2F)
  }

  // The UTF-8 bytes of one character.
  function Width(c: Character): (n: nat) {
    if c < 0x80 then 1 else if c < 0x800 then 2 else if c < 0x10000 then 3 else 4
  }

  function Widths(t: Text): (n: nat)
    ensures n >= |t|
  {
    if t == [] then 0 else Width(t[0]) + Widths(t[1..])
  }

  predicate GoodPiece(t: Text, a: nat, b: nat)
  {
    a < b <= |t| && t[a..b] != [0x2E] && t[a..b] != [0x2E, 0x2E] && Widths(t[a..b]) <= 255
  }

  ghost predicate GoodText(t: Text) {
    && (forall i :: 0 <= i < |t| ==> t[i] >= 32 && t[i] != 0x5C)
    && !(|t| >= 2 && t[0] < 0x10000 && t[1] == 0x3A)
    && forall a: nat, b: nat :: Piece(t, a, b) ==> GoodPiece(t, a, b)
  }

  lemma {:induction false} LengthIsWidths(t: Text)
    ensures |Encoded(t)| == Widths(t)
    decreases |t|
  {
    hide Raised;
    if t != [] {
      LengthIsWidths(t[1..]);
    }
  }

  function Last(t: Text): Text {
    Split(t)[|Split(t)| - 1]
  }

  lemma LastNext(t: Text)
    requires t != []
    ensures Last(t) == if t[|t| - 1] == SLASH then [] else Last(t[..|t| - 1]) + [t[|t| - 1]]
  {}

  lemma {:induction false} LastIsPiece(t: Text)
    ensures |Last(t)| <= |t| && t[|t| - |Last(t)|..] == Last(t) && Piece(t, |t| - |Last(t)|, |t|)
    decreases |t|
  {
    hide Last;
    if t == [] {
      LastEmpty();
    } else {
      var u, c := t[..|t| - 1], t[|t| - 1];
      LastIsPiece(u);
      LastNext(t);
      assert t == u + [c];
      if c != SLASH {
        LastGrows(u, c, Last(u));
      }
    }
  }

  lemma LastGrows(u: Text, c: Character, last: Text)
    requires |last| <= |u| && u[|u| - |last|..] == last && Piece(u, |u| - |last|, |u|) && c != SLASH
    ensures var t, a := u + [c], |u| - |last|; t[a..] == last + [c] && Piece(t, a, |t|)
  {
    var t, a := u + [c], |u| - |last|;
    assert t[a..] == u[a..] + [c] && t[a..|t|] == t[a..] && u[a..|u|] == u[a..];
  }

  lemma LastEmpty()
    ensures Last([]) == []
  {}

  // Component i of split is a piece, and only the last one ends the path.
  lemma {:induction false} PartIsPiece(t: Text, i: nat) returns (a: nat, b: nat)
    requires i < |Split(t)|
    ensures Piece(t, a, b) && Split(t)[i] == t[a..b] && (b < |t| || i == |Split(t)| - 1)
    decreases |t|
  {
    LastIsPiece(t);
    if i == |Split(t)| - 1 {
      a, b := |t| - |Last(t)|, |t|;
      assert t[a..b] == t[a..];
    } else {
      var u, c := t[..|t| - 1], t[|t| - 1];
      a, b := PartIsPiece(u, i);
      Longer(t, a, b);
    }
  }

  lemma Longer(t: Text, a: nat, b: nat)
    requires t != [] && b < |t| && (b < |t| - 1 || t[|t| - 1] == SLASH)
    ensures Piece(t[..|t| - 1], a, b) <==> Piece(t, a, b)
    ensures Piece(t, a, b) ==> a <= b && t[..|t| - 1][a..b] == t[a..b]
  {
    var u := t[..|t| - 1];
    if a <= b { assert u[a..b] == t[a..b]; }
  }

  lemma NoSlash(t: Text, a: nat, b: nat, i: nat)
    requires Piece(t, a, b) && a <= i < b
    ensures t[i] != SLASH
  {
    assert t[a..b][i - a] == t[i];
  }

  lemma OneEnd(t: Text, a: nat, e: nat)
    requires Piece(t, a, |t|) && Piece(t, e, |t|)
    ensures a == e
  {
    if a < e { NoSlash(t, a, |t|, e - 1); }
    if e < a { NoSlash(t, e, |t|, a - 1); }
  }

  // Every piece is a component of split; those that do not end the path come
  // before the last.
  lemma {:induction false} PieceIsPart(t: Text, a: nat, b: nat)
    requires Piece(t, a, b)
    ensures b < |t| ==> t[a..b] in Split(t)[..|Split(t)| - 1]
    ensures b == |t| ==> t[a..b] == Last(t)
    decreases |t|
  {
    LastIsPiece(t);
    if b == |t| {
      OneEnd(t, a, |t| - |Last(t)|);
      assert t[a..b] == t[a..];
    } else {
      var u, c := t[..|t| - 1], t[|t| - 1];
      Longer(t, a, b);
      PieceIsPart(u, a, b);
      assert u[a..b] == t[a..b];
      if c == SLASH {
        assert Split(t)[..|Split(t)| - 1] == Split(u);
        assert Split(u) == Split(u)[..|Split(u)| - 1] + [Last(u)];
      } else {
        assert Split(t)[..|Split(t)| - 1] == Split(u)[..|Split(u)| - 1];
      }
    }
  }

  // p is the front of t up to its first slash.
  predicate Front(t: Text, p: Text) {
    |p| <= |t| && t[..|p|] == p && SLASH !in p && (|p| < |t| ==> t[|p|] == SLASH)
  }

  lemma FrontGrows(u: Text, c: Character, p: Text)
    requires Front(u, p)
    ensures |p| < |u| || c == SLASH ==> Front(u + [c], p)
    ensures |p| == |u| && c != SLASH ==> Front(u + [c], p + [c])
  {
    var t := u + [c];
    assert t[..|p|] == u[..|p|];
  }

  lemma FirstNext(t: Text)
    requires t != []
    ensures var u, c := t[..|t| - 1], t[|t| - 1];
            && |Split(t)| == |Split(u)| + (if c == SLASH then 1 else 0)
            && Split(t)[0] == if c != SLASH && |Split(u)| == 1 then Split(u)[0] + [c] else Split(u)[0]
  {}

  lemma {:induction false} FirstPart(t: Text)
    ensures Front(t, Split(t)[0]) && (|Split(t)[0]| == |t| <==> |Split(t)| == 1)
    decreases |t|
  {
    if t != [] {
      hide Split;
      var u, c := t[..|t| - 1], t[|t| - 1];
      FirstPart(u);
      FirstNext(t);
      FrontGrows(u, c, Split(u)[0]);
      assert t == u + [c];
    }
  }

  lemma DriveIs(t: Text)
    ensures Drive(Split(t)[0]) <==> |t| >= 2 && t[0] != SLASH && t[0] < 0x10000 && t[1] == 0x3A
  {
    hide Split;
    FirstPart(t);
    var p := Split(t)[0];
    if |p| >= 1 { assert p[0] == t[0]; }
    if |p| >= 2 { assert p[1] == t[1]; }
  }

  lemma PartIs(t: Text, a: nat, b: nat)
    requires Piece(t, a, b)
    ensures SafePart(t[a..b]) <==> GoodPiece(t, a, b) && forall i :: a <= i < b ==> t[i] >= 32
  {
    hide Encoded, Widths;
    var p := t[a..b];
    LengthIsWidths(p);
    assert forall i :: a <= i < b ==> t[i] == p[i - a];
    assert forall i :: 0 <= i < |p| ==> p[i] == t[i + a];
  }

  // The piece around a character that is no slash.
  lemma Around(t: Text, i: nat) returns (a: nat, b: nat)
    requires i < |t| && t[i] != SLASH
    ensures a <= i < b && Piece(t, a, b)
  {
    a, b := i, i + 1;
    while a > 0 && t[a - 1] != SLASH
      invariant a <= i && forall k :: a <= k <= i ==> t[k] != SLASH
    {
      a := a - 1;
    }
    while b < |t| && t[b] != SLASH
      invariant i < b <= |t| && forall k :: a <= k < b ==> t[k] != SLASH
      decreases |t| - b
    {
      b := b + 1;
    }
  }

  // safePath accepts exactly the paths without control characters, backslash
  // and drive letter whose components are not empty, "." or "..", and take up
  // to 255 bytes.
  lemma SafeExactly(t: Text)
    ensures SafeText(t) <==> GoodText(t)
  {
    hide Split, Drive, SafePart, GoodPiece, Piece;
    DriveIs(t);
    if SafeText(t) {
      SafeIsGood(t);
    }
    if GoodText(t) {
      GoodIsSafe(t);
    }
  }

  lemma SafeIsGood(t: Text)
    requires SafeText(t)
    ensures GoodText(t)
  {
    hide Split, Drive, SafePart, GoodPiece, Widths;
    DriveIs(t);
    forall a: nat, b: nat | Piece(t, a, b) ensures GoodPiece(t, a, b) && forall i :: a <= i < b ==> t[i] >= 32 {
      PieceIsPart(t, a, b);
      assert t[a..b] in Split(t);
      PartIs(t, a, b);
    }
    forall i | 0 <= i < |t| ensures t[i] >= 32 && t[i] != 0x5C {
      if t[i] != SLASH {
        var a, b := Around(t, i);
      }
    }
  }

  lemma GoodIsSafe(t: Text)
    requires GoodText(t)
    ensures SafeText(t)
  {
    hide Split, Drive, SafePart, Widths;
    DriveIs(t);
    var parts := Split(t);
    forall i | 0 <= i < |parts| ensures SafePart(parts[i]) {
      var a, b := PartIsPiece(t, i);
      PartIs(t, a, b);
    }
    if |t| > 0 && t[0] == SLASH {
      FrontPiece(t);
    }
  }

  lemma FrontPiece(t: Text)
    requires |t| > 0 && t[0] == SLASH
    ensures Piece(t, 0, 0) && !GoodPiece(t, 0, 0)
  {}

  // ----- on the bytes of the record

  predicate BytePiece(p: Bytes, a: nat, b: nat) {
    && a <= b <= |p| && 0x2F !in p[a..b]
    && (a == 0 || p[a - 1] == 0x2F) && (b == |p| || p[b] == 0x2F)
  }

  predicate GoodBytePiece(p: Bytes, a: nat, b: nat)
  {
    a < b <= |p| && b - a <= 255 && p[a..b] != [0x2E] && p[a..b] != [0x2E, 0x2E]
  }

  ghost predicate GoodBytes(p: Bytes) {
    && 1 <= |p| <= 1024
    && (forall i :: 0 <= i < |p| ==> p[i] >= 32 && p[i] != 0x5C)
    && !(|p| >= 2 && p[1] == 0x3A)
    && forall a: nat, b: nat :: BytePiece(p, a, b) ==> GoodBytePiece(p, a, b)
  }

  lemma {:induction false} AsciiWidths(t: Text)
    requires forall i :: 0 <= i < |t| ==> t[i] < 0x80
    ensures Widths(t) == |t|
    decreases |t|
  {
    if t != [] {
      AsciiWidths(t[1..]);
    }
  }

  // The same characters, as bytes.
  predicate Same(x: Text, y: Bytes) {
    |x| == |y| && forall i :: 0 <= i < |x| ==> x[i] == y[i] as nat
  }

  lemma SameSlice(x: Text, y: Bytes, a: nat, b: nat)
    requires Same(x, y) && a <= b <= |x|
    ensures Same(x[a..b], y[a..b])
  {}

  lemma SameAt(x: Text, y: Bytes, i: nat)
    requires Same(x, y) && i < |x|
    ensures x[i] == 0x2F <==> y[i] == 0x2F
    ensures x[i] == 0x2E <==> y[i] == 0x2E
    ensures x[i] >= 32 <==> y[i] >= 32
    ensures x[i] == 0x5C <==> y[i] == 0x5C
    ensures x[i] == 0x3A <==> y[i] == 0x3A
    ensures x[i] < 0x80 <==> y[i] < 0x80
    ensures x[i] < 256
  {}

  lemma SameWords(x: Text, y: Bytes)
    requires Same(x, y)
    ensures 0x2F in x <==> 0x2F in y
    ensures x == [0x2E] <==> y == [0x2E]
    ensures x == [0x2E, 0x2E] <==> y == [0x2E, 0x2E]
  {
    hide Same;
    assert |x| == |y| by { SameLength(x, y); }
    if 0x2F in x {
      var i :| 0 <= i < |x| && x[i] == 0x2F;
      SameAt(x, y, i);
    }
    if 0x2F in y {
      var i :| 0 <= i < |y| && y[i] == 0x2F;
      SameAt(x, y, i);
    }
    if |x| >= 1 { SameAt(x, y, 0); }
    if |x| >= 2 { SameAt(x, y, 1); }
  }

  lemma SameLength(x: Text, y: Bytes)
    requires Same(x, y)
    ensures |x| == |y|
  {}

  lemma SamePiece(t: Text, p: Bytes, a: nat, b: nat)
    requires Same(t, p)
    ensures Piece(t, a, b) <==> BytePiece(p, a, b)
  {
    hide Same;
    SameLength(t, p);
    if a <= b <= |p| {
      SameSlice(t, p, a, b);
      SameWords(t[a..b], p[a..b]);
      if a > 0 { SameAt(t, p, a - 1); }
      if b < |p| { SameAt(t, p, b); }
    }
  }

  lemma SameGood(t: Text, p: Bytes, a: nat, b: nat)
    requires Same(t, p) && Ascii(p)
    ensures GoodPiece(t, a, b) <==> GoodBytePiece(p, a, b)
  {
    hide Same, Widths;
    SameLength(t, p);
    if a <= b <= |p| {
      SameSlice(t, p, a, b);
      SameWords(t[a..b], p[a..b]);
      forall i | 0 <= i < |t[a..b]| ensures t[a..b][i] < 0x80 {
        SameAt(t, p, a + i);
      }
      AsciiWidths(t[a..b]);
    }
  }

  // A path of ASCII bytes is accepted exactly when it meets the same conditions
  // byte by byte.
  lemma AsciiSafe(p: Bytes)
    requires Ascii(p)
    ensures SafeBytes(p) <==> GoodBytes(p)
  {
    hide Piece, BytePiece, GoodPiece, GoodBytePiece, SafeText, Decode, Same;
    AsciiKept(p);
    var t := Plain(p);
    assert Same(t, p) by { PlainIsSame(p); }
    SafeExactly(t);
    SameLength(t, p);
    forall a: nat, b: nat ensures Piece(t, a, b) <==> BytePiece(p, a, b) {
      SamePiece(t, p, a, b);
    }
    forall a: nat, b: nat ensures GoodPiece(t, a, b) <==> GoodBytePiece(p, a, b) {
      SameGood(t, p, a, b);
    }
    forall i | 0 <= i < |t|
      ensures (t[i] >= 32 <==> p[i] >= 32) && (t[i] == 0x5C <==> p[i] == 0x5C) && (t[i] == 0x3A <==> p[i] == 0x3A) && t[i] < 256 {
      SameAt(t, p, i);
    }
  }

  lemma PlainIsSame(p: Bytes)
    ensures Same(Plain(p), p)
  {}

  // ----- what a transfer creates

  predicate SafeMade(x: Made) {
    SafeText(x.path)
  }

  predicate SafeSink(s: Sink) {
    && (s.open.Some? ==> SafeText(s.open.value.path))
    && forall i :: 0 <= i < |s.made| ==> SafeMade(s.made[i])
  }

  lemma SafeKept(s: Sink, r: Record)
    requires SafeSink(s)
    ensures Absorbed(s, r).More? || Absorbed(s, r).Complete? ==> SafeSink(Absorbed(s, r).sink)
  {
    hide SafeText, Decode, Get16, Get32, Crc32.Crc;
  }

  lemma {:induction false} SafeConsumed(s: Sink, frames: seq<Bytes>)
    requires SafeSink(s)
    ensures forall i :: 0 <= i < |Consumed(s, frames).made| ==> SafeMade(Consumed(s, frames).made[i])
    decreases |frames|
  {
    hide ParseFrame, ParseRecord, Absorbed, SafeMade;
    if frames != [] && ParseFrame(frames[0]).Ok? {
      var f := ParseFrame(frames[0]).value;
      if f.kind != DATA {
        SafeConsumed(s, frames[1..]);
      } else if ParseRecord(f.payload).Ok? {
        var r := ParseRecord(f.payload).value;
        SafeKept(s, r);
        if Absorbed(s, r).More? {
          SafeConsumed(Absorbed(s, r).sink, frames[1..]);
        }
      }
    }
  }

  // Whatever frames arrive, every directory and file created stays below the
  // target: no component is empty, "." or "..", none holds a control character
  // or a backslash, and no path starts with a drive.
  lemma OnlyGoodPaths(frames: seq<Bytes>)
    ensures forall i :: 0 <= i < |Consumed(Empty(), frames).made| ==> GoodText(Consumed(Empty(), frames).made[i].path)
  {
    hide Consumed, SafeText, GoodText;
    SafeConsumed(Empty(), frames);
    var made := Consumed(Empty(), frames).made;
    forall i | 0 <= i < |made| ensures GoodText(made[i].path) {
      assert SafeMade(made[i]);
      SafeExactly(made[i].path);
    }
  }

  // ----- DOS names

  // The characters DOS allows in a short name, ASCII only.
  predicate DosByte(b: Byte) {
    0x41 <= b <= 0x5A || 0x30 <= b <= 0x39 ||
    b in {0x21, 0x23, 0x24, 0x25, 0x26, 0x27, 0x28, 0x29, 0x2D, 0x40, 0x5E, 0x5F, 0x60, 0x7B, 0x7D, 0x7E}
  }

  // Up to eight characters, then possibly a dot and up to three more.
  predicate ShortName(s: Bytes) {
    exists n :: 1 <= n <= |s| && n <= 8 && ShortAt(s, n)
  }

  predicate ShortAt(s: Bytes, n: nat) {
    && n <= |s| && (forall i :: 0 <= i < |s| ==> i == n || DosByte(s[i]))
    && (n < |s| ==> s[n] == 0x2E && 1 <= |s| - n - 1 <= 3)
  }

  // Names with slashes between them.
  function Slashed(names: seq<Bytes>): Bytes
    requires names != []
  {
    if |names| == 1 then names[0] else Slashed(names[..|names| - 1]) + [0x2F] + names[|names| - 1]
  }

  predicate DosPath(p: Bytes, names: seq<Bytes>) {
    names != [] && |p| <= 1024 && p == Slashed(names) && forall i :: 0 <= i < |names| ==> ShortName(names[i])
  }

  lemma ShortNameGood(s: Bytes)
    requires ShortName(s)
    ensures 1 <= |s| <= 12 && s != [0x2E] && s != [0x2E, 0x2E] && (|s| >= 2 ==> s[1] != 0x3A)
    ensures forall i :: 0 <= i < |s| ==> 32 <= s[i] < 0x80 && s[i] != 0x5C && s[i] != 0x2F
  {
    hide DosByte;
    var n :| 1 <= n <= |s| && n <= 8 && ShortAt(s, n);
    forall i | 0 <= i < |s| ensures 32 <= s[i] < 0x80 && s[i] != 0x5C && s[i] != 0x2F && s[i] != 0x3A && (i != n ==> s[i] != 0x2E) {
      DosByteGood(s[i]);
    }
    assert s[0] != 0x2E;
  }

  lemma DosByteGood(b: Byte)
    ensures DosByte(b) ==> 32 <= b < 0x80 && b != 0x5C && b != 0x2F && b != 0x3A && b != 0x2E
  {}

  predicate NoSlashes(names: seq<Bytes>) {
    forall i :: 0 <= i < |names| ==> 0x2F !in names[i]
  }

  lemma {:induction false} PieceIsName(names: seq<Bytes>, a: nat, b: nat)
    requires names != [] && NoSlashes(names) && BytePiece(Slashed(names), a, b)
    ensures Slashed(names)[a..b] in names
    decreases |names|
  {
    var p := Slashed(names);
    if |names| == 1 {
      assert p == names[0];
      forall i | 0 <= i < |p| ensures p[i] != 0x2F {
        assert p[i] in p;
      }
      assert a == 0 && b == |p|;
      assert p[a..b] == names[0];
    } else {
      var front, last := names[..|names| - 1], names[|names| - 1];
      LaterPiece(Slashed(front), last, a, b);
      if b <= |Slashed(front)| {
        PieceIsName(front, a, b);
        assert p[a..b] == Slashed(front)[a..b];
      }
    }
  }

  lemma ByteNoSlash(p: Bytes, a: nat, b: nat, i: nat)
    requires BytePiece(p, a, b) && a <= i < b
    ensures p[i] != 0x2F
  {
    assert p[a..b][i - a] == p[i];
  }

  lemma LaterPiece(u: Bytes, w: Bytes, a: nat, b: nat)
    requires 0x2F !in w && BytePiece(u + [0x2F] + w, a, b)
    ensures b <= |u| ==> BytePiece(u, a, b)
    ensures b > |u| ==> (u + [0x2F] + w)[a..b] == w
  {
    var p := u + [0x2F] + w;
    if b <= |u| {
      assert p[a..b] == u[a..b];
    } else {
      forall i | |u| < i < |p| ensures p[i] != 0x2F {
        assert p[i] == w[i - |u| - 1];
      }
      if a <= |u| { ByteNoSlash(p, a, b, |u|); }
      assert a == |u| + 1 && b == |p|;
      assert p[a..b] == w;
    }
  }

  lemma {:induction false} SlashedBytes(names: seq<Bytes>)
    requires names != [] && forall i :: 0 <= i < |names| ==> ShortName(names[i])
    ensures var p := Slashed(names);
            && p != [] && (|p| >= 2 ==> p[1] != 0x3A)
            && forall i :: 0 <= i < |p| ==> 32 <= p[i] < 0x80 && p[i] != 0x5C
    decreases |names|
  {
    hide ShortName;
    var last := names[|names| - 1];
    ShortNameGood(last);
    if |names| > 1 {
      SlashedBytes(names[..|names| - 1]);
    }
  }

  // Every path of DOS short names is accepted and keeps its spelling.
  lemma DosPathSafe(p: Bytes, names: seq<Bytes>)
    requires DosPath(p, names)
    ensures SafeBytes(p) && |Decode(p)| == |p| && forall i :: 0 <= i < |p| ==> Decode(p)[i] == p[i] as nat
  {
    hide ShortName, SafeBytes, Decode;
    SlashedBytes(names);
    AsciiKept(p);
    AsciiSafe(p);
    forall i | 0 <= i < |names| ensures 0x2F !in names[i] {
      ShortNameGood(names[i]);
    }
    forall a: nat, b: nat | BytePiece(p, a, b) ensures GoodBytePiece(p, a, b) {
      PieceIsName(names, a, b);
      var i :| 0 <= i < |names| && names[i] == p[a..b];
      ShortNameGood(names[i]);
    }
  }

  // A selection of DOS names whose files open and stay as they are.
  predicate DosManifest(m: seq<Entry>, sources: seq<Source>, names: seq<seq<Bytes>>) {
    && |names| == |m| == |sources|
    && forall i :: 0 <= i < |m| ==>
         DosPath(m[i].path, names[i]) && (m[i].directory || (sources[i].opens && sources[i].sameBefore && sources[i].sameAfter))
  }

  // What entry i becomes: its path letter by letter, and its content.
  predicate Becomes(x: Made, e: Entry, s: Source) {
    && |x.path| == |e.path| && (forall j :: 0 <= j < |e.path| ==> x.path[j] == e.path[j] as nat)
    && (if e.directory then x.Directory? else x.File? && x.content == s.content)
  }

  // Such a selection comes out whole whenever it is below four gigabytes.
  lemma DosTransfer(m: seq<Entry>, sources: seq<Source>, names: seq<seq<Bytes>>, now: U32, payload: nat, payloads: seq<Bytes>, frames: seq<Bytes>)
    requires GoodManifest(m, sources) && DosManifest(m, sources, names)
    requires RECORD_HEADER + 12 + PATH_BYTES <= payload < 0x1_0000 && |Items(m, sources, now, payload)| <= LIMIT
    requires WiresOf(payloads, Items(m, sources, now, payload), 0, payload) && Carries(frames, payloads)
    ensures var r := Consumed(Empty(), frames);
            && (r.ok <==> Volume(m, |m|) < LIMIT)
            && (r.ok ==> |r.made| == |m| && forall i :: 0 <= i < |m| ==> Becomes(r.made[i], m[i], sources[i]))
  {
    hide Consumed, Items, WiresOf, Carries, SafeBytes, Volume, DosPath, Decode, Becomes, Outputs;
    var items := Items(m, sources, now, payload);
    assert items[..|items|] == items;
    forall i | 0 <= i < |m| ensures SafeBytes(m[i].path) {
      DosPathSafe(m[i].path, names[i]);
    }
    EndToEnd(m, sources, now, payload, |items|, payloads, frames);
    if Consumed(Empty(), frames).ok {
      DosOutputs(m, sources, names, 0);
      assert [] + Outputs(m, sources, 0) == Outputs(m, sources, 0);
    }
  }

  predicate AllBecome(made: seq<Made>, m: seq<Entry>, sources: seq<Source>, k: nat)
    requires |m| == |sources| && k <= |m|
  {
    |made| == |m| - k && forall i :: 0 <= i < |made| ==> Becomes(made[i], m[k + i], sources[k + i])
  }

  lemma BecomeNext(x: Made, made: seq<Made>, m: seq<Entry>, sources: seq<Source>, k: nat)
    requires |m| == |sources| && k < |m| && AllBecome(made, m, sources, k + 1) && Becomes(x, m[k], sources[k])
    ensures AllBecome([x] + made, m, sources, k)
  {
    hide Becomes;
    forall i | 0 <= i < |made| + 1 ensures Becomes(([x] + made)[i], m[k + i], sources[k + i]) {
      if i > 0 { assert Becomes(made[i - 1], m[k + 1 + (i - 1)], sources[k + 1 + (i - 1)]); }
    }
  }

  lemma {:induction false} DosOutputs(m: seq<Entry>, sources: seq<Source>, names: seq<seq<Bytes>>, k: nat)
    requires DosManifest(m, sources, names) && k <= |m|
    ensures AllBecome(Outputs(m, sources, k), m, sources, k)
    decreases |m| - k
  {
    hide DosPath, Decode, Becomes, AllBecome;
    if k == |m| {
      assert AllBecome([], m, sources, k) by { NoneBecome(m, sources); }
    } else {
      DosOutputs(m, sources, names, k + 1);
      var x := OutputsNext(m, sources, names, k);
      BecomeNext(x, Outputs(m, sources, k + 1), m, sources, k);
    }
  }

  lemma NoneBecome(m: seq<Entry>, sources: seq<Source>)
    requires |m| == |sources|
    ensures AllBecome([], m, sources, |m|)
  {}

  lemma OutputsNext(m: seq<Entry>, sources: seq<Source>, names: seq<seq<Bytes>>, k: nat) returns (x: Made)
    requires DosManifest(m, sources, names) && k < |m|
    ensures Becomes(x, m[k], sources[k]) && Outputs(m, sources, k) == [x] + Outputs(m, sources, k + 1)
  {
    hide DosPath, Decode;
    DosPathSafe(m[k].path, names[k]);
    x := Outputs(m, sources, k)[0];
  }
}
