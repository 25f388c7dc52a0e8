// The decoding of path bytes in Protocol.safePath: new String(bytes, UTF_8).
// Well-formed sequences are those of table 3-7 of the Unicode Standard, version
// 15, section 3.9; a malformed part becomes one U+FFFD per maximal subpart.

module Utf8 {
  import ByteValues
  import opened Gf2

  // A character's number: no surrogate, and in the range of Unicode.
  predicate Scalar(c: nat) {
    c < 0xD800 || 0xE000 <= c < 0x110000
  }

  type Character = c: nat | Scalar(c) witness 0

  type Text = seq<Character>

  const REPLACEMENT: Character := 0xFFFD

  // Continuation bytes that a lead byte announces; none for every other byte.
  function Announced(b: Byte): (n: nat)
    ensures n <= 3
  {
    if 0xC2 <= b <= 0xDF then 1 else if 0xE0 <= b <= 0xEF then 2 else if 0xF0 <= b <= 0xF4 then 3 else 0
  }

  predicate Trails(b: Byte) {
    0x80 <= b <= 0xBF
  }

  predicate Seconds(lead: Byte, b: Byte) {
    && Trails(b) && (lead == 0xE0 ==> b >= 0xA0) && (lead == 0xED ==> b <= 0x9F)
    && (lead == 0xF0 ==> b >= 0x90) && (lead == 0xF4 ==> b <= 0x8F)
  }

  // Bytes at the front that become one character.
  function Taken(p: Bytes): (n: nat)
    requires p != []
    ensures 1 <= n <= |p|
  {
    hide Announced, Seconds, Trails;
    var more := Announced(p[0]);
    if more == 0 || |p| < 2 || !Seconds(p[0], p[1]) then 1
    else if more == 1 || |p| < 3 || !Trails(p[2]) then 2
    else if more == 2 || |p| < 4 || !Trails(p[3]) then 3
    else 4
  }

  // The low bits of a byte, below m.
  function Bits(b: Byte, m: nat): (n: nat)
    requires m > 0
    ensures n < m
  {
    b as nat % m
  }

  // The character a whole sequence stands for.
  function Joined(p: Bytes): nat {
    if |p| == 2 then Bits(p[0], 32) * 64 + Bits(p[1], 64)
    else if |p| == 3 then (Bits(p[0], 16) * 64 + Bits(p[1], 64)) * 64 + Bits(p[2], 64)
    else if |p| == 4 then ((Bits(p[0], 8) * 64 + Bits(p[1], 64)) * 64 + Bits(p[2], 64)) * 64 + Bits(p[3], 64)
    else 0
  }

  lemma ByteBack(b: Byte)
    ensures (b as nat) as bv8 == b
  {}

  lemma LowBits(b: Byte)
    requires Trails(b)
    ensures Raised(0x80, Bits(b, 64)) == b
  {
    ByteBack(b);
    assert b as nat == 0x80 + b as nat % 64;
  }

  lemma LeadTwo(b: Byte)
    requires Announced(b) == 1
    ensures 2 <= Bits(b, 32) && Raised(0xC0, Bits(b, 32)) == b
  {
    ByteBack(b);
    assert b as nat == 0xC0 + b as nat % 32;
  }

  lemma LeadThree(b: Byte, c: Byte)
    requires Announced(b) == 2 && Seconds(b, c)
    ensures Raised(0xE0, Bits(b, 16)) == b
    ensures (Bits(b, 16) == 0 ==> Bits(c, 64) >= 32) && (Bits(b, 16) == 13 ==> Bits(c, 64) < 32)
  {
    ByteBack(b);
    assert b as nat == 0xE0 + b as nat % 16;
    assert Bits(b, 16) == 0 ==> b == 0xE0;
    assert Bits(b, 16) == 13 ==> b == 0xED;
  }

  lemma LeadFour(b: Byte, c: Byte)
    requires Announced(b) == 3 && Seconds(b, c)
    ensures Raised(0xF0, Bits(b, 8)) == b && Bits(b, 8) <= 4
    ensures (Bits(b, 8) == 0 ==> Bits(c, 64) >= 16) && (Bits(b, 8) == 4 ==> Bits(c, 64) < 16)
  {
    ByteBack(b);
    assert b as nat == 0xF0 + b as nat % 8;
    assert Bits(b, 8) == 0 ==> b == 0xF0;
    assert Bits(b, 8) == 4 ==> b == 0xF4;
  }

  lemma Digit(high: nat, low: nat)
    requires low < 64
    ensures (high * 64 + low) / 64 == high && (high * 64 + low) % 64 == low
  {}

  lemma JoinedTwo(p: Bytes)
    requires |p| == 2 && Announced(p[0]) == 1
    ensures 0x80 <= Joined(p) < 0x800
    ensures Raised(0xC0, Joined(p) / 64) == p[0] && Joined(p) % 64 == Bits(p[1], 64)
  {
    hide Announced, Raised, Bits;
    LeadTwo(p[0]);
  }

  lemma JoinedThree(p: Bytes)
    requires |p| == 3 && Announced(p[0]) == 2 && Seconds(p[0], p[1])
    ensures 0x800 <= Joined(p) < 0x10000 && Scalar(Joined(p))
    ensures Raised(0xE0, Joined(p) / 64 / 64) == p[0]
    ensures Joined(p) / 64 % 64 == Bits(p[1], 64) && Joined(p) % 64 == Bits(p[2], 64)
  {
    hide Announced, Seconds, Raised, Bits;
    LeadThree(p[0], p[1]);
    var a, b, c := Bits(p[0], 16), Bits(p[1], 64), Bits(p[2], 64);
    Digit(a * 64 + b, c);
    Digit(a, b);
  }

  lemma JoinedFour(p: Bytes)
    requires |p| == 4 && Announced(p[0]) == 3 && Seconds(p[0], p[1])
    ensures 0x10000 <= Joined(p) < 0x110000
    ensures Raised(0xF0, Joined(p) / 64 / 64 / 64) == p[0] && Joined(p) / 64 / 64 % 64 == Bits(p[1], 64)
    ensures Joined(p) / 64 % 64 == Bits(p[2], 64) && Joined(p) % 64 == Bits(p[3], 64)
  {
    hide Announced, Seconds, Raised, Bits;
    LeadFour(p[0], p[1]);
    var a, b, c, d := Bits(p[0], 8), Bits(p[1], 64), Bits(p[2], 64), Bits(p[3], 64);
    Digit((a * 64 + b) * 64 + c, d);
    Digit(a * 64 + b, c);
    Digit(a, b);
  }

  // A sequence taken whole.
  predicate Whole(p: Bytes)
    requires p != []
  {
    p[0] < 0x80 || (Announced(p[0]) > 0 && Taken(p) == Announced(p[0]) + 1)
  }

  lemma WholeIsScalar(p: Bytes)
    requires p != [] && p[0] >= 0x80 && Whole(p)
    ensures Scalar(Joined(p[..Taken(p)]))
  {
    hide Announced, Seconds, Trails, Joined;
    var q := p[..Taken(p)];
    if |q| == 2 { JoinedTwo(q); } else if |q| == 3 { JoinedThree(q); } else { JoinedFour(q); }
  }

  function First(p: Bytes): Character
    requires p != []
  {
    hide Announced, Taken, Joined, Scalar;
    if p[0] < 0x80 then Low(p[0])
    else if Whole(p) then
      WholeIsScalar(p);
      Joined(p[..Taken(p)])
    else REPLACEMENT
  }

  function Low(b: Byte): Character {
    b as nat
  }

  function Decode(p: Bytes): (t: Text)
    ensures |t| <= |p| && (p != [] ==> t != [])
  {
    hide Taken, First;
    if p == [] then [] else [First(p)] + Decode(p[Taken(p)..])
  }

  // The bytes of one character, getBytes(UTF_8).
  function Encode(c: Character): (p: Bytes)
    ensures 1 <= |p| <= 4
  {
    if c < 0x80 then [c as bv8]
    else if c < 0x800 then [Raised(0xC0, c / 64), Raised(0x80, c % 64)]
    else if c < 0x10000 then [Raised(0xE0, c / 64 / 64), Raised(0x80, c / 64 % 64), Raised(0x80, c % 64)]
    else
      assert Scalar(c) && c / 64 < 0x4400 && c / 64 / 64 < 0x110;
      [Raised(0xF0, c / 64 / 64 / 64), Raised(0x80, c / 64 / 64 % 64), Raised(0x80, c / 64 % 64), Raised(0x80, c % 64)]
  }

  function Raised(base: nat, part: nat): Byte
    requires base + part < 256
  {
    (base + part) as bv8
  }

  function Encoded(t: Text): Bytes {
    if t == [] then [] else Encode(t[0]) + Encoded(t[1..])
  }

  lemma FirstEncoded(p: Bytes)
    requires p != []
    ensures Whole(p) ==> Encode(First(p)) == p[..Taken(p)]
    ensures !Whole(p) ==> First(p) == REPLACEMENT
  {
    hide Announced, Seconds, Trails, Joined, Raised;
    OneByte(p);
    if p[0] < 0x80 {
      ByteBack(p[0]);
    } else if Whole(p) {
      var q := p[..Taken(p)];
      if |q| == 2 { JoinedTwo(q); } else if |q| == 3 { JoinedThree(q); LowBits(q[2]); } else { JoinedFour(q); LowBits(q[2]); LowBits(q[3]); }
      SecondTrails(q);
      LowBits(q[1]);
    }
  }

  lemma SecondTrails(q: Bytes)
    requires |q| >= 2 && Seconds(q[0], q[1])
    ensures Trails(q[1])
  {}

  predicate WellFormed(p: Bytes) {
    p == [] || (Whole(p) && WellFormed(p[Taken(p)..]))
  }

  // Encoding the decoded text again gives the bytes back exactly when they were
  // well formed.
  lemma {:induction false} WellFormedKept(p: Bytes)
    ensures Encoded(Decode(p)) == p <==> WellFormed(p)
    decreases |p|
  {
    hide Taken, First, Scalar, Whole, Encode;
    if p != [] {
      var t, rest := Decode(p), p[Taken(p)..];
      FirstEncoded(p);
      WellFormedKept(rest);
      assert t[1..] == Decode(rest) && p == p[..Taken(p)] + rest;
      var e := Encoded(Decode(rest));
      assert Encoded(t) == Encode(First(p)) + e;
      if Whole(p) {
        assert Encoded(t)[Taken(p)..] == e;
      } else {
        NotReplacement(p, e);
      }
    }
  }

  // A malformed part is no encoding of U+FFFD.
  lemma NotReplacement(p: Bytes, e: Bytes)
    requires p != [] && !Whole(p)
    ensures Encode(REPLACEMENT) + e != p
  {
    hide Encode, Whole;
    var r := Encode(REPLACEMENT);
    ReplacementBytes();
    assert (r + e)[0] == 0xEF && (r + e)[1] == 0xBF && (r + e)[2] == 0xBD;
    if |p| >= 3 && p[0] == 0xEF && p[1] == 0xBF && p[2] == 0xBD { EncodedWhole(p); }
  }

  lemma ReplacementBytes()
    ensures Encode(REPLACEMENT) == [0xEF, 0xBF, 0xBD]
  {
    hide Raised;
    RaisedBytes();
    assert REPLACEMENT == (15 * 64 + 63) * 64 + 61;
    Digit(15 * 64 + 63, 61);
    Digit(15, 63);
  }

  lemma RaisedBytes()
    ensures Raised(0xE0, 15) == 0xEF && Raised(0x80, 63) == 0xBF && Raised(0x80, 61) == 0xBD
  {}

  lemma EncodedWhole(p: Bytes)
    requires |p| >= 3 && p[0] == 0xEF && p[1] == 0xBF && p[2] == 0xBD
    ensures Whole(p)
  {
    assert Announced(p[0]) == 2 && Seconds(p[0], p[1]) && Trails(p[2]);
  }

  // ----- decoding what was encoded

  lemma RaisedVal(base: nat, part: nat)
    requires base + part < 256
    ensures Raised(base, part) as nat == base + part
  {
    ByteValues.ByteRound(base + part);
  }

  lemma AnnouncedIs(b: Byte)
    ensures var v := b as nat;
            Announced(b) == if 0xC2 <= v <= 0xDF then 1 else if 0xE0 <= v <= 0xEF then 2 else if 0xF0 <= v <= 0xF4 then 3 else 0
    ensures b < 0x80 <==> b as nat < 0x80
  {}

  lemma TrailsIs(b: Byte)
    ensures Trails(b) <==> 0x80 <= b as nat <= 0xBF
  {}

  lemma SecondsIs(lead: Byte, b: Byte)
    ensures var l, v := lead as nat, b as nat;
            Seconds(lead, b) <==> 0x80 <= v <= 0xBF && (l == 0xE0 ==> v >= 0xA0) && (l == 0xED ==> v <= 0x9F) && (l == 0xF0 ==> v >= 0x90) && (l == 0xF4 ==> v <= 0x8F)
  {}

  lemma BitsOf(base: nat, part: nat, m: nat)
    requires base + part < 256 && part < m
    requires (m == 64 && base == 0x80) || (m == 32 && base == 0xC0) || (m == 16 && base == 0xE0) || (m == 8 && base == 0xF0)
    ensures Bits(Raised(base, part), m) == part
  {
    RaisedVal(base, part);
  }

  lemma OneKept(c: Character, rest: Bytes)
    requires c < 0x80
    ensures var p := Encode(c) + rest; Taken(p) == |Encode(c)| && First(p) == c
  {
    ByteValues.ByteRound(c);
    AnnouncedIs(Encode(c)[0]);
    hide Announced, Seconds;
  }

  lemma TwoKept(c: Character, rest: Bytes)
    requires 0x80 <= c < 0x800
    ensures var p := Encode(c) + rest; Taken(p) == |Encode(c)| && First(p) == c
  {
    var p, a, b := Encode(c) + rest, c / 64, c % 64;
    RaisedVal(0xC0, a);
    RaisedVal(0x80, b);
    AnnouncedIs(p[0]);
    SecondsIs(p[0], p[1]);
    BitsOf(0xC0, a, 32);
    BitsOf(0x80, b, 64);
    hide Announced, Seconds, Raised, Bits;
    assert p[..2] == [p[0], p[1]];
  }

  lemma ThreeTaken(p: Bytes, a: nat, b: nat, d: nat)
    requires |p| >= 3 && a < 16 && b < 64 && d < 64 && (a == 0 ==> b >= 32) && (a == 13 ==> b < 32)
    requires p[0] == Raised(0xE0, a) && p[1] == Raised(0x80, b) && p[2] == Raised(0x80, d)
    ensures Taken(p) == 3 && Announced(p[0]) == 2 && p[0] >= 0x80 && Joined(p[..3]) == (a * 64 + b) * 64 + d
  {
    hide Announced, Seconds, Trails, Raised, Bits;
    RaisedVal(0xE0, a);
    RaisedVal(0x80, b);
    RaisedVal(0x80, d);
    AnnouncedIs(p[0]);
    SecondsIs(p[0], p[1]);
    TrailsIs(p[2]);
    BitsOf(0xE0, a, 16);
    BitsOf(0x80, b, 64);
    BitsOf(0x80, d, 64);
    assert p[..3] == [p[0], p[1], p[2]];
  }

  lemma ThreeKept(c: Character, rest: Bytes)
    requires 0x800 <= c < 0x10000
    ensures var p := Encode(c) + rest; Taken(p) == |Encode(c)| && First(p) == c
  {
    hide Announced, Taken, Joined, Raised;
    var p, a, b, d := Encode(c) + rest, c / 64 / 64, c / 64 % 64, c % 64;
    assert Scalar(c) && c / 64 == a * 64 + b && c == (c / 64) * 64 + d;
    ThreeTaken(p, a, b, d);
  }

  lemma FourTaken(p: Bytes, a: nat, b: nat, d: nat, e: nat)
    requires |p| >= 4 && a <= 4 && b < 64 && d < 64 && e < 64 && (a == 0 ==> b >= 16) && (a == 4 ==> b < 16)
    requires p[0] == Raised(0xF0, a) && p[1] == Raised(0x80, b) && p[2] == Raised(0x80, d) && p[3] == Raised(0x80, e)
    ensures Taken(p) == 4 && Announced(p[0]) == 3 && p[0] >= 0x80 && Joined(p[..4]) == ((a * 64 + b) * 64 + d) * 64 + e
  {
    hide Announced, Seconds, Trails, Raised, Bits;
    RaisedVal(0xF0, a);
    RaisedVal(0x80, b);
    RaisedVal(0x80, d);
    RaisedVal(0x80, e);
    AnnouncedIs(p[0]);
    SecondsIs(p[0], p[1]);
    TrailsIs(p[2]);
    TrailsIs(p[3]);
    BitsOf(0xF0, a, 8);
    BitsOf(0x80, b, 64);
    BitsOf(0x80, d, 64);
    BitsOf(0x80, e, 64);
    assert p[..4] == [p[0], p[1], p[2], p[3]];
  }

  lemma FourKept(c: Character, rest: Bytes)
    requires 0x10000 <= c
    ensures var p := Encode(c) + rest; Taken(p) == |Encode(c)| && First(p) == c
  {
    hide Announced, Taken, Joined, Raised;
    var p, a, b, d, e := Encode(c) + rest, c / 64 / 64 / 64, c / 64 / 64 % 64, c / 64 % 64, c % 64;
    var x, y := c / 64, c / 64 / 64;
    assert Scalar(c) && c < 0x110000;
    assert c == x * 64 + e && x == y * 64 + d && y == a * 64 + b && y < 0x110;
    FourTaken(p, a, b, d, e);
  }

  // Every text comes back from its bytes.
  lemma {:induction false} EncodedKept(t: Text)
    ensures Decode(Encoded(t)) == t
    decreases |t|
  {
    hide Taken, First, Encode;
    if t != [] {
      var c, rest := t[0], Encoded(t[1..]);
      if c < 0x80 { OneKept(c, rest); } else if c < 0x800 { TwoKept(c, rest); } else if c < 0x10000 { ThreeKept(c, rest); } else { FourKept(c, rest); }
      EncodedKept(t[1..]);
      assert (Encode(c) + rest)[|Encode(c)|..] == rest;
    }
  }

  // ----- which names survive

  predicate Ascii(p: Bytes) {
    forall i :: 0 <= i < |p| ==> p[i] < 0x80
  }

  // Every byte as the character of the same number.
  function Plain(p: Bytes): (t: Text)
    ensures |t| == |p| && forall i :: 0 <= i < |p| ==> t[i] == p[i] as nat
  {
    if p == [] then [] else [p[0] as nat] + Plain(p[1..])
  }

  lemma OneByte(p: Bytes)
    requires p != []
    ensures p[0] < 0x80 ==> Taken(p) == 1 && First(p) == p[0] as nat
    ensures p[0] >= 0x80 && Taken(p) == 1 ==> First(p) == REPLACEMENT
    ensures Trails(p[0]) ==> Taken(p) == 1
  {
    hide Joined;
  }

  // The decoded name is the byte string character by character exactly when no
  // byte is above 127.
  lemma {:induction false} AsciiKept(p: Bytes)
    ensures Decode(p) == Plain(p) <==> Ascii(p)
    decreases |p|
  {
    hide Taken, First;
    if p != [] {
      OneByte(p);
      var rest := p[Taken(p)..];
      assert Decode(p) == [First(p)] + Decode(rest);
      if p[0] < 0x80 {
        AsciiKept(rest);
        assert Decode(p)[1..] == Decode(rest) && Plain(p)[1..] == Plain(rest);
        AsciiTail(p);
      } else if Taken(p) == 1 {
        assert Decode(p)[0] == REPLACEMENT;
      } else {
        assert |Decode(p)| < |p|;
      }
    }
  }

  lemma AsciiTail(p: Bytes)
    requires p != []
    ensures Ascii(p) <==> p[0] < 0x80 && Ascii(p[1..])
  {
    forall i | 0 <= i < |p| && p[0] < 0x80 && Ascii(p[1..]) ensures p[i] < 0x80 {
      if i > 0 { assert p[1..][i - 1] == p[i]; }
    }
  }

  // Bytes from 80 to BF alone become one replacement each.
  lemma {:induction false} TrailsReplaced(p: Bytes)
    requires forall i :: 0 <= i < |p| ==> Trails(p[i])
    ensures |Decode(p)| == |p| && forall i :: 0 <= i < |p| ==> Decode(p)[i] == REPLACEMENT
    decreases |p|
  {
    hide Taken, First;
    if p != [] {
      OneByte(p);
      assert Trails(p[0]);
      TrailsReplaced(p[1..]);
    }
  }

  lemma {:induction false} ReplacedLength(t: Text)
    requires forall i :: 0 <= i < |t| ==> t[i] == REPLACEMENT
    ensures |Encoded(t)| == 3 * |t|
    decreases |t|
  {
    hide Raised;
    if t != [] { ReplacedLength(t[1..]); }
  }
}
