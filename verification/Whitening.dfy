// Payload whitening: xorshift32 words, one per four payload bytes, fused with
// the copy and with the CRC of the whitened bytes
// (dos_sender32/protocol32.c, dos_sender_legacy/src/protocol.c).

module Whitening {
  import opened Gf2
  import opened Crc32

  function Xorshift(x: Word): Word {
    var y := Plus(x, x << 13);
    var z := Plus(y, y >> 17);
    Plus(z, z << 5)
  }

  function Seed(session: Word, index: Word): Word {
    var s := session ^ (index * 0x9E3779B9) ^ 0xD05FE123;
    if s == 0 then 0xA5A5A5A5 else s
  }

  // The k-th state of the generator.
  function State(seed: Word, k: nat): Word
    decreases k
  {
    if k == 0 then seed else Xorshift(State(seed, k - 1))
  }

  // The k-th key word of several generators running side by side.
  function KeyWord(seeds: seq<Word>, k: nat): Word
    decreases |seeds|
  {
    if |seeds| == 0 then 0
    else Plus(KeyWord(seeds[..|seeds| - 1], k), State(seeds[|seeds| - 1], k + 1))
  }

  function KeyByte(seeds: seq<Word>, i: nat): Byte {
    Store(KeyWord(seeds, i / 4))[i % 4]
  }

  // The first n bytes of the combined whitening stream.
  function Stream(seeds: seq<Word>, n: nat): (k: Bytes)
    ensures |k| == n
    ensures forall i :: 0 <= i < n ==> k[i] == KeyByte(seeds, i)
  {
    seq(n, i requires 0 <= i < n => KeyByte(seeds, i))
  }

  // Whitened bytes as they travel on the wire.
  function Whiten(data: Bytes, seeds: seq<Word>): (r: Bytes)
    ensures |r| == |data|
  {
    Xor(data, Stream(seeds, |data|))
  }

  // Applying the stream twice restores the payload.
  lemma WhitenTwice(data: Bytes, seeds: seq<Word>)
    ensures Whiten(Whiten(data, seeds), seeds) == data
  {
    hide Xor, Stream;
    XorCancel(data, Stream(seeds, |data|));
  }

  // ----- the combined stream is the XOR of the single ones

  lemma StorePlus(a: Word, b: Word)
    ensures Store(Plus(a, b)) == Xor(Store(a), Store(b))
  {
    hide Plus, Low, Byte1, Byte2, Byte3, Add;
    LowPlus(a, b);
    Byte1Plus(a, b);
    Byte2Plus(a, b);
    Byte3Plus(a, b);
    var x, y := Store(a), Store(b);
    var l, r := Store(Plus(a, b)), Xor(x, y);
    assert l[0] == Add(x[0], y[0]) == r[0];
    assert l[1] == Add(x[1], y[1]) == r[1];
    assert l[2] == Add(x[2], y[2]) == r[2];
    assert l[3] == Add(x[3], y[3]) == r[3];
  }

  lemma LowPlus(a: Word, b: Word)
    ensures Low(Plus(a, b)) == Add(Low(a), Low(b))
  {}

  lemma Byte1Plus(a: Word, b: Word)
    ensures Byte1(Plus(a, b)) == Add(Byte1(a), Byte1(b))
  {}

  lemma Byte2Plus(a: Word, b: Word)
    ensures Byte2(Plus(a, b)) == Add(Byte2(a), Byte2(b))
  {}

  lemma Byte3Plus(a: Word, b: Word)
    ensures Byte3(Plus(a, b)) == Add(Byte3(a), Byte3(b))
  {}

  lemma StreamAppend(seeds: seq<Word>, seed: Word, n: nat)
    ensures Stream(seeds + [seed], n) == Xor(Stream(seeds, n), Stream([seed], n))
  {
    hide Store, State, Plus;
    var l, r := Stream(seeds + [seed], n), Xor(Stream(seeds, n), Stream([seed], n));
    forall i | 0 <= i < n ensures l[i] == r[i] {
      var k := i / 4;
      assert (seeds + [seed])[..|seeds|] == seeds;
      assert [seed][..0] == [];
      PlusZero(State(seed, k + 1));
      assert KeyWord([seed], k) == State(seed, k + 1);
      StorePlus(KeyWord(seeds, k), State(seed, k + 1));
    }
  }

  lemma StreamNone(n: nat)
    ensures Stream([], n) == Zeros(n)
  {
    hide Plus;
    forall i | 0 <= i < n ensures Stream([], n)[i] == 0 {
      StoreZero();
    }
  }

  lemma StoreZero()
    ensures Store(0) == [0, 0, 0, 0]
  {}

  // Members whitened one by one, member i with its own seed.
  function WhitenEach(members: seq<Bytes>, seeds: seq<Word>): (r: seq<Bytes>)
    requires |members| == |seeds|
    ensures |r| == |members|
    ensures forall i :: 0 <= i < |r| ==> |r[i]| == |members[i]|
  {
    seq(|members|, i requires 0 <= i < |members| => Whiten(members[i], [seeds[i]]))
  }

  // For members of one length, XORing the separately whitened members is
  // whitening the XOR of the plain ones with the combined stream.  This is
  // what lets the senders form parity from frames that already went out.
  lemma {:induction false} ParityOfWhitened(members: seq<Bytes>, seeds: seq<Word>, n: nat)
    requires |members| == |seeds|
    requires forall i :: 0 <= i < |members| ==> |members[i]| == n
    ensures XorAll(WhitenEach(members, seeds), n) == Whiten(XorAll(members, n), seeds)
  {
    hide Xor, Stream, Zeros;
    var w := WhitenEach(members, seeds);
    if |members| == 0 {
      StreamNone(n);
      XorZero(Zeros(n));
    } else {
      var k := |members| - 1;
      var ms, ss := members[..k], seeds[..k];
      assert w[..k] == WhitenEach(ms, ss);
      ParityOfWhitened(ms, ss, n);
      assert seeds == ss + [seeds[k]];
      StreamAppend(ss, seeds[k], n);
      XorCross(XorAll(ms, n), Stream(ss, n), members[k], Stream([seeds[k]], n));
    }
  }

  // With one seed shared by the whole group the streams cancel in pairs: odd
  // groups keep the stream, even groups lose it.
  lemma {:induction false} SharedSeed(seeds: seq<Word>, seed: Word, n: nat)
    requires forall i :: 0 <= i < |seeds| ==> seeds[i] == seed
    ensures Stream(seeds, n) == if |seeds| % 2 == 1 then Stream([seed], n) else Zeros(n)
  {
    hide *;
    if |seeds| == 0 {
      assert seeds == [];
      StreamNone(n);
    } else {
      var k := |seeds| - 1;
      assert seeds == seeds[..k] + [seed];
      SharedSeed(seeds[..k], seed, n);
      StreamAppend(seeds[..k], seed, n);
      XorSelf(Stream([seed], n));
      XorComm(Zeros(n), Stream([seed], n));
      XorZero(Stream([seed], n));
    }
  }

  // PLANE3 / PLANE4: the parity payload of the wire is the XOR of the whitened
  // basis payloads, whitened again for an odd width and plain for an even one.
  lemma PlaneParityPayload(members: seq<Bytes>, seed: Word, n: nat)
    requires forall i :: 0 <= i < |members| ==> |members[i]| == n
    ensures XorAll(WhitenEach(members, seq(|members|, _ => seed)), n)
         == if |members| % 2 == 1 then Whiten(XorAll(members, n), [seed]) else XorAll(members, n)
  {
    hide Xor, Stream, Zeros;
    var seeds := seq(|members|, _ => seed);
    ParityOfWhitened(members, seeds, n);
    SharedSeed(seeds, seed, n);
    XorZero(XorAll(members, n));
  }

  // ----- the fused loops

  function Shifted(w: Word, j: nat): Word
    decreases j
  {
    if j == 0 then w else Down8(Shifted(w, j - 1))
  }

  lemma LowShifted(w: Word, j: nat)
    requires j < 4
    ensures Low(Shifted(w, j)) == Store(w)[j]
  {
    hide Low, Down8;
    assert Shifted(w, 1) == Down8(w);
    assert Shifted(w, 2) == Down8(Down8(w));
    assert Shifted(w, 3) == Down8(Shifted(w, 2));
    ShiftedBytes(w);
  }

  lemma ShiftedBytes(w: Word)
    ensures Low(Down8(w)) == Byte1(w)
    ensures Low(Down8(Down8(w))) == Byte2(w)
    ensures Low(Down8(Down8(Down8(w)))) == Byte3(w)
  {}

  lemma StoreLoad(b0: Byte, b1: Byte, b2: Byte, b3: Byte)
    ensures Store(Load(b0, b1, b2, b3)) == [b0, b1, b2, b3]
  {}

  // Store one whitened word and advance the CRC over it.
  method EmitWord(t: Tables, dst: array<Byte>, p: nat, value: Word, crc: Word) returns (r: Word)
    requires t.Valid() && p + 4 <= dst.Length
    modifies dst
    ensures dst[..] == old(dst[..p]) + Store(value) + old(dst[p + 4..])
    ensures r == Run(crc, Store(value))
  {
    hide Low, Byte1, Byte2, Byte3, Load, WordStep, Run;
    r := t.Word4(crc, value);
    WordStepIsFourBytes(crc, Low(value), Byte1(value), Byte2(value), Byte3(value));
    LoadStore(value);
    dst[p], dst[p + 1], dst[p + 2], dst[p + 3] := Low(value), Byte1(value), Byte2(value), Byte3(value);
  }

  // The generator states after k words.
  function States(seeds: seq<Word>, k: nat): (r: seq<Word>)
    ensures |r| == |seeds|
    ensures forall j :: 0 <= j < |r| ==> r[j] == State(seeds[j], k)
  {
    seq(|seeds|, j requires 0 <= j < |seeds| => State(seeds[j], k))
  }

  // Four wire bytes are the four source bytes under the next key word.
  lemma WordOfWire(src: Bytes, seeds: seq<Word>, i: nat)
    requires i % 4 == 0 && i + 4 <= |src|
    ensures Store(Plus(Load(src[i], src[i + 1], src[i + 2], src[i + 3]), KeyWord(seeds, i / 4)))
         == Whiten(src, seeds)[i..i + 4]
  {
    hide *;
    var k := KeyWord(seeds, i / 4);
    var w := Load(src[i], src[i + 1], src[i + 2], src[i + 3]);
    StorePlus(w, k);
    StoreLoad(src[i], src[i + 1], src[i + 2], src[i + 3]);
    WireBytes(src, seeds, i, 0);
    WireBytes(src, seeds, i, 1);
    WireBytes(src, seeds, i, 2);
    WireBytes(src, seeds, i, 3);
    var s := Xor(Store(w), Store(k));
    assert s == Whiten(src, seeds)[i..i + 4];
  }

  lemma WireBytes(src: Bytes, seeds: seq<Word>, i: nat, j: nat)
    requires i % 4 == 0 && j < 4 && i + j < |src|
    ensures Whiten(src, seeds)[i + j] == Add(src[i + j], Store(KeyWord(seeds, i / 4))[j])
  {
    hide Xor, Store, KeyWord, Add;
    assert (i + j) / 4 == i / 4 && (i + j) % 4 == j;
  }

  // The four wire bytes at i: XOR the source word with the key word, store it
  // and advance the CRC.
  method EmitWire(t: Tables, dst: array<Byte>, p: nat, src: Bytes, i: nat, ghost seeds: seq<Word>, word: Word, crc: Word)
    returns (r: Word)
    requires t.Valid() && i % 4 == 0 && i + 4 <= |src| && p + |src| <= dst.Length
    requires word == KeyWord(seeds, i / 4)
    requires dst[p..p + i] == Whiten(src, seeds)[..i]
    requires crc == Run(START, Whiten(src, seeds)[..i])
    modifies dst
    ensures dst[p..p + i + 4] == Whiten(src, seeds)[..i + 4]
    ensures dst[..p] == old(dst[..p]) && dst[p + |src|..] == old(dst[p + |src|..])
    ensures r == Run(START, Whiten(src, seeds)[..i + 4])
  {
    hide *;
    var value := Plus(Load(src[i], src[i + 1], src[i + 2], src[i + 3]), word);
    ghost var wire := Whiten(src, seeds);
    WordOfWire(src, seeds, i);
    RunConcat(START, wire[..i], Store(value));
    assert wire[..i + 4] == wire[..i] + wire[i..i + 4];
    r := EmitWord(t, dst, p + i, value, crc);
    assert dst[p..p + i + 4] == dst[p..p + i] + dst[p + i..p + i + 4];
  }

  // The last one to three bytes: one more key word, consumed low byte first.
  method EmitTail(t: Tables, dst: array<Byte>, p: nat, src: Bytes, i: nat, ghost seeds: seq<Word>, word: Word, crc: Word)
    returns (r: Word)
    requires t.Valid() && i <= |src| < i + 4 && i % 4 == 0 && p + |src| <= dst.Length
    requires i < |src| ==> word == KeyWord(seeds, i / 4)
    requires dst[p..p + i] == Whiten(src, seeds)[..i]
    requires crc == Run(START, Whiten(src, seeds)[..i])
    modifies dst
    ensures dst[..] == old(dst[..p]) + Whiten(src, seeds) + old(dst[p + |src|..])
    ensures r == Run(START, Whiten(src, seeds))
  {
    hide *;
    ghost var wire := Whiten(src, seeds);
    var key := word;
    r := crc;
    ShiftedNext(word, 0);
    var j := i;
    while j < |src|
      invariant i <= j <= |src|
      invariant i < |src| ==> key == Shifted(word, j - i)
      invariant dst[p..p + j] == wire[..j]
      invariant dst[..p] == old(dst[..p]) && dst[p + |src|..] == old(dst[p + |src|..])
      invariant r == Run(START, wire[..j])
    {
      var value := Add(src[j], Low(key));
      LowShifted(word, j - i);
      WireBytes(src, seeds, i, j - i);
      dst[p + j] := value;
      r := t.Byte1Step(r, value);
      RunAppend(START, wire[..j], value);
      assert wire[..j + 1] == wire[..j] + [value];
      key := Down8(key);
      ShiftedNext(word, j - i);
      j := j + 1;
    }
    assert wire[..j] == wire;
    assert dst[..] == dst[..p] + dst[p..p + j] + dst[p + j..];
  }

  lemma ShiftedNext(w: Word, j: nat)
    ensures Shifted(w, j + 1) == Down8(Shifted(w, j)) && Shifted(w, 0) == w
  {}

  lemma RunAppend(c: Word, a: Bytes, b: Byte)
    ensures Run(c, a + [b]) == ByteStep(Run(c, a), b)
    ensures Run(c, []) == c
  {
    hide ByteStep;
    assert (a + [b])[..|a|] == a;
  }

  // whiten_copy_crc: generate, copy and CRC in one pass.
  method WhitenCopyCrc(t: Tables, dst: array<Byte>, p: nat, src: Bytes, session: Word, index: Word)
    returns (crc: Word)
    requires t.Valid() && p + |src| <= dst.Length
    modifies dst
    ensures dst[..] == old(dst[..p]) + Whiten(src, [Seed(session, index)]) + old(dst[p + |src|..])
    ensures crc == Crc(Whiten(src, [Seed(session, index)]))
  {
    hide *;
    ghost var seeds := [Seed(session, index)];
    ghost var wire := Whiten(src, seeds);
    var state := Seed(session, index);
    var i := 0;
    crc := START;
    SingleKey(state, 0);
    RunAppend(START, [], 0);
    while |src| - i >= 4
      invariant 0 <= i <= |src| && i % 4 == 0
      invariant state == State(seeds[0], i / 4)
      invariant dst[p..p + i] == wire[..i]
      invariant dst[..p] == old(dst[..p]) && dst[p + |src|..] == old(dst[p + |src|..])
      invariant crc == Run(START, wire[..i])
    {
      SingleKey(seeds[0], i / 4);
      state := Xorshift(state);
      crc := EmitWire(t, dst, p, src, i, seeds, state, crc);
      i := i + 4;
    }
    SingleKey(seeds[0], i / 4);
    crc := EmitTail(t, dst, p, src, i, seeds, Xorshift(state), crc);
    crc := Finish(crc, wire);
  }

  method Finish(state: Word, ghost data: Bytes) returns (crc: Word)
    requires state == Run(START, data)
    ensures crc == Crc(data)
  {
    crc := Plus(state, START);
  }

  lemma SingleKey(seed: Word, k: nat)
    ensures State(seed, 0) == seed
    ensures State(seed, k + 1) == Xorshift(State(seed, k))
    ensures KeyWord([seed], k) == Xorshift(State(seed, k))
  {
    hide Xorshift, Plus;
    assert [seed][..0] == [];
    PlusZero(State(seed, k + 1));
  }

  // copy_key_crc with a prepared key: the whole key word is loaded from it.
  method CopyKeyCrc(t: Tables, dst: array<Byte>, p: nat, src: Bytes, key: Bytes, ghost seeds: seq<Word>)
    returns (crc: Word)
    requires t.Valid() && p + |src| <= dst.Length
    requires seeds != [] ==> |src| <= |key| && key[..|src|] == Stream(seeds, |src|)
    requires seeds == [] ==> key == []
    modifies dst
    ensures dst[..] == old(dst[..p]) + Whiten(src, seeds) + old(dst[p + |src|..])
    ensures crc == Crc(Whiten(src, seeds))
  {
    hide *;
    ghost var wire := Whiten(src, seeds);
    var i := 0;
    crc := START;
    RunAppend(START, [], 0);
    while |src| - i >= 4
      invariant 0 <= i <= |src| && i % 4 == 0
      invariant dst[p..p + i] == wire[..i]
      invariant dst[..p] == old(dst[..p]) && dst[p + |src|..] == old(dst[p + |src|..])
      invariant crc == Run(START, wire[..i])
    {
      KeyFromBytes(src, key, seeds, i);
      var word := if key == [] then 0 else Load(key[i], key[i + 1], key[i + 2], key[i + 3]);
      crc := EmitWire(t, dst, p, src, i, seeds, word, crc);
      i := i + 4;
    }
    while i < |src|
      invariant 0 <= i <= |src|
      invariant dst[p..p + i] == wire[..i]
      invariant dst[..p] == old(dst[..p]) && dst[p + |src|..] == old(dst[p + |src|..])
      invariant crc == Run(START, wire[..i])
    {
      var value := if key == [] then src[i] else Add(src[i], key[i]);
      WhitenAt(src, seeds, i);
      if key == [] {
        KeyNone(i);
      } else {
        assert key[i] == key[..|src|][i];
      }
      dst[p + i] := value;
      crc := t.Byte1Step(crc, value);
      RunAppend(START, wire[..i], value);
      assert wire[..i + 1] == wire[..i] + [value];
      i := i + 1;
    }
    assert wire[..i] == wire;
    assert dst[..] == dst[..p] + dst[p..p + i] + dst[p + i..];
    crc := Finish(crc, wire);
  }

  lemma WhitenAt(src: Bytes, seeds: seq<Word>, i: nat)
    requires i < |src|
    ensures Whiten(src, seeds)[i] == Add(src[i], KeyByte(seeds, i))
    ensures Stream(seeds, |src|)[i] == KeyByte(seeds, i)
  {
    hide KeyByte, Add;
  }

  lemma KeyNone(i: nat)
    ensures KeyWord([], i) == 0
    ensures KeyByte([], i) == 0
    ensures forall b: Byte :: Add(b, 0) == b
  {
    hide Store;
    StoreZero();
    assert forall b: Byte :: Add(b, 0) == b;
  }

  lemma KeyFromBytes(src: Bytes, key: Bytes, seeds: seq<Word>, i: nat)
    requires i % 4 == 0 && i + 4 <= |src|
    requires seeds != [] ==> |src| <= |key| && key[..|src|] == Stream(seeds, |src|)
    requires seeds == [] ==> key == []
    ensures key == [] ==> KeyWord(seeds, i / 4) == 0
    ensures key != [] ==> |src| <= |key| && KeyWord(seeds, i / 4) == Load(key[i], key[i + 1], key[i + 2], key[i + 3])
  {
    hide *;
    if seeds == [] {
      KeyNone(i / 4);
    } else {
      var k := key[..|src|];
      KeyBytes(src, seeds, i, 0);
      KeyBytes(src, seeds, i, 1);
      KeyBytes(src, seeds, i, 2);
      KeyBytes(src, seeds, i, 3);
      StoreParts(KeyWord(seeds, i / 4));
      LoadStore(KeyWord(seeds, i / 4));
      assert key[i] == k[i] && key[i + 1] == k[i + 1] && key[i + 2] == k[i + 2] && key[i + 3] == k[i + 3];
    }
  }

  lemma StoreParts(w: Word)
    ensures Store(w)[0] == Low(w) && Store(w)[1] == Byte1(w) && Store(w)[2] == Byte2(w) && Store(w)[3] == Byte3(w)
  {
    hide Low, Byte1, Byte2, Byte3;
  }

  lemma KeyBytes(src: Bytes, seeds: seq<Word>, i: nat, j: nat)
    requires i % 4 == 0 && j < 4 && i + j < |src|
    ensures Stream(seeds, |src|)[i + j] == Store(KeyWord(seeds, i / 4))[j]
  {
    hide Store, KeyWord;
    assert (i + j) / 4 == i / 4 && (i + j) % 4 == j;
  }

  // dos32_generate_keystream: the plane group's stream, one word at a time.
  method GenerateKeystream(dst: array<Byte>, session: Word, index: Word)
    requires dst.Length % 4 == 0
    modifies dst
    ensures dst[..] == Stream([Seed(session, index)], dst.Length)
  {
    hide *;
    ghost var seeds := [Seed(session, index)];
    ghost var stream := Stream(seeds, dst.Length);
    var state := Seed(session, index);
    var i := 0;
    SingleKey(state, 0);
    while i < dst.Length
      invariant 0 <= i <= dst.Length && i % 4 == 0
      invariant state == State(seeds[0], i / 4)
      invariant dst[..i] == stream[..i]
    {
      SingleKey(seeds[0], i / 4);
      state := Xorshift(state);
      StoreParts(state);
      KeyBytes(stream, seeds, i, 0);
      KeyBytes(stream, seeds, i, 1);
      KeyBytes(stream, seeds, i, 2);
      KeyBytes(stream, seeds, i, 3);
      dst[i], dst[i + 1], dst[i + 2], dst[i + 3] := Low(state), Byte1(state), Byte2(state), Byte3(state);
      assert dst[..i + 4] == dst[..i] + [dst[i], dst[i + 1], dst[i + 2], dst[i + 3]];
      assert stream[..i + 4] == stream[..i] + [stream[i], stream[i + 1], stream[i + 2], stream[i + 3]];
      i := i + 4;
    }
  }

  // ----- the 16-bit sender's copy_payload_crc and its whitening modes

  datatype Flags = Flags(group: bool, pair: bool, whitened: bool)

  // The generators a frame is whitened with: the DATA stream of each member of
  // the equation, in member order.
  function PayloadSeeds(f: Flags, session: Word, index: Word, streamId: Word, streamOffset: Word): seq<Word> {
    if f.group then
      var count := streamId & 0xFFFF;
      var stride := if streamOffset != 0 then streamOffset else 1;
      [Seed(session, index)] +
      (if count >= 2 then [Seed(session, index + stride)] else []) +
      (if count >= 3 then [Seed(session, index + stride * 2)] else [])
    else if f.pair then [Seed(session, index), Seed(session, index + 1)]
    else if f.whitened then [Seed(session, index)]
    else []
  }

  // One step of up to three generators, and the key word they produce.
  method NextKey(seeds: seq<Word>, k: nat, states: seq<Word>) returns (next: seq<Word>, word: Word)
    requires |seeds| <= 3 && states == States(seeds, k)
    ensures next == States(seeds, k + 1)
    ensures word == KeyWord(seeds, k)
  {
    hide *;
    next, word := [], 0;
    KeyNone(k);
    assert seeds[..0] == [];
    for j := 0 to |states|
      invariant |next| == j
      invariant forall m :: 0 <= m < j ==> next[m] == State(seeds[m], k + 1)
      invariant word == KeyWord(seeds[..j], k)
    {
      var x := Xorshift(states[j]);
      StatesAt(seeds, k, j);
      SingleKey(seeds[j], k);
      KeyWordAppend(seeds[..j], seeds[j], k);
      assert seeds[..j + 1] == seeds[..j] + [seeds[j]];
      next := next + [x];
      word := Plus(word, x);
    }
    assert seeds[..|seeds|] == seeds;
    forall j | 0 <= j < |seeds| ensures States(seeds, k + 1)[j] == next[j] {
      StatesAt(seeds, k + 1, j);
    }
    StatesLength(seeds, k);
    assert next == States(seeds, k + 1);
  }

  lemma StatesAt(seeds: seq<Word>, k: nat, j: nat)
    requires j < |seeds|
    ensures |States(seeds, k)| == |seeds| && States(seeds, k)[j] == State(seeds[j], k)
  {}

  lemma StatesStart(seeds: seq<Word>)
    ensures States(seeds, 0) == seeds
  {
    hide *;
    forall j | 0 <= j < |seeds| ensures States(seeds, 0)[j] == seeds[j] {
      StatesAt(seeds, 0, j);
      SingleKey(seeds[j], 0);
    }
    StatesLength(seeds, 0);
  }

  lemma StatesLength(seeds: seq<Word>, k: nat)
    ensures |States(seeds, k)| == |seeds|
  {}

  lemma KeyWordAppend(seeds: seq<Word>, seed: Word, k: nat)
    ensures KeyWord(seeds + [seed], k) == Plus(KeyWord(seeds, k), State(seed, k + 1))
  {
    assert (seeds + [seed])[..|seeds|] == seeds;
  }

  // One word of copy_payload_crc: advance the generators, emit four bytes.
  method KeyedWord(t: Tables, dst: array<Byte>, p: nat, src: Bytes, i: nat, seeds: seq<Word>, states: seq<Word>, crc: Word)
    returns (next: seq<Word>, r: Word)
    requires t.Valid() && i % 4 == 0 && i + 4 <= |src| && p + |src| <= dst.Length
    requires |seeds| <= 3 && states == States(seeds, i / 4)
    requires dst[p..p + i] == Whiten(src, seeds)[..i]
    requires crc == Run(START, Whiten(src, seeds)[..i])
    modifies dst
    ensures next == States(seeds, (i + 4) / 4)
    ensures dst[p..p + i + 4] == Whiten(src, seeds)[..i + 4]
    ensures dst[..p] == old(dst[..p]) && dst[p + |src|..] == old(dst[p + |src|..])
    ensures r == Run(START, Whiten(src, seeds)[..i + 4])
  {
    hide *;
    var word;
    next, word := NextKey(seeds, i / 4, states);
    r := EmitWire(t, dst, p, src, i, seeds, word, crc);
  }

  method CopyPayloadCrc(t: Tables, dst: array<Byte>, p: nat, src: Bytes, f: Flags,
                        session: Word, index: Word, streamId: Word, streamOffset: Word)
    returns (crc: Word)
    requires t.Valid() && p + |src| <= dst.Length
    modifies dst
    ensures dst[..] == old(dst[..p])
                     + Whiten(src, PayloadSeeds(f, session, index, streamId, streamOffset))
                     + old(dst[p + |src|..])
    ensures crc == Crc(Whiten(src, PayloadSeeds(f, session, index, streamId, streamOffset)))
  {
    hide *;
    var seeds := PayloadSeeds(f, session, index, streamId, streamOffset);
    SeedCount(f, session, index, streamId, streamOffset);
    ghost var wire := Whiten(src, seeds);
    var states, word, i := seeds, 0, 0;
    crc := START;
    RunAppend(START, [], 0);
    StatesStart(seeds);
    // The single-stream case handles two words per iteration.
    var stride := if |seeds| == 1 then 8 else 4;
    while |src| - i >= stride
      invariant 0 <= i <= |src| && i % 4 == 0
      invariant states == States(seeds, i / 4)
      invariant dst[p..p + i] == wire[..i]
      invariant dst[..p] == old(dst[..p]) && dst[p + |src|..] == old(dst[p + |src|..])
      invariant crc == Run(START, wire[..i])
    {
      states, crc := KeyedWord(t, dst, p, src, i, seeds, states, crc);
      if stride == 8 {
        states, crc := KeyedWord(t, dst, p, src, i + 4, seeds, states, crc);
      }
      i := i + stride;
    }
    if |src| - i >= 4 {
      states, crc := KeyedWord(t, dst, p, src, i, seeds, states, crc);
      i := i + 4;
    }
    states, word := NextKey(seeds, i / 4, states);
    crc := EmitTail(t, dst, p, src, i, seeds, word, crc);
    crc := Finish(crc, wire);
  }

  lemma SeedCount(f: Flags, session: Word, index: Word, streamId: Word, streamOffset: Word)
    ensures |PayloadSeeds(f, session, index, streamId, streamOffset)| <= 3
  {}
}
