// Single erasure equations: how the senders form them (chain_frame,
// block_frame, group_block_frame) and how the receiver solves one for its
// missing member (recoverChain, recoverBlock).

module Repair {
  import opened Gf2
  import opened Crc32
  import opened Whitening
  import opened Protocol

  datatype Option<T> = Some(value: T) | None

  // Shorter members are padded with zeros.
  function Pad(a: Bytes, n: nat): (r: Bytes)
    requires |a| <= n
    ensures |r| == n
  {
    a + Zeros(n - |a|)
  }

  function MaxLen(list: seq<Bytes>): (n: nat)
    ensures forall i :: 0 <= i < |list| ==> |list[i]| <= n
    ensures list != [] ==> exists i :: 0 <= i < |list| && |list[i]| == n
  {
    if list == [] then 0
    else
      var m := MaxLen(list[..|list| - 1]);
      var l := |list[|list| - 1]|;
      if l > m || |list| == 1 then l else m
  }

  function PadAll(list: seq<Bytes>, n: nat): (r: seq<Bytes>)
    requires forall i :: 0 <= i < |list| ==> |list[i]| <= n
    ensures |r| == |list|
    ensures forall i :: 0 <= i < |r| ==> r[i] == Pad(list[i], n)
  {
    seq(|list|, i requires 0 <= i < |list| => Pad(list[i], n))
  }

  // The payload of an equation over the given plain payloads.
  function Equation(list: seq<Bytes>): (r: Bytes)
    ensures |r| == MaxLen(list)
  {
    XorAll(PadAll(list, MaxLen(list)), MaxLen(list))
  }

  function Payloads(frames: seq<Frame>): (r: seq<Bytes>)
    ensures |r| == |frames|
    ensures forall i :: 0 <= i < |r| ==> r[i] == frames[i].payload
  {
    seq(|frames|, i requires 0 <= i < |frames| => frames[i].payload)
  }

  function ChainFrame(left: Frame, right: Frame): Result<Frame>
    requires |left.payload| < 0x1_0000 && |right.payload| < 0x1_0000
  {
    if left.kind != DATA || right.kind != DATA || left.session != right.session || left.window != right.window ||
       right.globalIndex != left.globalIndex + 1 || right.windowIndex != left.windowIndex + 1 then Err
    else Ok(Frame(CHAIN_XOR, FLAG_PAIR_WHITENED, left.session, left.window, left.globalIndex,
                  left.windowIndex, left.windowCount, |left.payload| * 0x1_0000 + |right.payload|, 0,
                  Equation([left.payload, right.payload])))
  }

  predicate Spaced(frames: seq<Frame>, stride: nat) {
    && frames != []
    && forall i :: 0 <= i < |frames| ==>
        var first, f := frames[0], frames[i];
        && f.kind == DATA && f.session == first.session && f.window == first.window
        && f.globalIndex == first.globalIndex + i * stride
        && f.windowIndex == first.windowIndex + i * stride
        && f.windowCount == first.windowCount
  }

  function BlockFrame(frames: seq<Frame>): Result<Frame> {
    if frames == [] || |frames| > 64 || !Spaced(frames, 1) then Err
    else
      var first := frames[0];
      Ok(Frame(BLOCK_XOR, FLAG_WHITENED, first.session, first.window, first.globalIndex,
               first.windowIndex, first.windowCount, |frames|, 0, Equation(Payloads(frames))))
  }

  function GroupBlockFrame(frames: seq<Frame>, stride: U32): Result<Frame> {
    if frames == [] || |frames| > 3 || stride < 1 || !Spaced(frames, stride) then Err
    else
      var first := frames[0];
      Ok(Frame(BLOCK_XOR, FLAG_GROUP_XOR_WHITENED, first.session, first.window, first.globalIndex,
               first.windowIndex, first.windowCount, |frames|, stride, Equation(Payloads(frames))))
  }

  function RecoverChain(chain: Frame, known: Bytes, knownIsLeft: bool): Result<Bytes> {
    var left, right := chain.streamId / 0x1_0000, chain.streamId % 0x1_0000;
    var expected := if knownIsLeft then left else right;
    var missing := if knownIsLeft then right else left;
    if chain.kind != CHAIN_XOR then Err
    else if left < RECORD_HEADER || right < RECORD_HEADER || |known| != expected ||
            |chain.payload| != (if left > right then left else right) then Err
    else
      var out := Xor(chain.payload, Pad(known, |chain.payload|))[..missing];
      if ParseRecord(out).Ok? then Ok(out) else Err
  }

  // The equation payload with the first k members XORed out, skipping the
  // missing one.
  function Peeled(payload: Bytes, members: seq<Option<Bytes>>, k: nat): (r: Bytes)
    requires k <= |members|
    requires forall i :: 0 <= i < k && members[i].Some? ==> |members[i].value| <= |payload|
    ensures |r| == |payload|
  {
    if k == 0 then payload
    else
      var before := Peeled(payload, members, k - 1);
      if members[k - 1].None? then before else Xor(before, Pad(members[k - 1].value, |payload|))
  }

  // What recoverBlock requires of its arguments before it starts.
  predicate BlockArguments(parity: Frame, members: seq<Option<Bytes>>, missing: nat) {
    var group := parity.flags == FLAG_GROUP_XOR_WHITENED;
    && parity.kind == BLOCK_XOR
    && (parity.flags == FLAG_WHITENED || group)
    && (group ==> 1 <= parity.streamId <= 3 && Stride(parity) < 0x8000_0000)
    && (!group ==> parity.streamOffset == 0)
    && 1 <= parity.streamId <= MAX_WINDOW && |members| == parity.streamId
    && missing < |members| && members[missing].None?
  }

  function RecoverBlock(parity: Frame, members: seq<Option<Bytes>>, missing: nat): Result<Bytes> {
    if !BlockArguments(parity, members, missing) then Err
    else if BadMember(parity.payload, members, missing) then Err
    else
      var out := Peeled(parity.payload, members, |members|);
      if |out| < RECORD_HEADER then Err
      else
        var total := RECORD_HEADER + Get32(out[16..20]);
        if total > |out| || total > 0xFFFF then Err
        else if exists i :: total <= i < |out| && out[i] != 0 then Err
        else if ParseRecord(out[..total]).Ok? then Ok(out[..total]) else Err
  }

  // ----- repair inverts forming the equation

  lemma PadXorCancel(a: Bytes, b: Bytes, n: nat)
    requires |a| <= n && |b| <= n
    ensures Xor(Xor(Pad(a, n), Pad(b, n)), Pad(b, n))[..|a|] == a
  {
    hide Xor;
    XorCancel(Pad(a, n), Pad(b, n));
  }

  lemma EquationOfTwo(a: Bytes, b: Bytes)
    ensures var n := if |a| > |b| then |a| else |b|;
            MaxLen([a, b]) == n && Equation([a, b]) == Xor(Pad(a, n), Pad(b, n))
  {
    hide Xor, Pad;
    assert [a, b][..1] == [a] && [a][..0] == [];
    var n := MaxLen([a, b]);
    var p := PadAll([a, b], n);
    assert p[..1] == [Pad(a, n)] && p[..1][..0] == [];
    assert XorAll(p[..1], n) == Xor(Zeros(n), Pad(a, n));
    assert XorAll(p, n) == Xor(XorAll(p[..1], n), Pad(b, n));
    XorComm(Zeros(n), Pad(a, n));
    XorZero(Pad(a, n));
  }

  lemma RecoverChainOk(chain: Frame, known: Bytes, knownIsLeft: bool, left: nat, right: nat)
    requires RECORD_HEADER <= left < 0x1_0000 && RECORD_HEADER <= right < 0x1_0000
    requires chain.kind == CHAIN_XOR && chain.streamId == left * 0x1_0000 + right
    requires |known| == (if knownIsLeft then left else right)
    requires |chain.payload| == (if left > right then left else right)
    ensures var out := Xor(chain.payload, Pad(known, |chain.payload|))[..if knownIsLeft then right else left];
            RecoverChain(chain, known, knownIsLeft) == if ParseRecord(out).Ok? then Ok(out) else Err
  {
    hide Xor, Pad, ParseRecord;
    assert chain.streamId / 0x1_0000 == left && chain.streamId % 0x1_0000 == right;
  }

  lemma ChainRepairs(chain: Frame, a: Bytes, b: Bytes)
    requires |a| < 0x1_0000 && |b| < 0x1_0000 && ParseRecord(a).Ok? && ParseRecord(b).Ok?
    requires chain.kind == CHAIN_XOR && chain.streamId == |a| * 0x1_0000 + |b| && chain.payload == Equation([a, b])
    ensures RecoverChain(chain, a, true) == Ok(b)
    ensures RecoverChain(chain, b, false) == Ok(a)
  {
    hide Xor, Pad, Equation, MaxLen, ParseRecord, RecoverChain;
    EquationOfTwo(a, b);
    var n := MaxLen([a, b]);
    RecordLength(a);
    RecordLength(b);
    PadXorCancel(a, b, n);
    PadXorCancel(b, a, n);
    XorComm(Pad(a, n), Pad(b, n));
    RecoverChainOk(chain, a, true, |a|, |b|);
    RecoverChainOk(chain, b, false, |a|, |b|);
  }

  // The chain equation of two adjacent DATA frames gives back either one from
  // the other, whatever their lengths.
  lemma ChainRepair(left: Frame, right: Frame)
    requires |left.payload| < 0x1_0000 && |right.payload| < 0x1_0000
    requires ChainFrame(left, right).Ok?
    requires ParseRecord(left.payload).Ok? && ParseRecord(right.payload).Ok?
    ensures RecoverChain(ChainFrame(left, right).value, left.payload, true) == Ok(right.payload)
    ensures RecoverChain(ChainFrame(left, right).value, right.payload, false) == Ok(left.payload)
  {
    hide Equation, ParseRecord, RecoverChain;
    ChainRepairs(ChainFrame(left, right).value, left.payload, right.payload);
  }

  lemma RecordLength(raw: Bytes)
    requires ParseRecord(raw).Ok?
    ensures |raw| >= RECORD_HEADER && Get32(raw[16..20]) == |raw| - RECORD_HEADER
  {
    hide Get32, Crc, PutWord, Val;
  }

  // The members with the missing one replaced by zeros.
  function Others(pads: seq<Bytes>, missing: nat, n: nat): (r: seq<Bytes>)
    requires missing < |pads| && forall i :: 0 <= i < |pads| ==> |pads[i]| == n
    ensures |r| == |pads| && forall i :: 0 <= i < |r| ==> |r[i]| == n
  {
    pads[missing := Zeros(n)]
  }

  lemma {:induction false} XorAllOthers(pads: seq<Bytes>, missing: nat, n: nat)
    requires missing < |pads| && forall i :: 0 <= i < |pads| ==> |pads[i]| == n
    ensures XorAll(pads, n) == Xor(XorAll(Others(pads, missing, n), n), pads[missing])
    decreases |pads|
  {
    hide Xor;
    var k := |pads| - 1;
    var o := Others(pads, missing, n);
    var a := XorAll(o[..k], n);
    if missing == k {
      assert o[..k] == pads[..k];
      XorZero(a);
    } else {
      assert o[..k] == Others(pads[..k], missing, n);
      XorAllOthers(pads[..k], missing, n);
      XorAssoc(a, pads[missing], pads[k]);
      XorComm(pads[missing], pads[k]);
      XorAssoc(a, pads[k], pads[missing]);
    }
  }

  lemma {:induction false} PeeledIsXor(payload: Bytes, members: seq<Option<Bytes>>, list: seq<Bytes>, missing: nat, k: nat)
    requires missing < |members| == |list| && k <= |members|
    requires forall i :: 0 <= i < |list| ==> |list[i]| <= |payload|
    requires forall i :: 0 <= i < |members| ==> members[i] == if i == missing then None else Some(list[i])
    ensures var n := |payload|;
            Peeled(payload, members, k) == Xor(payload, XorAll(Others(PadAll(list, n), missing, n)[..k], n))
    decreases k
  {
    hide Xor, Pad;
    var n := |payload|;
    var o := Others(PadAll(list, n), missing, n);
    if k == 0 {
      XorZero(payload);
    } else {
      PeeledIsXor(payload, members, list, missing, k - 1);
      var x := XorAll(o[..k - 1], n);
      assert o[..k][..k - 1] == o[..k - 1];
      if k - 1 == missing {
        XorZero(x);
      } else {
        XorAssoc(payload, x, o[k - 1]);
      }
    }
  }

  // Whichever single member is missing, the equation gives back its padding.
  lemma PeeledMissing(list: seq<Bytes>, members: seq<Option<Bytes>>, missing: nat)
    requires missing < |members| == |list|
    requires forall i :: 0 <= i < |members| ==> members[i] == if i == missing then None else Some(list[i])
    ensures Peeled(Equation(list), members, |members|) == Pad(list[missing], MaxLen(list))
  {
    hide Xor, Pad;
    var n := MaxLen(list);
    var pads := PadAll(list, n);
    var o := Others(pads, missing, n);
    PeeledIsXor(Equation(list), members, list, missing, |members|);
    assert o[..|members|] == o;
    XorAllOthers(pads, missing, n);
    var x := XorAll(o, n);
    XorComm(x, pads[missing]);
    XorCancel(pads[missing], x);
  }

  // The members of an equation as the receiver collects them.
  function MembersBut(list: seq<Bytes>, missing: nat): (r: seq<Option<Bytes>>)
    ensures |r| == |list|
    ensures forall i :: 0 <= i < |r| ==> r[i] == if i == missing then None else Some(list[i])
  {
    seq(|list|, i requires 0 <= i < |list| => if i == missing then None else Some(list[i]))
  }

  predicate AllRecords(list: seq<Bytes>) {
    forall i :: 0 <= i < |list| ==> |list[i]| < 0x1_0000 && ParseRecord(list[i]).Ok?
  }

  lemma PadOfRecord(raw: Bytes, n: nat)
    requires ParseRecord(raw).Ok? && |raw| <= n && |raw| <= 0xFFFF
    ensures var out := Pad(raw, n);
            && |out| >= RECORD_HEADER && RECORD_HEADER + Get32(out[16..20]) == |raw|
            && out[..|raw|] == raw && forall i :: |raw| <= i < n ==> out[i] == 0
  {
    hide Get32, ParseRecord;
    RecordLength(raw);
    assert Pad(raw, n)[16..20] == raw[16..20];
  }

  lemma BlockRepairs(parity: Frame, list: seq<Bytes>, missing: nat)
    requires missing < |list| && AllRecords(list)
    requires BlockArguments(parity, MembersBut(list, missing), missing)
    requires parity.payload == Equation(list)
    ensures RecoverBlock(parity, MembersBut(list, missing), missing) == Ok(list[missing])
  {
    hide Get32, ParseRecord, Equation, MaxLen, Pad, Peeled, BlockArguments;
    PeeledMissing(list, MembersBut(list, missing), missing);
    PadOfRecord(list[missing], MaxLen(list));
  }

  // Contiguous parity blocks and strided group blocks are both inverted for
  // every missing position; a stride the receiver's int cannot hold is refused,
  // which only a group of one frame can have.
  lemma BlockRepair(frames: seq<Frame>, missing: nat)
    requires BlockFrame(frames).Ok? && missing < |frames| && AllRecords(Payloads(frames))
    ensures RecoverBlock(BlockFrame(frames).value, MembersBut(Payloads(frames), missing), missing)
         == Ok(frames[missing].payload)
  {
    hide Equation, RecoverBlock, Spaced, AllRecords;
    assert FLAG_WHITENED != FLAG_GROUP_XOR_WHITENED;
    BlockRepairs(BlockFrame(frames).value, Payloads(frames), missing);
  }

  lemma GroupBlockRepair(frames: seq<Frame>, stride: U32, missing: nat)
    requires GroupBlockFrame(frames, stride).Ok? && missing < |frames| && AllRecords(Payloads(frames))
    ensures RecoverBlock(GroupBlockFrame(frames, stride).value, MembersBut(Payloads(frames), missing), missing)
         == if stride < 0x8000_0000 then Ok(frames[missing].payload) else Err
  {
    hide Equation, Spaced, AllRecords, Peeled, BadMember, Get32, ParseRecord;
    if stride < 0x8000_0000 {
      BlockRepairs(GroupBlockFrame(frames, stride).value, Payloads(frames), missing);
    }
  }

  // Equal-length members need no padding: the equation peels to the missing
  // payload itself.
  lemma PeeledPlane(payload: Bytes, list: seq<Bytes>, missing: nat)
    requires missing < |list| && forall i :: 0 <= i < |list| ==> |list[i]| == |payload|
    requires payload == XorAll(list, |payload|)
    ensures Peeled(payload, MembersBut(list, missing), |list|) == list[missing]
  {
    hide Xor;
    var n := |payload|;
    forall i | 0 <= i < |list| ensures PadAll(list, n)[i] == list[i] {
      assert list[i] + Zeros(0) == list[i];
    }
    assert PadAll(list, n) == list;
    PeeledIsXor(payload, MembersBut(list, missing), list, missing, |list|);
    var o := Others(list, missing, n);
    assert o[..|list|] == o;
    XorAllOthers(list, missing, n);
    XorComm(XorAll(o, n), list[missing]);
    XorCancel(list[missing], XorAll(o, n));
  }

  // Is there a member, other than the missing one, that cannot be peeled off?
  predicate BadMember(payload: Bytes, members: seq<Option<Bytes>>, missing: nat) {
    exists m :: 0 <= m < |members| && m != missing && (members[m].None? || |members[m].value| > |payload|)
  }

  // The first loop of recoverBlock: XOR every known member into a copy.
  method Peel(payload: Bytes, members: seq<Option<Bytes>>, missing: nat) returns (out: Option<Bytes>)
    requires missing < |members| && members[missing].None?
    ensures out.None? <==> BadMember(payload, members, missing)
    ensures out.Some? ==> out.value == Peeled(payload, members, |members|)
  {
    hide Xor, Pad;
    var acc := new Byte[|payload|](i requires 0 <= i < |payload| => payload[i]);
    assert acc[..] == payload;
    for m := 0 to |members|
      invariant forall k :: 0 <= k < m && k != missing ==> members[k].Some? && |members[k].value| <= acc.Length
      invariant acc[..] == Peeled(payload, members, m)
    {
      if m != missing {
        if members[m].None? || |members[m].value| > acc.Length {
          return None;
        }
        XorInto(acc, members[m].value);
      }
    }
    out := Some(acc[..]);
  }

  // recoverBlock: peel, then cut the result to the length its own header
  // announces.
  method SolveBlock(parity: Frame, members: seq<Option<Bytes>>, missing: nat) returns (r: Result<Bytes>)
    ensures r == RecoverBlock(parity, members, missing)
  {
    hide BlockArguments, Get32, ParseRecord, Peeled;
    if !BlockArguments(parity, members, missing) {
      return Err;
    }
    MissingIsNone(parity, members, missing);
    var peeled := Peel(parity.payload, members, missing);
    if peeled.None? {
      return Err;
    }
    var out := peeled.value;
    if |out| < RECORD_HEADER {
      return Err;
    }
    var total := RECORD_HEADER + Get32(out[16..20]);
    if total > |out| || total > 0xFFFF {
      return Err;
    }
    for i := total to |out|
      invariant forall k :: total <= k < i ==> out[k] == 0
    {
      if out[i] != 0 {
        return Err;
      }
    }
    r := if ParseRecord(out[..total]).Ok? then Ok(out[..total]) else Err;
  }

  lemma MissingIsNone(parity: Frame, members: seq<Option<Bytes>>, missing: nat)
    requires BlockArguments(parity, members, missing)
    ensures missing < |members| && members[missing].None?
  {}

  method XorInto(out: array<Byte>, known: Bytes)
    requires |known| <= out.Length
    modifies out
    ensures out[..] == Xor(old(out[..]), Pad(known, out.Length))
  {
    hide Add;
    for i := 0 to |known|
      invariant forall k :: 0 <= k < i ==> out[k] == Add(old(out[k]), known[k])
      invariant forall k :: i <= k < out.Length ==> out[k] == old(out[k])
    {
      out[i] := Add(out[i], known[i]);
    }
    AddZero();
    assert out[..] == Xor(old(out[..]), Pad(known, out.Length));
  }

  // Up to four bytes under one key word, low byte first.
  method WhitenFour(data: array<Byte>, p: nat, n: nat, word: Word)
    requires n <= 4 && p + n <= data.Length
    modifies data
    ensures forall k :: 0 <= k < data.Length ==>
              data[k] == if p <= k < p + n then Add(old(data[k]), Store(word)[k - p]) else old(data[k])
  {
    hide *;
    var key := word;
    ShiftedNext(word, 0);
    for j := 0 to n
      invariant key == Shifted(word, j)
      invariant forall k :: 0 <= k < data.Length ==>
                  data[k] == if p <= k < p + j then Add(old(data[k]), Store(word)[k - p]) else old(data[k])
    {
      LowShifted(word, j);
      data[p + j] := Add(data[p + j], Low(key));
      key := Down8(key);
      ShiftedNext(word, j);
    }
  }

  // whitenPayload, whitenPayloadPair, whitenPayloadGroup and
  // whitenPayloadXorGroup differ only in their list of generators.
  method WhitenInPlace(data: array<Byte>, offset: nat, length: nat, seeds: seq<Word>)
    requires offset + length <= data.Length && |seeds| <= 3
    modifies data
    ensures data[..] == old(data[..offset]) + Whiten(old(data[offset..offset + length]), seeds) + old(data[offset + length..])
  {
    hide *;
    ghost var plain := data[offset..offset + length];
    ghost var wire := Whiten(plain, seeds);
    var states, word := seeds, 0;
    StatesStart(seeds);
    var i := 0;
    while i < length
      invariant 0 <= i <= length && (i % 4 == 0 || i == length)
      invariant i < length ==> states == States(seeds, i / 4)
      invariant forall k :: 0 <= k < data.Length ==>
                  data[k] == if offset <= k < offset + i then wire[k - offset] else old(data[k])
    {
      states, word := NextKey(seeds, i / 4, states);
      var n := if length - i < 4 then length - i else 4;
      WhitenFour(data, offset + i, n, word);
      forall j | 0 <= j < n ensures wire[i + j] == Add(plain[i + j], Store(word)[j]) {
        WireBytes(plain, seeds, i, j);
      }
      forall k | offset + i <= k < offset + i + n ensures data[k] == wire[k - offset] {
        assert wire[i + (k - offset - i)] == Add(plain[k - offset], Store(word)[k - offset - i]);
      }
      i := i + n;
    }
    assert data[..] == old(data[..offset]) + wire + old(data[offset + length..]);
  }
}
