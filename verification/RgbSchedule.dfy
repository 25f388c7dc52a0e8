// sender.c: the frames transmit_rgb3 shows with /RE:3.  Every third frame of a
// nine-frame block shares a parity frame, and its symbol is gathered from those
// of the DATA frames as they are shown.

module RgbSchedule {
  import opened Gf2
  import opened Protocol
  import opened V40L
  import DerivedSymbols

  const CHANNELS: nat := 3
  const BATCHES: nat := 3

  // One physical image: up to three DATA frames, or the parities of a block.
  datatype Image = DataImage(first: nat, used: nat) | ParityImage(parities: seq<Parity>)

  // `count` frames, three apart.
  datatype Group = Group(first: nat, count: nat)

  // What a channel gathers of its group while the DATA frames are shown: the XOR
  // of their codewords and of their headers.
  datatype Parity = Parity(group: Group, codewords: Bytes, headers: Bytes)

  // Codewords and header of every DATA frame, as encoded for its image.
  datatype Shots = Shots(codewords: nat -> Bytes, headers: nat -> Bytes)

  ghost predicate GoodShots(w: Shots) {
    forall i: nat :: |w.codewords(i)| == CODEWORDS && |w.headers(i)| == HEADER
  }

  // Every third value, `count` of them.
  function Thirds(f: nat -> Bytes, first: nat, count: nat): seq<Bytes> {
    seq(count, k requires 0 <= k < count => f(first + 3 * k))
  }

  ghost function Gathered(f: nat -> Bytes, g: Group, size: nat): Bytes
    requires forall i: nat :: |f(i)| == size
  {
    XorAll(Thirds(f, g.first, g.count), size)
  }

  lemma GatheredNext(f: nat -> Bytes, g: Group, size: nat)
    requires forall i: nat :: |f(i)| == size
    ensures |Gathered(f, g, size)| == size
    ensures g.count > 0 ==> Gathered(f, g, size) == Xor(Gathered(f, g.(count := g.count - 1), size), f(g.first + 3 * (g.count - 1)))
    ensures g.count == 1 ==> Gathered(f, g, size) == f(g.first)
  {
    hide Xor;
    if g.count > 0 {
      var list := Thirds(f, g.first, g.count);
      assert list[..g.count - 1] == Thirds(f, g.first, g.count - 1);
      if g.count == 1 {
        XorComm(Zeros(size), f(g.first));
        XorZero(f(g.first));
      }
    }
  }

  ghost function ParityOf(w: Shots, g: Group): Parity
    requires GoodShots(w)
  {
    Parity(g, Gathered(w.codewords, g, CODEWORDS), Gathered(w.headers, g, HEADER))
  }

  // What was gathered belongs to these frames.
  ghost predicate ShotsOf(t: seq<Bytes>, w: Shots, g: Group, wires: seq<Bytes>, size: nat)
    requires ShapedTable(t)
  {
    && GoodShots(w) && DerivedSymbols.AllLong(wires, size) && size <= PAYLOAD && |wires| == g.count
    && forall k :: 0 <= k < g.count ==>
         w.codewords(Member3(g, k)) == Codewords(t, DerivedSymbols.Packed(wires[k])) && w.headers(Member3(g, k)) == wires[k][..HEADER]
  }

  // finalize_rgb_parity_channel: what was gathered, corrected by the header, is
  // the symbol of the group's parity frame.
  lemma GatheredSymbol(t: seq<Bytes>, w: Shots, g: Group, m: DerivedSymbols.Members, wires: seq<Bytes>, frames: seq<Frame>, f: Frame)
    requires LinearTable(t) && ShapedTable(t) && DerivedSymbols.GoodMembers(m) && DerivedSymbols.Wires(m, wires, frames)
    requires DerivedSymbols.IsParity(m, f) && ShotsOf(t, w, g, wires, m.size) && (g.count % 2 == 1 || m.size == PAYLOAD)
    ensures |f.payload| <= PAYLOAD && |ParityOf(w, g).headers| == HEADER
    ensures var p := ParityOf(w, g);
            var header := Xor(DerivedSymbols.Sent(f)[..HEADER], p.headers);
            |p.codewords| == CODEWORDS &&
            Xor(p.codewords, Codewords(t, DerivedSymbols.CorrectionData(g.count, header))) == Codewords(t, DerivedSymbols.Packed(DerivedSymbols.Sent(f)))
  {
    hide Codewords, LinearTable, DerivedSymbols.Packed, DerivedSymbols.Sent, DerivedSymbols.IsParity, DerivedSymbols.CorrectionData, Xor, XorAll,
         DerivedSymbols.Wires;
    DerivedSymbols.DerivedSymbol(t, m, wires, frames, f);
    var inputs := DerivedSymbols.Inputs(wires, m.size);
    forall k | 0 <= k < g.count ensures Thirds(w.codewords, g.first, g.count)[k] == DerivedSymbols.Encoded(t, inputs)[k] {
      assert w.codewords(Member3(g, k)) == Codewords(t, DerivedSymbols.Packed(wires[k]));
    }
    assert Thirds(w.codewords, g.first, g.count) == DerivedSymbols.Encoded(t, inputs);
    forall k | 0 <= k < g.count ensures Thirds(w.headers, g.first, g.count)[k] == DerivedSymbols.Heads(wires, m.size)[k] {
      assert w.headers(Member3(g, k)) == wires[k][..HEADER];
    }
    assert Thirds(w.headers, g.first, g.count) == DerivedSymbols.Heads(wires, m.size);
  }

  // Channel c of the block that starts at frame `start`.
  function GroupAt(n: nat, start: nat, c: nat): Group {
    Group(start + c, if n <= start + c then 0 else if n <= start + c + 3 then 1 else if n <= start + c + 6 then 2 else 3)
  }

  predicate InGroup(g: Group, i: nat) {
    exists k :: 0 <= k < g.count && Member3(g, k) == i
  }

  function Member3(g: Group, k: nat): nat {
    g.first + 3 * k
  }

  function BlockStart(first: nat, i: nat): nat
    requires first <= i
  {
    first + (i - first) / 9 * 9
  }

  // Nine frames a block, three apart in a group.
  lemma Split9(d: nat)
    ensures d == 9 * (d / 9) + 3 * (d % 9 / 3) + d % 3 && d % 9 / 3 < 3
  {}

  lemma Joined9(b: nat, k: nat, c: nat)
    requires k < 3 && c < 3
    ensures (9 * b + 3 * k + c) / 9 == b && (9 * b + 3 * k + c) % 9 / 3 == k && (9 * b + 3 * k + c) % 3 == c
  {
    assert 9 * b + 3 * k + c == 3 * (3 * b + k) + c;
  }

  // Where the frame of block b, image k and channel c stands.
  lemma PlaceIs(n: nat, first: nat, b: nat, k: nat, c: nat, i: nat)
    requires k < 3 && c < 3 && i == first + 9 * b + 3 * k + c && i < n
    ensures var g := GroupAt(n, first + 9 * b, c); k < g.count && Member3(g, k) == i
  {}

  // Every frame lies in exactly one group of its block, and every group stays
  // inside the window.
  lemma GroupsPartition(n: nat, first: nat, i: nat, b: nat, c: nat)
    requires first <= i < n && c < 3
    ensures var start := first + 9 * b;
            InGroup(GroupAt(n, start, c), i) <==> start == BlockStart(first, i) && c == (i - first) % 3
  {
    var start := first + 9 * b;
    var g := GroupAt(n, start, c);
    var d := i - first;
    if InGroup(g, i) {
      var k :| 0 <= k < g.count && Member3(g, k) == i;
      MemberPlace(n, start, c, k);
      Joined9(b, k, c);
      assert d == 9 * b + 3 * k + c;
    }
    if start == BlockStart(first, i) && c == d % 3 {
      Split9(d);
      BlockIs(first, i, b);
      PlaceIs(n, first, b, d % 9 / 3, c, i);
    }
  }

  lemma MemberPlace(n: nat, start: nat, c: nat, k: nat)
    requires c < 3 && k < GroupAt(n, start, c).count
    ensures k < 3 && Member3(GroupAt(n, start, c), k) == start + 3 * k + c
  {}

  lemma BlockIs(first: nat, i: nat, b: nat)
    requires first <= i && first + 9 * b == BlockStart(first, i)
    ensures (i - first) / 9 == b
  {}

  lemma GroupInWindow(n: nat, start: nat, c: nat, k: nat)
    requires c < 3 && k < GroupAt(n, start, c).count
    ensures Member3(GroupAt(n, start, c), k) < n && GroupAt(n, start, c).count <= 3
  {}

  function ImageSize(n: nat, at: nat): nat
    requires at < n
  {
    if n - at < 3 then n - at else 3
  }

  // The first k DATA images of a block, and how many it has.
  function DataImages(n: nat, start: nat, k: nat): seq<Image>
    requires k > 0 ==> start + 3 * (k - 1) < n
  {
    seq(k, b requires 0 <= b < k => DataImage(start + 3 * b, ImageSize(n, start + 3 * b)))
  }

  function ImageCount(n: nat, start: nat): (k: nat)
    requires start < n
    ensures 1 <= k <= 3 && start + 3 * (k - 1) < n
  {
    if n - start <= 3 then 1 else if n - start <= 6 then 2 else 3
  }

  // The groups of a block, channel by channel; unused channels have none.
  ghost function Groups(w: Shots, n: nat, start: nat): seq<Parity>
    requires GoodShots(w) && start < n
  {
    [ParityOf(w, GroupAt(n, start, 0))] + (if start + 1 < n then [ParityOf(w, GroupAt(n, start, 1))] else []) +
    (if start + 2 < n then [ParityOf(w, GroupAt(n, start, 2))] else [])
  }

  ghost function Block(w: Shots, n: nat, start: nat): seq<Image>
    requires GoodShots(w) && start < n
  {
    DataImages(n, start, ImageCount(n, start)) + [ParityImage(Groups(w, n, start))]
  }

  // Everything transmit_rgb3 shows of frames first..n.
  ghost function AllImages(w: Shots, n: nat, first: nat): seq<Image>
    requires GoodShots(w)
    decreases n - first
  {
    if first >= n then [] else Block(w, n, first) + AllImages(w, n, first + 9)
  }

  // Everything before the block that starts `blocks` blocks in.
  ghost function Blocks(w: Shots, n: nat, first: nat, blocks: nat): seq<Image>
    requires GoodShots(w) && (blocks > 0 ==> first + 9 * (blocks - 1) < n)
    decreases blocks
  {
    if blocks == 0 then [] else Blocks(w, n, first, blocks - 1) + Block(w, n, first + 9 * (blocks - 1))
  }

  lemma {:induction false} BlocksAll(w: Shots, n: nat, first: nat, blocks: nat)
    requires GoodShots(w) && (blocks > 0 ==> first + 9 * (blocks - 1) < n)
    ensures Blocks(w, n, first, blocks) + AllImages(w, n, first + 9 * blocks) == AllImages(w, n, first)
    decreases blocks
  {
    hide Block;
    if blocks > 0 {
      var at := first + 9 * (blocks - 1);
      BlocksAll(w, n, first, blocks - 1);
      assert AllImages(w, n, at) == Block(w, n, at) + AllImages(w, n, at + 9);
      assert (Blocks(w, n, first, blocks - 1) + Block(w, n, at)) + AllImages(w, n, at + 9)
          == Blocks(w, n, first, blocks - 1) + (Block(w, n, at) + AllImages(w, n, at + 9));
    } else {
      assert Blocks(w, n, first, 0) + AllImages(w, n, first) == AllImages(w, n, first);
    }
  }

  // The groups after `whole` full batches from `start` on and `used` frames more.
  function Batches(start: nat, whole: nat, used: nat): (g: seq<Group>)
    ensures |g| == CHANNELS && forall c :: 0 <= c < CHANNELS ==> g[c] == Group(start + c, if c < used then whole + 1 else whole)
  {
    seq(CHANNELS, c requires 0 <= c < CHANNELS => Group(start + c, if c < used then whole + 1 else whole))
  }

  // What a channel hands over, if it is in use.
  ghost function Due(w: Shots, g: Group): seq<Parity>
    requires GoodShots(w)
  {
    if g.count > 0 then [ParityOf(w, g)] else []
  }

  ghost function AllDue(w: Shots, g: seq<Group>): seq<Parity>
    requires GoodShots(w) && |g| == CHANNELS
  {
    Due(w, g[0]) + Due(w, g[1]) + Due(w, g[2])
  }

  // Whatever the last batch, the parities handed over are those of the block.
  lemma DueGroups(w: Shots, n: nat, start: nat, whole: nat, used: nat)
    requires GoodShots(w) && whole * 3 + used <= 9 && used <= 3 && start < start + 3 * whole + used <= n
    requires n == start + 3 * whole + used || (whole == 2 && used == 3)
    ensures AllDue(w, Batches(start, whole, used)) == Groups(w, n, start)
  {
    hide ParityOf;
    var b := Batches(start, whole, used);
    forall c | 0 <= c < 3 && b[c].count > 0 ensures start + c < n && b[c] == GroupAt(n, start, c) {}
  }

  // RgbParityAccumulator, with rgb_parity_codewords.
  class Accumulator {
    var batches: nat
    const first: array<nat>
    const count: array<nat>
    const codewords: array<Bytes>
    const headers: array<Bytes>

    ghost predicate Wired() {
      && first.Length == count.Length == codewords.Length == headers.Length == CHANNELS
      && first != count && codewords != headers
    }

    // What channel c holds of its group.
    ghost predicate Channel(w: Shots, c: nat, g: Group)
      reads first, count, codewords, headers
    {
      && GoodShots(w) && c < CHANNELS && Wired() && count[c] == g.count
      && (g.count > 0 ==> first[c] == g.first && Parity(g, codewords[c], headers[c]) == ParityOf(w, g))
    }

    ghost predicate Channels(w: Shots, g: seq<Group>)
      reads first, count, codewords, headers
    {
      |g| == CHANNELS && forall c :: 0 <= c < CHANNELS ==> Channel(w, c, g[c])
    }

    // Whole batches from `start` on.
    ghost predicate Holds(w: Shots, start: nat, whole: nat)
      reads this, first, count, codewords, headers
    {
      batches == whole && Channels(w, Batches(start, whole, 0))
    }

    constructor (ghost w: Shots)
      requires GoodShots(w)
      ensures batches == 0 && Channels(w, Batches(0, 0, 0)) && fresh(first) && fresh(count) && fresh(codewords) && fresh(headers)
    {
      batches := 0;
      first := new nat[CHANNELS](_ => 0);
      count := new nat[CHANNELS](_ => 0);
      codewords := new Bytes[CHANNELS](_ => []);
      headers := new Bytes[CHANNELS](_ => []);
    }

    // One channel of accumulate_rgb_data: frame `at`, the next of its group.
    method AddOne(c: nat, at: nat, ghost w: Shots, words: Bytes, header: Bytes, ghost g: seq<Group>) returns (ok: bool)
      requires Channels(w, g) && c < CHANNELS && at == Member3(g[c], g[c].count)
      requires words == w.codewords(at) && header == w.headers(at)
      modifies first, count, codewords, headers
      ensures ok && Channels(w, g[c := g[c].(count := g[c].count + 1)])
    {
      hide Gathered;
      ghost var was, next := g[c], g[c].(count := g[c].count + 1);
      assert Channel(w, c, was);
      assert next.(count := next.count - 1) == was;
      GatheredNext(w.codewords, was, CODEWORDS);
      GatheredNext(w.headers, was, HEADER);
      GatheredNext(w.codewords, next, CODEWORDS);
      GatheredNext(w.headers, next, HEADER);
      if count[c] > 0 {
        if at != first[c] + count[c] * 3 { return false; }
        codewords[c] := Xor(codewords[c], words);
        headers[c] := Xor(headers[c], header);
      } else {
        first[c] := at;
        codewords[c] := words;
        headers[c] := header;
      }
      count[c] := count[c] + 1;
      ok := true;
      assert Channel(w, c, next);
      forall k | 0 <= k < CHANNELS && k != c ensures Channel(w, k, g[k]) {
        assert old(Channel(w, k, g[k]));
      }
    }

    // accumulate_rgb_data: the batch of `used` frames from `at` on.
    method Add(at: nat, used: nat, w: Shots, ghost start: nat, ghost whole: nat) returns (ok: bool)
      requires Holds(w, start, whole) && 1 <= used <= CHANNELS && at == start + 3 * whole
      modifies this, first, count, codewords, headers
      ensures ok && batches == whole + 1 && Channels(w, Batches(start, whole, used))
    {
      hide Channels;
      for c := 0 to used
        invariant batches == whole && Channels(w, Batches(start, whole, c))
      {
        ghost var g := Batches(start, whole, c);
        var one := AddOne(c, at + c, w, w.codewords(at + c), w.headers(at + c), g);
        assert g[c := g[c].(count := g[c].count + 1)] == Batches(start, whole, c + 1);
      }
      batches := batches + 1;
      ok := true;
    }

    method TakeOne(c: nat, ghost w: Shots, ghost g: Group) returns (parities: seq<Parity>)
      requires Channel(w, c, g)
      ensures parities == Due(w, g)
    {
      hide ParityOf;
      parities := if count[c] > 0 then [Parity(Group(first[c], count[c]), codewords[c], headers[c])] else [];
    }

    // flush_rgb_channel_parity: one parity for every channel in use.
    method Flush(ghost w: Shots, ghost g: seq<Group>) returns (parities: seq<Parity>)
      requires GoodShots(w) && Channels(w, g)
      modifies this, count
      ensures batches == 0 && Channels(w, Batches(0, 0, 0))
      ensures parities == AllDue(w, g)
    {
      hide ParityOf;
      assert Channel(w, 0, g[0]) && Channel(w, 1, g[1]) && Channel(w, 2, g[2]);
      var red := TakeOne(0, w, g[0]);
      var green := TakeOne(1, w, g[1]);
      var blue := TakeOne(2, w, g[2]);
      parities := red + green + blue;
      batches, count[0], count[1], count[2] := 0, 0, 0, 0;
    }

    // An empty accumulator starts anywhere.
    lemma EmptyHolds(w: Shots, start: nat)
      requires batches == 0 && Channels(w, Batches(0, 0, 0))
      ensures Holds(w, start, 0)
    {
      var b := Batches(start, 0, 0);
      forall c | 0 <= c < CHANNELS ensures Channel(w, c, b[c]) {
        assert Channel(w, c, Batches(0, 0, 0)[c]);
      }
    }
  }

  // What transmit_rgb3 has shown when i frames are done and the last i % 3 of
  // them wait for their image.
  ghost predicate Progress(w: Shots, images: seq<Image>, acc: Accumulator, n: nat, first: nat, blocks: nat, i: nat, used: nat)
    reads acc, acc.first, acc.count, acc.codewords, acc.headers
  {
    var start := first + 9 * blocks;
    && GoodShots(w) && start <= i <= start + 8 && used == (i - start) % 3 && (i > first ==> i <= n)
    && (blocks > 0 ==> start - 9 < n)
    && acc.Holds(w, start, (i - start) / 3)
    && images == Blocks(w, n, first, blocks) + DataImages(n, start, (i - start) / 3)
  }

  // A full batch: its image, and the parity image after the third.
  method ShowBatch(w: Shots, images: seq<Image>, acc: Accumulator, n: nat, ghost first: nat, ghost blocks: nat, i: nat)
    returns (after: seq<Image>, ghost next: nat)
    requires i >= 3 && i <= n && i > first && Progress(w, images, acc, n, first, blocks, i - 1, 2)
    modifies acc, acc.first, acc.count, acc.codewords, acc.headers
    ensures Progress(w, after, acc, n, first, next, i, 0)
  {
    hide Blocks, Block, Groups, GoodShots, AllDue, Accumulator.Channels, Batches;
    ghost var start := first + 9 * blocks;
    ghost var whole := (i - 1 - start) / 3;
    next := blocks;
    MoreData(n, start, whole);
    after := images + [DataImage(i - 3, 3)];
    assert after == Blocks(w, n, first, blocks) + DataImages(n, start, whole + 1);
    var ok := acc.Add(i - 3, 3, w, start, whole);
    FullBatch(start, whole);
    if acc.batches == BATCHES {
      var parities := acc.Flush(w, Batches(start, 2, 3));
      DueGroups(w, n, start, 2, 3);
      after := after + [ParityImage(parities)];
      BlockDone(w, n, first, blocks, 3);
      next := blocks + 1;
      acc.EmptyHolds(w, start + 9);
      assert DataImages(n, start + 9, 0) == [];
      assert after == Blocks(w, n, first, next) + [];
    }
  }

  lemma FullBatch(start: nat, whole: nat)
    ensures Batches(start, whole, 3) == Batches(start, whole + 1, 0)
  {}

  // The images of a finished block.
  lemma BlockDone(w: Shots, n: nat, first: nat, blocks: nat, k: nat)
    requires GoodShots(w) && first + 9 * blocks < n && k == ImageCount(n, first + 9 * blocks) && (blocks > 0 ==> first + 9 * (blocks - 1) < n)
    ensures var start := first + 9 * blocks;
            Blocks(w, n, first, blocks) + DataImages(n, start, k) + [ParityImage(Groups(w, n, start))] == Blocks(w, n, first, blocks + 1)
  {
    hide DataImages, Groups;
    var start := first + 9 * blocks;
    assert Blocks(w, n, first, blocks + 1) == Blocks(w, n, first, blocks) + Block(w, n, start);
    assert (Blocks(w, n, first, blocks) + DataImages(n, start, k)) + [ParityImage(Groups(w, n, start))]
        == Blocks(w, n, first, blocks) + (DataImages(n, start, k) + [ParityImage(Groups(w, n, start))]);
  }

  lemma MoreData(n: nat, start: nat, k: nat)
    requires start + 3 * k + 3 <= n
    ensures DataImages(n, start, k + 1) == DataImages(n, start, k) + [DataImage(start + 3 * k, 3)]
  {}

  // The last, short batch.
  method ShowShort(w: Shots, images: seq<Image>, acc: Accumulator, n: nat, ghost first: nat, ghost blocks: nat, used: nat)
    returns (all: seq<Image>)
    requires first <= n && Progress(w, images, acc, n, first, blocks, n, used)
    modifies acc, acc.first, acc.count, acc.codewords, acc.headers
    ensures var start := first + 9 * blocks; var whole := (n - start) / 3;
            && acc.batches == whole + (if used > 0 then 1 else 0) && acc.Channels(w, Batches(start, whole, used))
            && (n > start ==> all == Blocks(w, n, first, blocks) + DataImages(n, start, ImageCount(n, start)))
            && (n == start ==> all == Blocks(w, n, first, blocks))
  {
    hide Blocks, Block, Groups, GoodShots, Accumulator.Channels, Batches;
    ghost var start := first + 9 * blocks;
    ghost var whole := (n - start) / 3;
    all := images;
    if used > 0 {
      assert DataImages(n, start, whole + 1) == DataImages(n, start, whole) + [DataImage(n - used, used)];
      all := all + [DataImage(n - used, used)];
      assert all == Blocks(w, n, first, blocks) + DataImages(n, start, whole + 1);
      var ok := acc.Add(n - used, used, w, start, whole);
    }
  }

  // And the parities that are still due.
  method ShowRest(w: Shots, images: seq<Image>, acc: Accumulator, n: nat, ghost first: nat, ghost blocks: nat, used: nat)
    returns (all: seq<Image>)
    requires first <= n && Progress(w, images, acc, n, first, blocks, n, used)
    modifies acc, acc.first, acc.count, acc.codewords, acc.headers
    ensures all == AllImages(w, n, first)
  {
    hide Blocks, Block, Groups, GoodShots, AllDue, DataImages, AllImages, Accumulator.Channels, Batches;
    ghost var start := first + 9 * blocks;
    ghost var whole := (n - start) / 3;
    all := ShowShort(w, images, acc, n, first, blocks, used);
    if acc.batches > 0 {
      var parities := acc.Flush(w, Batches(start, whole, used));
      DueGroups(w, n, start, whole, used);
      all := all + [ParityImage(parities)];
      BlockDone(w, n, first, blocks, ImageCount(n, start));
      BlocksAll(w, n, first, blocks + 1);
      NoImages(w, n, first + 9 * (blocks + 1));
      assert Blocks(w, n, first, blocks + 1) + [] == Blocks(w, n, first, blocks + 1);
    } else {
      BlocksAll(w, n, first, blocks);
      NoImages(w, n, first + 9 * blocks);
      assert all == Blocks(w, n, first, blocks) + [];
    }
  }

  lemma NoImages(w: Shots, n: nat, first: nat)
    requires GoodShots(w) && first >= n
    ensures AllImages(w, n, first) == []
  {}

  // transmit_rgb3 of a whole window with /RE:3 and no chains.
  method RgbWindow(w: Shots, n: nat, firstData: nat) returns (images: seq<Image>)
    requires GoodShots(w)
    ensures images == AllImages(w, n, firstData)
  {
    hide Block, ImageSize, Batches, Accumulator.Channels, GoodShots;
    images := [];
    if firstData >= n { return; }
    var acc := new Accumulator(w);
    acc.EmptyHolds(w, firstData);
    var i, used := firstData, 0;
    ghost var blocks := 0;
    assert Blocks(w, n, firstData, 0) + DataImages(n, firstData, 0) == [];
    while i < n
      invariant i <= n && fresh(acc) && fresh(acc.first) && fresh(acc.count) && fresh(acc.codewords) && fresh(acc.headers)
      invariant Progress(w, images, acc, n, firstData, blocks, i, used)
    {
      used := used + 1;
      i := i + 1;
      if used == CHANNELS {
        images, blocks := ShowBatch(w, images, acc, n, firstData, blocks, i);
        used := 0;
      }
    }
    images := ShowRest(w, images, acc, n, firstData, blocks, used);
  }
}
