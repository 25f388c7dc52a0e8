// SessionStore: the receiver's files as maps, and the peeling loop
// recoverAvailable over chain, block and plane equations.

module SessionStore {
  import opened Gf2
  import opened Protocol
  import opened Repair

  // ----- one equation against the stored frames

  // A record an equation yields: its index, its place in the window, its bytes.
  datatype Recovery = Recovery(index: nat, windowIndex: nat, payload: Bytes)

  type Data = map<nat, Frame>
  type Planes = map<(nat, nat), Frame>

  function BlockStride(f: Frame): nat {
    if f.flags == FLAG_GROUP_XOR_WHITENED then Stride(f) else 1
  }

  // Distance of member i from the first.
  function Offset(f: Frame, i: nat): nat {
    i * BlockStride(f)
  }

  predicate ValidBlock(f: Frame) {
    && f.kind == BLOCK_XOR && 1 <= f.streamId <= MAX_WINDOW
    && if f.flags == FLAG_GROUP_XOR_WHITENED then
         f.streamId <= 3 && 1 <= Stride(f) <= MAX_WINDOW &&
         f.windowIndex + (f.streamId - 1) * Stride(f) < f.windowCount
       else
         f.flags == FLAG_WHITENED && f.streamOffset == 0 && f.windowIndex + f.streamId <= f.windowCount
  }

  // recoverEquation up to storing the result.
  function ChainRecovery(data: Data, chain: Frame): Option<Recovery> {
    if chain.kind != CHAIN_XOR || chain.windowIndex + 1 >= chain.windowCount then None
    else
      var left, right := chain.globalIndex, chain.globalIndex + 1;
      if (left in data) == (right in data) then None
      else
        var haveLeft := left in data;
        var r := RecoverChain(chain, data[if haveLeft then left else right].payload, haveLeft);
        if r.Err? then None
        else Some(Recovery(if haveLeft then right else left,
                           if haveLeft then chain.windowIndex + 1 else chain.windowIndex, r.value))
  }

  // Does the stored frame match its place in the block?
  predicate MemberMatches(known: Frame, parity: Frame, i: nat) {
    && known.kind == DATA && known.session == parity.session && known.window == parity.window
    && known.globalIndex == parity.globalIndex + Offset(parity, i)
    && known.windowIndex == parity.windowIndex + Offset(parity, i)
  }

  function Member(data: Data, parity: Frame, i: nat): Option<Bytes> {
    var index := parity.globalIndex + Offset(parity, i);
    if index in data then Some(data[index].payload) else None
  }

  function Members(data: Data, parity: Frame): (r: seq<Option<Bytes>>)
    ensures |r| == parity.streamId
  {
    seq(parity.streamId, i requires 0 <= i < parity.streamId => Member(data, parity, i))
  }

  predicate MembersMatch(data: Data, parity: Frame) {
    forall i :: 0 <= i < parity.streamId && Member(data, parity, i).Some? ==>
      MemberMatches(data[parity.globalIndex + Offset(parity, i)], parity, i)
  }

  // The positions at which p holds, in order.
  function Positions(p: seq<bool>): (r: seq<nat>)
    ensures forall k :: 0 <= k < |r| ==> r[k] < |p| && p[r[k]]
    ensures forall i :: 0 <= i < |p| && p[i] ==> i in r
  {
    if p == [] then []
    else
      var n := |p| - 1;
      if p[n] then Positions(p[..n]) + [n] else Positions(p[..n])
  }

  function Absent(members: seq<Option<Bytes>>): (p: seq<bool>)
    ensures |p| == |members|
    ensures forall i :: 0 <= i < |p| ==> p[i] == members[i].None?
  {
    seq(|members|, i requires 0 <= i < |members| => members[i].None?)
  }

  function Missing(members: seq<Option<Bytes>>): (r: seq<nat>)
    ensures forall k :: 0 <= k < |r| ==> r[k] < |members| && members[r[k]].None?
  {
    Positions(Absent(members))
  }

  function BlockRecovery(data: Data, parity: Frame): Option<Recovery> {
    if !ValidBlock(parity) || !MembersMatch(data, parity) then None
    else
      var members := Members(data, parity);
      var missing := Missing(members);
      if |missing| != 1 then None
      else
        var r := RecoverBlock(parity, members, missing[0]);
        if r.Err? then None
        else Some(Recovery(parity.globalIndex + Offset(parity, missing[0]),
                           parity.windowIndex + Offset(parity, missing[0]), r.value))
  }

  const BASES: seq<nat> := [1, 2, 4, 8]

  predicate PlaneParity(f: Frame) {
    && f.kind == PLANE_CODED
    && ((f.globalIndex == 7 && f.streamOffset == 3 && f.flags == FLAG_PLANE_WHITENED) ||
        (f.globalIndex == 15 && f.streamOffset == 4 && f.flags == 0))
    && f.windowIndex + f.streamOffset <= f.windowCount
  }

  function PlaneMembers(planes: Planes, parity: Frame): (r: seq<Option<Bytes>>)
    requires PlaneParity(parity)
    ensures |r| == parity.streamOffset
  {
    seq(parity.streamOffset, i requires 0 <= i < parity.streamOffset =>
      if (parity.streamId, BASES[i]) in planes then Some(planes[(parity.streamId, BASES[i])].payload) else None)
  }

  predicate PlanesMatch(planes: Planes, parity: Frame)
    requires PlaneParity(parity)
  {
    forall i :: 0 <= i < parity.streamOffset && (parity.streamId, BASES[i]) in planes ==>
      var k := planes[(parity.streamId, BASES[i])];
      && k.kind == PLANE_CODED && k.flags == FLAG_PLANE_WHITENED && k.session == parity.session
      && k.window == parity.window && k.streamId == parity.streamId && k.streamOffset == parity.streamOffset
      && k.globalIndex == BASES[i] && |k.payload| == |parity.payload|
  }

  function PlaneRecovery(planes: Planes, parity: Frame): Option<Recovery> {
    if !PlaneParity(parity) || !PlanesMatch(planes, parity) then None
    else
      var members := PlaneMembers(planes, parity);
      var missing := Missing(members);
      if |missing| != 1 then None
      else
        var plain := Trim(Peeled(parity.payload, members, |members|));
        if plain.Err? || ParseRecord(plain.value).Err? then None
        else Some(Recovery(parity.streamId + missing[0], parity.windowIndex + missing[0], plain.value))
  }

  // The DATA frame storeRecovered builds for a recovered record; None stands
  // for the exceptions on the way.
  function Rebuilt(eq: Frame, r: Recovery): Option<Frame> {
    var p := ParseRecord(r.payload);
    if p.Err? || (p.value.kind == FILE_DATA && |p.value.body| < 4) then None
    else
      var rec := p.value;
      var sid := if rec.kind == FILE_BEGIN || rec.kind == FILE_DATA || rec.kind == FILE_END then rec.fileId else 0;
      var off := if rec.kind == FILE_DATA then Get32(rec.body[..4]) else 0;
      var f := Frame(DATA, FLAG_WHITENED, eq.session, eq.window, r.index % 0x1_0000_0000, r.windowIndex % 0x1_0000,
                     eq.windowCount, sid, off, r.payload);
      if Acceptable(f) then Some(f) else None
  }

  // ----- what an equation wants, given only which records are present

  datatype Equations = Equations(xors: Data, parities: Data, planes: Planes)

  // The single position at which p holds, if there is exactly one.
  function Only(p: seq<bool>): (r: Option<nat>)
    ensures r.Some? ==> r.value < |p| && p[r.value]
  {
    var m := Positions(p);
    if |m| == 1 then Some(m[0]) else None
  }

  lemma {:induction false} PositionsOfOne(p: seq<bool>, m: nat)
    requires forall i :: 0 <= i < |p| ==> p[i] == (i == m)
    ensures Positions(p) == if m < |p| then [m] else []
  {
    if p != [] {
      PositionsOfOne(p[..|p| - 1], m);
    }
  }

  lemma OnlyUnique(p: seq<bool>, m: nat)
    ensures Only(p) == Some(m) <==> m < |p| && forall i :: 0 <= i < |p| ==> p[i] == (i == m)
  {
    if m < |p| && forall i :: 0 <= i < |p| ==> p[i] == (i == m) {
      PositionsOfOne(p, m);
    }
  }

  function ChainWants(chain: Frame, known: set<nat>): Option<nat> {
    var left, right := chain.globalIndex, chain.globalIndex + 1;
    if chain.kind != CHAIN_XOR || chain.windowIndex + 1 >= chain.windowCount then None
    else if (left in known) == (right in known) then None
    else Some(if left in known then right else left)
  }

  function BlockIndex(parity: Frame, i: nat): nat {
    parity.globalIndex + Offset(parity, i)
  }

  function BlockAbsent(parity: Frame, known: set<nat>): (p: seq<bool>)
    ensures |p| == parity.streamId
    ensures forall i :: 0 <= i < |p| ==> p[i] == (BlockIndex(parity, i) !in known)
  {
    seq(parity.streamId, i requires 0 <= i < parity.streamId => BlockIndex(parity, i) !in known)
  }

  function BlockWants(parity: Frame, known: set<nat>): Option<nat> {
    if !ValidBlock(parity) then None
    else
      match Only(BlockAbsent(parity, known))
      case None => None
      case Some(m) => Some(BlockIndex(parity, m))
  }

  // Plane equations look at the stored planes, not at the stored records.
  function PlaneWants(parity: Frame, planes: Planes): Option<nat> {
    if !PlaneParity(parity) then None
    else
      match Only(Absent(PlaneMembers(planes, parity)))
      case None => None
      case Some(m) => Some(parity.streamId + m)
  }

  // No equation has a record left to give.
  ghost predicate Closed(e: Equations, known: set<nat>) {
    && (forall g :: g in e.xors ==> ChainWants(e.xors[g], known).None?)
    && (forall g :: g in e.parities ==> BlockWants(e.parities[g], known).None?)
    && (forall k :: k in e.planes && PlaneWants(e.planes[k], e.planes).Some? ==>
          PlaneWants(e.planes[k], e.planes).value in known)
  }

  // A closed set that contains what an equation works from contains what it
  // yields.
  lemma ChainInClosed(e: Equations, g: nat, known: set<nat>, all: set<nat>)
    requires Closed(e, all) && known <= all && g in e.xors && ChainWants(e.xors[g], known).Some?
    ensures ChainWants(e.xors[g], known).value in all
  {
    assert ChainWants(e.xors[g], all).None?;
  }

  lemma BlockInClosed(e: Equations, g: nat, known: set<nat>, all: set<nat>)
    requires Closed(e, all) && known <= all && g in e.parities && BlockWants(e.parities[g], known).Some?
    ensures BlockWants(e.parities[g], known).value in all
  {
    hide Only, ValidBlock, BlockIndex;
    var f := e.parities[g];
    var p, q := BlockAbsent(f, known), BlockAbsent(f, all);
    var m := Only(p).value;
    OnlyUnique(p, m);
    if BlockIndex(f, m) !in all {
      forall i | 0 <= i < |q| ensures q[i] == (i == m) {}
      OnlyUnique(q, m);
    }
  }

  // ----- the true transfer behind the received frames

  // Records by index, where each sits, and the plane payloads that carry them.
  datatype Truth = Truth(session: nat, payload: nat -> Bytes, window: nat -> nat, windowIndex: nat -> nat,
                         width: nat -> nat, plane: (nat, nat) -> Bytes)

  ghost predicate TrueRecord(t: Truth, i: nat) {
    var p := ParseRecord(t.payload(i));
    && i < 0x1_0000_0000 && |t.payload(i)| < 0x1_0000 && p.Ok?
    && (p.value.kind == FILE_DATA ==> |p.value.body| >= 4)
  }

  // A member of an equation sits where the equation says.
  ghost predicate Placed(t: Truth, f: Frame, i: nat, windowIndex: nat) {
    TrueRecord(t, i) && t.window(i) == f.window && t.windowIndex(i) == windowIndex
  }

  ghost predicate TrueData(t: Truth, i: nat, f: Frame) {
    && f.kind == DATA && f.session == t.session && f.globalIndex == i
    && Placed(t, f, i, f.windowIndex) && f.payload == t.payload(i)
  }

  ghost predicate TrueChain(t: Truth, f: Frame) {
    var g := f.globalIndex;
    && f.kind == CHAIN_XOR && f.session == t.session
    && Placed(t, f, g, f.windowIndex) && Placed(t, f, g + 1, f.windowIndex + 1)
    && f.streamId == |t.payload(g)| * 0x1_0000 + |t.payload(g + 1)|
    && f.payload == Equation([t.payload(g), t.payload(g + 1)])
  }

  ghost function BlockPayloads(t: Truth, f: Frame): (r: seq<Bytes>)
    ensures |r| == f.streamId
    ensures forall i :: 0 <= i < |r| ==> r[i] == t.payload(BlockIndex(f, i))
  {
    seq(f.streamId, i requires 0 <= i < f.streamId => t.payload(BlockIndex(f, i)))
  }

  ghost predicate TrueBlock(t: Truth, f: Frame) {
    && ValidBlock(f) && f.session == t.session
    && (forall i :: 0 <= i < f.streamId ==> Placed(t, f, BlockIndex(f, i), f.windowIndex + Offset(f, i)))
    && f.payload == Equation(BlockPayloads(t, f))
  }

  ghost function PlanePayloads(t: Truth, f: Frame): (r: seq<Bytes>)
    ensures |r| == f.streamOffset
    ensures forall i :: 0 <= i < |r| ==> r[i] == t.plane(f.streamId, i)
  {
    seq(f.streamOffset, i requires 0 <= i < f.streamOffset => t.plane(f.streamId, i))
  }

  // Member i of a plane group: its padded payload holds the record of its place.
  ghost predicate TrueMember(t: Truth, f: Frame, i: nat) {
    && Placed(t, f, f.streamId + i, f.windowIndex + i)
    && Trim(t.plane(f.streamId, i)) == Ok(t.payload(f.streamId + i))
  }

  ghost predicate TruePlane(t: Truth, group: nat, coefficient: nat, f: Frame) {
    && f.kind == PLANE_CODED && f.session == t.session && f.streamId == group && f.globalIndex == coefficient
    && f.streamOffset == t.width(group) && 3 <= f.streamOffset <= 4 && f.window == t.window(group)
    && (forall i :: 0 <= i < f.streamOffset ==> TrueMember(t, f, i) && |t.plane(group, i)| == |f.payload|)
    && (forall i :: 0 <= i < f.streamOffset && coefficient == BASES[i] ==>
          f.flags == FLAG_PLANE_WHITENED && f.payload == t.plane(group, i))
    && (PlaneParity(f) ==> f.payload == XorAll(PlanePayloads(t, f), |f.payload|))
  }

  ghost predicate TrueStore(t: Truth, data: Data, e: Equations) {
    && 0 < t.session < 0x1_0000_0000
    && (forall i :: i in data ==> TrueData(t, i, data[i]))
    && (forall g :: g in e.xors ==> e.xors[g].globalIndex == g && TrueChain(t, e.xors[g]))
    && (forall g :: g in e.parities ==> e.parities[g].globalIndex == g && TrueBlock(t, e.parities[g]))
    && (forall k :: k in e.planes ==> TruePlane(t, k.0, k.1, e.planes[k]))
  }

  // What a sound equation yields is the true record in its true place.
  ghost predicate Yields(t: Truth, f: Frame, r: Option<Recovery>, want: Option<nat>) {
    match want
    case None => r.None?
    case Some(i) => r == Some(Recovery(i, t.windowIndex(i), t.payload(i))) && Placed(t, f, i, t.windowIndex(i))
  }

  lemma ChainYields(t: Truth, data: Data, f: Frame)
    requires TrueChain(t, f) && forall i :: i in data ==> TrueData(t, i, data[i])
    ensures Yields(t, f, ChainRecovery(data, f), ChainWants(f, data.Keys))
  {
    hide RecoverChain, Equation, ParseRecord;
    var g := f.globalIndex;
    ChainRepairs(f, t.payload(g), t.payload(g + 1));
  }

  lemma MembersOfTruth(t: Truth, data: Data, f: Frame, m: nat)
    requires TrueBlock(t, f) && forall i :: i in data ==> TrueData(t, i, data[i])
    requires Only(BlockAbsent(f, data.Keys)) == Some(m)
    ensures m < f.streamId && Members(data, f) == MembersBut(BlockPayloads(t, f), m)
  {
    hide Only, ValidBlock, ParseRecord, Equation, BlockIndex;
    OnlyUnique(BlockAbsent(f, data.Keys), m);
    var x, y := Members(data, f), MembersBut(BlockPayloads(t, f), m);
    forall i | 0 <= i < |x| ensures x[i] == y[i] {
      MemberAt(data, f, i);
      assert BlockAbsent(f, data.Keys)[i] == (i == m);
    }
  }

  lemma MemberAt(data: Data, f: Frame, i: nat)
    requires i < f.streamId
    ensures Members(data, f)[i] ==
              if BlockIndex(f, i) in data then Some(data[BlockIndex(f, i)].payload) else None
  {}

  // Absent members of the stored frames are the absent indexes.
  lemma AbsentMembers(data: Data, f: Frame)
    ensures Absent(Members(data, f)) == BlockAbsent(f, data.Keys)
  {
    hide BlockIndex;
    var p, q := Absent(Members(data, f)), BlockAbsent(f, data.Keys);
    forall i | 0 <= i < |p| ensures p[i] == q[i] {
      MemberAt(data, f, i);
    }
  }

  lemma BlockMatches(t: Truth, data: Data, f: Frame)
    requires TrueBlock(t, f) && forall i :: i in data ==> TrueData(t, i, data[i])
    ensures MembersMatch(data, f)
  {
    hide ValidBlock, ParseRecord, Equation, Offset;
  }

  lemma BlockFacts(t: Truth, f: Frame)
    requires TrueBlock(t, f)
    ensures ValidBlock(f) && f.payload == Equation(BlockPayloads(t, f))
    ensures forall i :: 0 <= i < f.streamId ==> Placed(t, f, BlockIndex(f, i), f.windowIndex + Offset(f, i))
    ensures AllRecords(BlockPayloads(t, f))
  {
    hide ValidBlock, ParseRecord, Equation, Offset;
  }

  lemma BlockRecoveryDef(data: Data, f: Frame)
    requires ValidBlock(f) && MembersMatch(data, f)
    ensures var members := Members(data, f);
            var want := Only(Absent(members));
            && (want.None? ==> BlockRecovery(data, f).None?)
            && (want.Some? && RecoverBlock(f, members, want.value).Ok? ==>
                  BlockRecovery(data, f) == Some(Recovery(BlockIndex(f, want.value), f.windowIndex + Offset(f, want.value),
                                                          RecoverBlock(f, members, want.value).value)))
  {
    hide RecoverBlock, ValidBlock, MembersMatch, Positions, Offset;
  }

  lemma BlockYields(t: Truth, data: Data, f: Frame)
    requires TrueBlock(t, f) && forall i :: i in data ==> TrueData(t, i, data[i])
    ensures Yields(t, f, BlockRecovery(data, f), BlockWants(f, data.Keys))
  {
    hide RecoverBlock, BlockRecovery, Equation, ParseRecord, Only, ValidBlock, Offset, BlockIndex, TrueRecord,
         MembersMatch, AllRecords, MemberMatches, BlockArguments;
    AbsentMembers(data, f);
    BlockMatches(t, data, f);
    BlockFacts(t, f);
    BlockRecoveryDef(data, f);
    var want := Only(BlockAbsent(f, data.Keys));
    if want.Some? {
      var m := want.value;
      MembersOfTruth(t, data, f, m);
      BlockHeader(f, MembersBut(BlockPayloads(t, f), m), m);
      BlockRepairs(f, BlockPayloads(t, f), m);
    }
  }

  lemma BlockHeader(f: Frame, members: seq<Option<Bytes>>, m: nat)
    requires ValidBlock(f) && |members| == f.streamId && m < |members| && members[m].None?
    ensures BlockArguments(f, members, m)
  {}

  lemma PlaneMatches(t: Truth, planes: Planes, f: Frame)
    requires TruePlane(t, f.streamId, f.globalIndex, f) && PlaneParity(f)
    requires forall k :: k in planes ==> TruePlane(t, k.0, k.1, planes[k])
    ensures PlanesMatch(planes, f)
  {
    hide Trim, XorAll, TrueRecord;
  }

  lemma PlaneMembersOfTruth(t: Truth, planes: Planes, f: Frame, m: nat)
    requires TruePlane(t, f.streamId, f.globalIndex, f) && PlaneParity(f)
    requires forall k :: k in planes ==> TruePlane(t, k.0, k.1, planes[k])
    requires Only(Absent(PlaneMembers(planes, f))) == Some(m)
    ensures m < f.streamOffset && PlaneMembers(planes, f) == MembersBut(PlanePayloads(t, f), m)
  {
    hide Trim, XorAll, TrueRecord, Only;
    OnlyUnique(Absent(PlaneMembers(planes, f)), m);
    var x, y := PlaneMembers(planes, f), MembersBut(PlanePayloads(t, f), m);
    forall i | 0 <= i < |x| ensures x[i] == y[i] {
      assert Absent(x)[i] == (i == m);
    }
  }

  lemma PlaneRecoveryDef(planes: Planes, f: Frame)
    requires PlaneParity(f) && PlanesMatch(planes, f)
    ensures var members := PlaneMembers(planes, f);
            var want := Only(Absent(members));
            && (want.None? ==> PlaneRecovery(planes, f).None?)
            && (want.Some? ==>
                  var p := Trim(Peeled(f.payload, members, |members|));
                  p.Ok? && ParseRecord(p.value).Ok? ==>
                    PlaneRecovery(planes, f) == Some(Recovery(f.streamId + want.value, f.windowIndex + want.value, p.value)))
  {
    hide Peeled, Trim, ParseRecord, Positions, Absent;
  }

  lemma PlaneFacts(t: Truth, f: Frame, m: nat)
    requires TruePlane(t, f.streamId, f.globalIndex, f) && PlaneParity(f) && m < f.streamOffset
    ensures f.payload == XorAll(PlanePayloads(t, f), |f.payload|)
    ensures forall i :: 0 <= i < |PlanePayloads(t, f)| ==> |PlanePayloads(t, f)[i]| == |f.payload|
    ensures Placed(t, f, f.streamId + m, f.windowIndex + m)
    ensures Trim(PlanePayloads(t, f)[m]) == Ok(t.payload(f.streamId + m))
  {
    hide Trim, XorAll, TrueRecord;
    assert TrueMember(t, f, m);
    assert PlanePayloads(t, f)[m] == t.plane(f.streamId, m);
  }

  lemma PlaneYields(t: Truth, planes: Planes, f: Frame)
    requires TruePlane(t, f.streamId, f.globalIndex, f)
    requires forall k :: k in planes ==> TruePlane(t, k.0, k.1, planes[k])
    ensures Yields(t, f, PlaneRecovery(planes, f), PlaneWants(f, planes))
  {
    hide Peeled, Trim, XorAll, Only, PlaneParity, TruePlane, PlanesMatch, PlaneMembers, PlaneRecovery, ParseRecord,
         Absent, Placed, MembersBut, PlanePayloads;
    if PlaneParity(f) {
      PlaneMatches(t, planes, f);
      PlaneRecoveryDef(planes, f);
      var want := Only(Absent(PlaneMembers(planes, f)));
      if want.Some? {
        var m := want.value;
        PlaneMembersOfTruth(t, planes, f, m);
        PlaneFacts(t, f, m);
        PeeledPlane(f.payload, PlanePayloads(t, f), m);
        PlacedRecord(t, f, f.streamId + m, f.windowIndex + m);
      }
    } else {
      NotParity(planes, f);
    }
  }

  lemma NotParity(planes: Planes, f: Frame)
    requires !PlaneParity(f)
    ensures PlaneRecovery(planes, f).None? && PlaneWants(f, planes).None?
  {}

  lemma PlacedRecord(t: Truth, f: Frame, i: nat, w: nat)
    requires Placed(t, f, i, w)
    ensures ParseRecord(t.payload(i)).Ok? && t.windowIndex(i) == w
  {
    hide ParseRecord;
  }

  // storeRecovered never throws on a true record, and what it writes is true.
  lemma RebuiltTrue(t: Truth, f: Frame, i: nat)
    requires 0 < t.session < 0x1_0000_0000 && f.session == t.session
    requires Placed(t, f, i, t.windowIndex(i)) && t.windowIndex(i) < 0x1_0000
    ensures var r := Rebuilt(f, Recovery(i, t.windowIndex(i), t.payload(i)));
            r.Some? && TrueData(t, i, r.value) && r.value.payload == t.payload(i)
  {
    hide ParseRecord;
    WhitenedAcceptable();
  }

  lemma WhitenedAcceptable()
    ensures !Has(FLAG_WHITENED, FLAG_GROUP_XOR_WHITENED) && !Has(FLAG_WHITENED, FLAG_PLANE_WHITENED)
    ensures FLAG_WHITENED & UNKNOWN_FLAGS == 0 && WhiteningModes(FLAG_WHITENED) == 1
  {}

  // ----- the files of one session, and one attempt on one equation file

  datatype Dir = Dir(data: Data, eqs: Equations)

  const EMPTY: Dir := Dir(map[], Equations(map[], map[], map[]))

  datatype Key = Xor(g: nat) | Parity(g: nat) | Plane(group: nat, coefficient: nat)

  function XorKeys(e: Equations): set<Key> { set g | g in e.xors :: Xor(g) }
  function ParityKeys(e: Equations): set<Key> { set g | g in e.parities :: Parity(g) }
  function PlaneKeys(e: Equations): set<Key> { set k | k in e.planes :: Plane(k.0, k.1) }

  predicate HasKey(e: Equations, k: Key) {
    match k
    case Xor(g) => g in e.xors
    case Parity(g) => g in e.parities
    case Plane(g, c) => (g, c) in e.planes
  }

  function FrameOf(e: Equations, k: Key): Frame
    requires HasKey(e, k)
  {
    match k
    case Xor(g) => e.xors[g]
    case Parity(g) => e.parities[g]
    case Plane(g, c) => e.planes[(g, c)]
  }

  function RecoveryOf(d: Dir, k: Key): Option<Recovery>
    requires HasKey(d.eqs, k)
  {
    match k
    case Xor(g) => ChainRecovery(d.data, d.eqs.xors[g])
    case Parity(g) => BlockRecovery(d.data, d.eqs.parities[g])
    case Plane(g, c) => PlaneRecovery(d.eqs.planes, d.eqs.planes[(g, c)])
  }

  function WantOf(d: Dir, k: Key): Option<nat>
    requires HasKey(d.eqs, k)
  {
    match k
    case Xor(g) => ChainWants(d.eqs.xors[g], d.data.Keys)
    case Parity(g) => BlockWants(d.eqs.parities[g], d.data.Keys)
    case Plane(g, c) => PlaneWants(d.eqs.planes[(g, c)], d.eqs.planes)
  }

  // The frame an attempt would add, if it adds one.
  function Addition(d: Dir, k: Key): Option<(nat, Frame)>
    requires HasKey(d.eqs, k)
  {
    match RecoveryOf(d, k)
    case None => None
    case Some(r) =>
      if r.index in d.data then None
      else match Rebuilt(FrameOf(d.eqs, k), r) case None => None case Some(f) => Some((r.index, f))
  }

  // Every equation has been tried and none adds anything.
  ghost predicate Exhausted(d: Dir) {
    forall k :: HasKey(d.eqs, k) ==> Addition(d, k).None?
  }

  ghost predicate TrueDir(t: Truth, d: Dir) {
    TrueStore(t, d.data, d.eqs)
  }

  // d is contained in every closed set around the records of `start`.
  ghost predicate Least(start: set<nat>, d: Dir) {
    start <= d.data.Keys && forall all :: start <= all && Closed(d.eqs, all) ==> d.data.Keys <= all
  }

  lemma SoundYield(t: Truth, d: Dir, k: Key)
    requires TrueDir(t, d) && HasKey(d.eqs, k)
    ensures FrameOf(d.eqs, k).session == t.session
    ensures Yields(t, FrameOf(d.eqs, k), RecoveryOf(d, k), WantOf(d, k))
  {
    hide Yields, ChainRecovery, BlockRecovery, PlaneRecovery, ChainWants, BlockWants, PlaneWants, TrueData;
    match k
    case Xor(g) => ChainYields(t, d.data, d.eqs.xors[g]);
    case Parity(g) => BlockYields(t, d.data, d.eqs.parities[g]);
    case Plane(g, c) => PlaneYields(t, d.eqs.planes, d.eqs.planes[(g, c)]);
  }

  // In a sound store an attempt adds a record exactly when its equation wants
  // one that is not there, and what it adds is true.
  lemma SoundAddition(t: Truth, d: Dir, k: Key)
    requires TrueDir(t, d) && HasKey(d.eqs, k)
    ensures var a, w := Addition(d, k), WantOf(d, k);
            && (a.Some? <==> w.Some? && w.value !in d.data)
            && (a.Some? ==> a.value.0 == w.value && TrueData(t, a.value.0, a.value.1))
  {
    hide RecoveryOf, WantOf, Rebuilt, TrueData, Placed;
    SoundYield(t, d, k);
    var w := WantOf(d, k);
    if w.Some? {
      WindowIndexRange(t, d, k, w.value);
      RebuiltTrue(t, FrameOf(d.eqs, k), w.value);
    }
  }

  // Window positions fit the 16-bit header field: the equation's own window
  // count bounds them.
  lemma WindowIndexRange(t: Truth, d: Dir, k: Key, i: nat)
    requires TrueDir(t, d) && HasKey(d.eqs, k) && WantOf(d, k) == Some(i)
    ensures t.windowIndex(i) < 0x1_0000
    ensures 0 < t.session < 0x1_0000_0000
  {
    hide Only, TrueRecord, BlockPayloads, Equation, Trim;
    var f := FrameOf(d.eqs, k);
    match k
    case Xor(g) => {}
    case Parity(g) => BlockWindow(t, f, i, d.data.Keys);
    case Plane(g, c) => PlaneWindow(t, f, i, d.eqs.planes);
  }

  lemma BlockWindow(t: Truth, f: Frame, i: nat, known: set<nat>)
    requires TrueBlock(t, f) && BlockWants(f, known) == Some(i)
    ensures t.windowIndex(i) < 0x1_0000
  {
    hide Only, TrueRecord, Equation;
    var m := Only(BlockAbsent(f, known)).value;
    assert Placed(t, f, BlockIndex(f, m), f.windowIndex + Offset(f, m));
    OffsetBound(f, m);
  }

  lemma OffsetBound(f: Frame, m: nat)
    requires ValidBlock(f) && m < f.streamId
    ensures f.windowIndex + Offset(f, m) < f.windowCount
  {
    var s := BlockStride(f);
    assert m * s <= (f.streamId - 1) * s;
  }

  lemma PlaneWindow(t: Truth, f: Frame, i: nat, planes: Planes)
    requires TruePlane(t, f.streamId, f.globalIndex, f) && PlaneWants(f, planes) == Some(i)
    ensures t.windowIndex(i) < 0x1_0000
  {
    hide Only, TrueRecord, TruePlane, Trim, XorAll, PlanePayloads, PlaneMembers, Absent;
    PlaneFacts(t, f, Only(Absent(PlaneMembers(planes, f))).value);
  }

  // Adding one wanted record keeps the store sound and least.
  lemma AdditionKeeps(t: Truth, start: set<nat>, d: Dir, k: Key)
    requires TrueDir(t, d) && Least(start, d) && HasKey(d.eqs, k) && Addition(d, k).Some?
    ensures var a := Addition(d, k).value;
            var after := d.(data := d.data[a.0 := a.1]);
            TrueDir(t, after) && Least(start, after)
  {
    hide Addition, TrueData, ChainWants, BlockWants, PlaneWants, TrueChain, TrueBlock, TruePlane;
    SoundAddition(t, d, k);
    var a := Addition(d, k).value;
    var after := d.(data := d.data[a.0 := a.1]);
    forall all | start <= all && Closed(d.eqs, all) ensures after.data.Keys <= all {
      match k
      case Xor(g) => ChainInClosed(d.eqs, g, d.data.Keys, all);
      case Parity(g) => BlockInClosed(d.eqs, g, d.data.Keys, all);
      case Plane(g, c) => assert (g, c) in d.eqs.planes;
    }
  }

  // When nothing more can be added to a sound store, it is closed: no chain or
  // block equation has exactly one member missing.
  lemma ExhaustedIsClosed(t: Truth, d: Dir)
    requires TrueDir(t, d) && Exhausted(d)
    ensures Closed(d.eqs, d.data.Keys)
  {
    hide Addition, TrueDir, Only, ValidBlock, PlaneParity;
    forall g | g in d.eqs.xors ensures ChainWants(d.eqs.xors[g], d.data.Keys).None? {
      SoundAddition(t, d, Xor(g));
      assert HasKey(d.eqs, Xor(g));
      ChainWantsNew(d.eqs.xors[g], d.data.Keys);
    }
    forall g | g in d.eqs.parities ensures BlockWants(d.eqs.parities[g], d.data.Keys).None? {
      SoundAddition(t, d, Parity(g));
      assert HasKey(d.eqs, Parity(g));
      BlockWantsNew(d.eqs.parities[g], d.data.Keys);
    }
    forall k | k in d.eqs.planes && PlaneWants(d.eqs.planes[k], d.eqs.planes).Some?
      ensures PlaneWants(d.eqs.planes[k], d.eqs.planes).value in d.data.Keys
    {
      SoundAddition(t, d, Plane(k.0, k.1));
      assert HasKey(d.eqs, Plane(k.0, k.1));
    }
  }

  lemma ChainWantsNew(f: Frame, known: set<nat>)
    ensures ChainWants(f, known).Some? ==> ChainWants(f, known).value !in known
  {}

  lemma BlockWantsNew(f: Frame, known: set<nat>)
    ensures BlockWants(f, known).Some? ==> BlockWants(f, known).value !in known
  {
    hide ValidBlock, BlockIndex, Only;
    OnlyHolds(BlockAbsent(f, known));
  }

  lemma OnlyHolds(p: seq<bool>)
    ensures Only(p).Some? ==> Only(p).value < |p| && p[Only(p).value]
  {}

  // ----- at rest, for any stored frames

  // An equation that lacks exactly one record.
  predicate Lacking(d: Dir, k: Key)
    requires HasKey(d.eqs, k)
  {
    WantOf(d, k).Some? && WantOf(d, k).value !in d.data
  }

  // Its solution is a record that can be written.
  predicate Solves(d: Dir, k: Key)
    requires HasKey(d.eqs, k)
  {
    match k
    case Xor(g) => ChainSolves(d.data, d.eqs.xors[g])
    case Parity(g) => BlockSolves(d.data, d.eqs.parities[g])
    case Plane(g, c) => PlaneSolves(d.eqs.planes, d.eqs.planes[(g, c)])
  }

  predicate ChainSolves(data: Data, f: Frame) {
    var left := f.globalIndex in data;
    var known := if left then f.globalIndex else f.globalIndex + 1;
    && known in data
    && var r := RecoverChain(f, data[known].payload, left);
       r.Ok? && Rebuilt(f, if left then Recovery(f.globalIndex + 1, f.windowIndex + 1, r.value)
                           else Recovery(f.globalIndex, f.windowIndex, r.value)).Some?
  }

  predicate BlockSolves(data: Data, f: Frame) {
    && MembersMatch(data, f) && Only(Absent(Members(data, f))).Some?
    && var m := Only(Absent(Members(data, f))).value;
       var r := RecoverBlock(f, Members(data, f), m);
       r.Ok? && Rebuilt(f, Recovery(BlockIndex(f, m), f.windowIndex + Offset(f, m), r.value)).Some?
  }

  predicate PlaneSolves(planes: Planes, f: Frame) {
    && PlaneParity(f) && PlanesMatch(planes, f) && Only(Absent(PlaneMembers(planes, f))).Some?
    && var m := Only(Absent(PlaneMembers(planes, f))).value;
       var r := Trim(Peeled(f.payload, PlaneMembers(planes, f), f.streamOffset));
       r.Ok? && ParseRecord(r.value).Ok? && Rebuilt(f, Recovery(f.streamId + m, f.windowIndex + m, r.value)).Some?
  }

  // An attempt adds a record exactly when its equation lacks one and solves it.
  lemma AdditionExactly(d: Dir, k: Key)
    requires HasKey(d.eqs, k)
    ensures Addition(d, k).Some? <==> Lacking(d, k) && Solves(d, k)
  {
    hide RecoverChain, RecoverBlock, Rebuilt, MembersMatch, PlanesMatch, ValidBlock, Peeled, Trim, ParseRecord, Positions, Absent, BlockIndex, Offset,
         Members, PlaneMembers, PlaneParity;
    match k
    case Xor(g) => {}
    case Parity(g) => BlockExactly(d.data, d.eqs.parities[g]);
    case Plane(g, c) => {}
  }

  lemma BlockExactly(data: Data, f: Frame)
    ensures BlockRecovery(data, f).Some? ==> BlockWants(f, data.Keys).Some? && BlockRecovery(data, f).value.index == BlockWants(f, data.Keys).value
    ensures BlockRecovery(data, f).Some? <==>
              ValidBlock(f) && MembersMatch(data, f) && Only(Absent(Members(data, f))).Some? &&
              RecoverBlock(f, Members(data, f), Only(Absent(Members(data, f))).value).Ok?
    ensures BlockRecovery(data, f).Some? ==>
              var m := Only(Absent(Members(data, f))).value;
              BlockRecovery(data, f).value == Recovery(BlockIndex(f, m), f.windowIndex + Offset(f, m), RecoverBlock(f, Members(data, f), m).value)
    ensures BlockWants(f, data.Keys).Some? <==> ValidBlock(f) && Only(Absent(Members(data, f))).Some?
    ensures BlockWants(f, data.Keys).Some? ==> BlockWants(f, data.Keys).value == BlockIndex(f, Only(Absent(Members(data, f))).value)
  {
    hide RecoverBlock, MembersMatch, ValidBlock, Positions, Absent, Offset, Members;
    AbsentMembers(data, f);
  }

  // So a directory at rest is closed exactly when every equation that lacks one
  // record can be solved.
  lemma RestExactly(d: Dir)
    ensures Closed(d.eqs, d.data.Keys) <==> forall k :: HasKey(d.eqs, k) ==> !Lacking(d, k)
    ensures Exhausted(d) ==> (Closed(d.eqs, d.data.Keys) <==> forall k :: HasKey(d.eqs, k) && Lacking(d, k) ==> Solves(d, k))
  {
    hide Addition, Solves, ChainWants, BlockWants, PlaneWants;
    var e, known := d.eqs, d.data.Keys;
    if forall k :: HasKey(e, k) ==> !Lacking(d, k) {
      forall g | g in e.xors ensures ChainWants(e.xors[g], known).None? {
        assert HasKey(e, Xor(g)) && !Lacking(d, Xor(g));
        ChainWantsNew(e.xors[g], known);
      }
      forall g | g in e.parities ensures BlockWants(e.parities[g], known).None? {
        assert HasKey(e, Parity(g)) && !Lacking(d, Parity(g));
        BlockWantsNew(e.parities[g], known);
      }
      forall k | k in e.planes && PlaneWants(e.planes[k], e.planes).Some? ensures PlaneWants(e.planes[k], e.planes).value in known {
        assert HasKey(e, Plane(k.0, k.1)) && !Lacking(d, Plane(k.0, k.1));
      }
      assert Closed(e, known);
    }
    forall k | HasKey(e, k) ensures Addition(d, k).Some? <==> Lacking(d, k) && Solves(d, k) {
      AdditionExactly(d, k);
    }
  }

  // And one that cannot be solved: the chain frame carries its left record once
  // more, so the right one would be all zeros, which is no record.
  lemma InsolubleChain(left: Frame, chain: Frame, d: Dir)
    requires left.kind == DATA && ParseRecord(left.payload).Ok? && |left.payload| < 0x1_0000
    requires chain.kind == CHAIN_XOR && chain.globalIndex == left.globalIndex && chain.windowIndex + 1 < chain.windowCount
    requires chain.streamId == |left.payload| * 0x1_0000 + |left.payload| && chain.payload == left.payload
    requires d == Dir(map[left.globalIndex := left], Equations(map[left.globalIndex := chain], map[], map[]))
    ensures Exhausted(d) && !Closed(d.eqs, d.data.Keys)
    ensures ChainWants(chain, d.data.Keys) == Some(left.globalIndex + 1) && !ChainSolves(d.data, chain)
  {
    hide ParseRecord, Rebuilt;
    var p := left.payload;
    assert Pad(p, |p|) == p;
    XorSelf(p);
    assert Gf2.Xor(p, p)[..|p|] == Zeros(|p|);
    ZerosNoRecord(|p|);
    assert left.globalIndex in d.eqs.xors && ChainWants(d.eqs.xors[left.globalIndex], d.data.Keys).Some?;
    forall k | HasKey(d.eqs, k) ensures Addition(d, k).None? {
      assert k == Xor(left.globalIndex);
    }
  }

  lemma ZerosNoRecord(n: nat)
    ensures ParseRecord(Zeros(n)).Err?
  {
    if n >= RECORD_HEADER {
      assert Zeros(n)[..4][0] == 0 && RECORD_MAGIC[0] != 0;
    }
  }

  // Two closed least extensions of the same records hold the same records, so
  // the order in which the files are listed does not matter.
  lemma LeastIsUnique(start: set<nat>, d: Dir, e: Dir)
    requires d.eqs == e.eqs && Least(start, d) && Least(start, e)
    requires Closed(d.eqs, d.data.Keys) && Closed(e.eqs, e.data.Keys)
    ensures d.data.Keys == e.data.Keys
  {}

  // ----- termination: every addition comes from a fixed finite set

  function Yieldable(f: Frame): set<nat> {
    {f.globalIndex, f.globalIndex + 1} + (set i | 0 <= i < f.streamId :: BlockIndex(f, i)) +
    {f.streamId, f.streamId + 1, f.streamId + 2, f.streamId + 3}
  }

  function Keys(e: Equations): (r: set<Key>)
    ensures forall k :: k in r <==> HasKey(e, k)
  {
    XorKeys(e) + ParityKeys(e) + PlaneKeys(e)
  }

  ghost function Universe(e: Equations): set<nat> {
    set k, i | k in Keys(e) && i in Yieldable(FrameOf(e, k)) :: i
  }

  lemma ChainYieldable(data: Data, f: Frame)
    requires ChainRecovery(data, f).Some?
    ensures ChainRecovery(data, f).value.index in Yieldable(f)
  {
    hide RecoverChain;
  }

  lemma BlockYieldable(data: Data, f: Frame)
    requires BlockRecovery(data, f).Some?
    ensures BlockRecovery(data, f).value.index in Yieldable(f)
  {
    hide RecoverBlock, ValidBlock, MembersMatch, Positions;
    var m := Missing(Members(data, f))[0];
    assert m < f.streamId && BlockRecovery(data, f).value.index == BlockIndex(f, m);
  }

  lemma PlaneYieldable(planes: Planes, f: Frame)
    requires PlaneRecovery(planes, f).Some?
    ensures PlaneRecovery(planes, f).value.index in Yieldable(f)
  {
    hide Positions, PlanesMatch, Peeled, Trim, ParseRecord;
    var m := Missing(PlaneMembers(planes, f))[0];
    assert m < 4 && PlaneRecovery(planes, f).value.index == f.streamId + m;
  }

  lemma AdditionInUniverse(d: Dir, k: Key)
    requires HasKey(d.eqs, k) && Addition(d, k).Some?
    ensures Addition(d, k).value.0 in Universe(d.eqs) && Addition(d, k).value.0 !in d.data
  {
    hide ChainRecovery, BlockRecovery, PlaneRecovery, Rebuilt, Yieldable;
    var f, i := FrameOf(d.eqs, k), Addition(d, k).value.0;
    match k {
      case Xor(g) => ChainYieldable(d.data, f);
      case Parity(g) => BlockYieldable(d.data, f);
      case Plane(g, c) => PlaneYieldable(d.eqs.planes, f);
    }
    assert i in Yieldable(f);
    assert k in Keys(d.eqs);
  }

  // ----- the store itself

  datatype Outcome = STORED | DUPLICATE | INVALID | OTHER_SESSION | CALIBRATION | THROWN

  // What a stretch of recovery does to a directory: nothing stored is
  // overwritten or lost, and soundness and leastness survive.
  ghost predicate Recovers(before: Dir, after: Dir, t: Truth, start: set<nat>) {
    && after.eqs == before.eqs
    && Grown(before, after)
    && (TrueDir(t, before) && Least(start, before) ==> TrueDir(t, after) && Least(start, after))
  }

  class SessionStore {
    var active: nat
    var dirs: map<nat, Dir>

    // The directory of the active session.
    function Current(): Dir
      reads this
    {
      DirOf(active)
    }

    function DirOf(session: nat): Dir
      reads this
    {
      if session in dirs then dirs[session] else EMPTY
    }

    // One of the three listings of recoverAvailable: try every file once, in
    // whatever order the directory lists them.
    method TryAll(listing: set<Key>, ghost t: Truth, ghost start: set<nat>) returns (changed: bool)
      requires forall k :: k in listing ==> HasKey(Current().eqs, k)
      modifies this`dirs
      ensures forall s :: s != active ==> DirOf(s) == old(DirOf(s))
      ensures Recovers(old(Current()), Current(), t, start)
      ensures !changed ==> Current() == old(Current()) && forall k :: k in listing ==> Addition(Current(), k).None?
      ensures changed ==> Room(Current()) < old(Room(Current()))
    {
      hide Addition, TrueDir, Least, Room;
      changed := false;
      var todo := listing;
      while todo != {}
        invariant forall s :: s != active ==> DirOf(s) == old(DirOf(s))
        invariant todo <= listing
        invariant Recovers(old(Current()), Current(), t, start)
        invariant !changed ==> Current() == old(Current()) && forall k :: k in listing - todo ==> Addition(Current(), k).None?
        invariant changed ==> Room(Current()) < old(Room(Current()))
        decreases todo
      {
        var k :| k in todo;
        todo := todo - {k};
        var d := Current();
        var a := Addition(d, k);
        if a.Some? {
          RoomShrinks(d, k);
          if TrueDir(t, d) && Least(start, d) {
            AdditionKeeps(t, start, d, k);
          }
          dirs := dirs[active := d.(data := d.data[a.value.0 := a.value.1])];
          changed := true;
        }
      }
    }

    // One round: chain files, block files, plane files.
    method Round(ghost t: Truth, ghost start: set<nat>) returns (changed: bool)
      modifies this`dirs
      ensures forall s :: s != active ==> DirOf(s) == old(DirOf(s))
      ensures Recovers(old(Current()), Current(), t, start)
      ensures !changed ==> Current() == old(Current()) && Exhausted(Current())
      ensures changed ==> Room(Current()) < old(Room(Current()))
    {
      hide Addition, TrueDir, Least, Room, HasKey;
      var e := Current().eqs;
      KeyLists(e);
      var x := TryAll(XorKeys(e), t, start);
      var p := TryAll(ParityKeys(e), t, start);
      var q := TryAll(PlaneKeys(e), t, start);
      changed := x || p || q;
    }

    // recoverAvailable: rounds until one adds nothing.
    method RecoverAvailable(ghost t: Truth, ghost start: set<nat>)
      modifies this`dirs
      ensures forall s :: s != active ==> DirOf(s) == old(DirOf(s))
      ensures Recovers(old(Current()), Current(), t, start)
      ensures Exhausted(Current())
      ensures TrueDir(t, Current()) ==> Closed(Current().eqs, Current().data.Keys)
    {
      hide Exhausted, TrueDir, Least, Closed, Room;
      var changed := true;
      while changed
        invariant forall s :: s != active ==> DirOf(s) == old(DirOf(s))
        invariant Recovers(old(Current()), Current(), t, start)
        invariant !changed ==> Exhausted(Current())
        decreases Room(Current()), changed
      {
        changed := Round(t, start);
      }
      if TrueDir(t, Current()) {
        ExhaustedIsClosed(t, Current());
      }
    }

    method StoreRecovered(eq: Frame, r: Recovery) returns (stored: Outcome)
      modifies this`dirs
      ensures forall s :: s != active ==> DirOf(s) == old(DirOf(s))
      ensures var d := old(Current());
              match Rebuilt(eq, r)
              case None => stored == THROWN && Current() == d
              case Some(f) =>
                if r.index in d.data then
                  Current() == d && stored == if d.data[r.index].payload == r.payload then DUPLICATE else INVALID
                else stored == STORED && Current() == d.(data := d.data[r.index := f])
    {
      hide Rebuilt;
      var f := Rebuilt(eq, r);
      var d := Current();
      if f.None? {
        return THROWN;
      }
      if r.index in d.data {
        return if d.data[r.index].payload == r.payload then DUPLICATE else INVALID;
      }
      dirs := dirs[active := d.(data := d.data[r.index := f.value])];
      stored := STORED;
    }

    // What filing a frame does before recovery: None goes on to it.
    ghost predicate Files(before: Dir, f: Frame, t: Truth, end: Option<Outcome>)
      reads this
    {
      && Current() == Landed(before, f) && end == (if Verdict(before, f) == STORED then None else Some(Verdict(before, f)))
      && (active == t.session && TrueFrame(t, f) && TrueDir(t, before) ==> TrueDir(t, Current()))
    }

    method FilePlane(f: Frame, ghost t: Truth) returns (end: Option<Outcome>)
      requires active == f.session && f.kind == PLANE_CODED
      modifies this`dirs
      ensures forall s :: s != active ==> DirOf(s) == old(DirOf(s))
      ensures Files(old(Current()), f, t, end)
    {
      hide TrueFrame, TrueDir, ParseRecord, ValidPlane, Trim, Rebuilt;
      var d := Current();
      var basis := BasisOf(f.globalIndex);
      if !ValidPlane(f) || (basis.Some? && (Trim(f.payload).Err? || ParseRecord(Trim(f.payload).value).Err?)) {
        return Some(INVALID);
      }
      var k := (f.streamId, f.globalIndex);
      if k in d.eqs.planes {
        return Some(if d.eqs.planes[k] == f then DUPLICATE else INVALID);
      }
      dirs := dirs[active := d.(eqs := d.eqs.(planes := d.eqs.planes[k := f]))];
      StoredKeeps(t, d, f);
      if basis.Some? {
        var r := Recovery(f.streamId + basis.value, f.windowIndex + basis.value, Trim(f.payload).value);
        BasisKeeps(t, Current(), f, basis.value);
        var recovered := StoreRecovered(f, r);
        if recovered != STORED {
          return Some(recovered);
        }
      }
      end := None;
    }

    method FileOther(f: Frame, ghost t: Truth) returns (end: Option<Outcome>)
      requires active == f.session && (f.kind == DATA || f.kind == CHAIN_XOR || f.kind == BLOCK_XOR)
      modifies this`dirs
      ensures forall s :: s != active ==> DirOf(s) == old(DirOf(s))
      ensures Files(old(Current()), f, t, end)
    {
      hide TrueFrame, TrueDir, ValidBlock;
      var d := Current();
      if f.kind == CHAIN_XOR {
        if f.globalIndex in d.eqs.xors {
          return Some(if d.eqs.xors[f.globalIndex] == f then DUPLICATE else INVALID);
        }
        dirs := dirs[active := d.(eqs := d.eqs.(xors := d.eqs.xors[f.globalIndex := f]))];
      } else if f.kind == BLOCK_XOR {
        if !ValidBlock(f) {
          return Some(INVALID);
        }
        if f.globalIndex in d.eqs.parities {
          return Some(if d.eqs.parities[f.globalIndex] == f then DUPLICATE else INVALID);
        }
        dirs := dirs[active := d.(eqs := d.eqs.(parities := d.eqs.parities[f.globalIndex := f]))];
      } else {
        if f.globalIndex in d.data {
          return Some(if d.data[f.globalIndex].payload == f.payload then DUPLICATE else INVALID);
        }
        dirs := dirs[active := d.(data := d.data[f.globalIndex := f])];
      }
      StoredKeeps(t, d, f);
      end := None;
    }

    // accept after the session check: one frame of the active session.
    method Take(f: Frame, ghost t: Truth) returns (result: Outcome)
      requires active == f.session && f.kind != END_WINDOW && f.kind != CALIBRATION_KIND && 1 <= f.kind <= 6
      modifies this`dirs
      ensures forall s :: s != active ==> DirOf(s) == old(DirOf(s))
      ensures Settled(old(Current()), f, result, Current())
      ensures active == t.session && TrueFrame(t, f) && old(TrueDir(t, Current())) ==>
                TrueDir(t, Current()) && (result == STORED ==> Least(Landed(old(Current()), f).data.Keys, Current()))
    {
      hide TrueFrame, TrueDir, Least, Exhausted, Closed, Landed, Verdict;
      var end;
      GrownSelf();
      if f.kind == PLANE_CODED { end := FilePlane(f, t); } else { end := FileOther(f, t); }
      if end.Some? { return end.value; }
      LeastStart(Current());
      RecoverAvailable(t, Current().data.Keys);
      result := STORED;
    }

    // accept.  The ghost truth is any transfer the received frames may belong
    // to: its directory stays sound as long as its frames do.
    method Accept(raw: Bytes, ghost t: Truth) returns (result: Outcome)
      modifies this
      // what the frame must be, and which session it joins
      ensures result == CALIBRATION <==> ParseFrame(raw).Ok? && ParseFrame(raw).value.kind == 3
      ensures result == OTHER_SESSION <==> Readable(raw) && !old(Joins(ParseFrame(raw).value))
      ensures !Readable(raw) ==> result == CALIBRATION || result == INVALID
      ensures !Readable(raw) || !old(Joins(ParseFrame(raw).value)) ==> active == old(active) && dirs == old(dirs)
      // what becomes of a frame that joins
      ensures Readable(raw) && old(Joins(ParseFrame(raw).value)) ==>
                var f := ParseFrame(raw).value;
                && active == f.session && (forall s :: s != active ==> DirOf(s) == old(DirOf(s)))
                && (f.kind == 2 ==> result == STORED && dirs == old(dirs))
                && (f.kind != 2 ==> Settled(old(DirOf(f.session)), f, result, Current()))
                && (f.kind != END_WINDOW && (result == STORED || old(New(DirOf(f.session), f))) ==> HeldSame(Current(), f))
      // nothing is lost, and truth survives
      ensures forall s :: Kept(old(DirOf(s)), DirOf(s))
      ensures old(TrueDir(t, DirOf(t.session))) && (ParseFrame(raw).Ok? ==> TrueIfOurs(t, ParseFrame(raw).value)) ==>
                TrueDir(t, DirOf(t.session))
      // and no record is there that does not follow from the files
      ensures Readable(raw) && old(Joins(ParseFrame(raw).value)) && result == STORED ==>
                var f := ParseFrame(raw).value;
                f.session == t.session && f.kind != END_WINDOW && old(TrueDir(t, DirOf(t.session))) && TrueFrame(t, f) ==>
                  Least(old(Landed(DirOf(f.session), f)).data.Keys, Current())
    {
      hide Least, Landed, ParseFrame, ParseRecord, TrueDir, TrueFrame, Exhausted, IsSessionStart, Grown, Settled, Kept, New, HeldSame, Rebuilt, Carried;
      KeptSelf();
      var p := ParseFrame(raw);
      if p.Err? {
        return INVALID;
      }
      ParsedKind(raw);
      var f := p.value;
      if f.kind == CALIBRATION_KIND {
        return CALIBRATION;
      }
      if f.kind == DATA && ParseRecord(f.payload).Err? {
        return INVALID;
      }
      if active == 0 {
        if f.kind == END_WINDOW || !IsSessionStart(f) {
          return OTHER_SESSION;
        }
        active := f.session;
      }
      if active != f.session {
        if !(IsSessionStart(f) && Current().data == map[]) {
          return OTHER_SESSION;
        }
        active := f.session;
      }
      if f.kind == END_WINDOW {
        return STORED;
      }
      ghost var before := Current();
      result := Take(f, t);
      SettledKeeps(before, f, result, Current());
      StoredExactly(before, f, result, Current());
    }

    // The session check: the active session, a start when there is none, or a
    // start that replaces an empty one.
    predicate Joins(f: Frame)
      reads this
    {
      if active == 0 then f.kind != END_WINDOW && IsSessionStart(f)
      else active == f.session || (IsSessionStart(f) && Current().data == map[])
    }
  }

  // A frame that parses, and a record in it when it is a DATA frame.
  predicate Readable(raw: Bytes) {
    && ParseFrame(raw).Ok? && ParseFrame(raw).value.kind != CALIBRATION_KIND
    && (ParseFrame(raw).value.kind == DATA ==> ParseRecord(ParseFrame(raw).value.payload).Ok?)
  }

  // ----- what becomes of one frame

  // A basis frame that is filed brings its record with it.
  function Carried(f: Frame): Option<Recovery> {
    if f.kind != PLANE_CODED || BasisOf(f.globalIndex).None? || Trim(f.payload).Err? then None
    else Some(Recovery(f.streamId + BasisOf(f.globalIndex).value, f.windowIndex + BasisOf(f.globalIndex).value, Trim(f.payload).value))
  }

  predicate Fileable(f: Frame) {
    && (f.kind == BLOCK_XOR ==> ValidBlock(f))
    && (f.kind == PLANE_CODED ==> ValidPlane(f) && (BasisOf(f.globalIndex).Some? ==> Carried(f).Some? && ParseRecord(Carried(f).value.payload).Ok?))
  }

  // A file of its name is there already, and holds the same.
  predicate Held(d: Dir, f: Frame) {
    if f.kind == CHAIN_XOR then f.globalIndex in d.eqs.xors
    else if f.kind == BLOCK_XOR then f.globalIndex in d.eqs.parities
    else if f.kind == PLANE_CODED then (f.streamId, f.globalIndex) in d.eqs.planes
    else f.globalIndex in d.data
  }

  predicate HeldSame(d: Dir, f: Frame) {
    && Held(d, f)
    && if f.kind == CHAIN_XOR then d.eqs.xors[f.globalIndex] == f
       else if f.kind == BLOCK_XOR then d.eqs.parities[f.globalIndex] == f
       else if f.kind == PLANE_CODED then d.eqs.planes[(f.streamId, f.globalIndex)] == f
       else d.data[f.globalIndex].payload == f.payload
  }

  predicate New(d: Dir, f: Frame) {
    Fileable(f) && !Held(d, f)
  }

  function Verdict(d: Dir, f: Frame): Outcome {
    if !Fileable(f) then INVALID
    else if Held(d, f) then (if HeldSame(d, f) then DUPLICATE else INVALID)
    else if Carried(f).None? then STORED
    else
      var r := Carried(f).value;
      if Rebuilt(f, r).None? then THROWN
      else if r.index !in d.data then STORED
      else if d.data[r.index].payload == r.payload then DUPLICATE
      else INVALID
  }

  // The directory before recovery.
  function Landed(d: Dir, f: Frame): Dir {
    if !New(d, f) then d
    else if Carried(f).Some? && Verdict(d, f) == STORED then
      var e := Filed(d, f);
      e.(data := e.data[Carried(f).value.index := Rebuilt(f, Carried(f).value).value])
    else Filed(d, f)
  }

  // All of it: the outcome, the equation files, and the records, to which only
  // recovery adds, and that to the end.
  ghost predicate Settled(before: Dir, f: Frame, result: Outcome, after: Dir) {
    && result == Verdict(before, f) && after.eqs == Landed(before, f).eqs && Grown(Landed(before, f), after)
    && (result != STORED ==> after == Landed(before, f))
    && (result == STORED ==> Exhausted(after))
  }

  // No file is lost or changed.
  ghost predicate Kept(before: Dir, after: Dir) {
    && Grown(before, after)
    && (forall g :: g in before.eqs.xors ==> g in after.eqs.xors && after.eqs.xors[g] == before.eqs.xors[g])
    && (forall g :: g in before.eqs.parities ==> g in after.eqs.parities && after.eqs.parities[g] == before.eqs.parities[g])
    && (forall k :: k in before.eqs.planes ==> k in after.eqs.planes && after.eqs.planes[k] == before.eqs.planes[k])
  }

  lemma KeptSelf()
    ensures forall d: Dir :: Kept(d, d)
  {}

  lemma SettledKeeps(before: Dir, f: Frame, result: Outcome, after: Dir)
    requires Settled(before, f, result, after)
    ensures Kept(before, after) && result != CALIBRATION && result != OTHER_SESSION
  {
    hide Exhausted, Fileable, Rebuilt, Carried;
  }

  // A frame is stored exactly when it is valid, new, and brings no record that
  // is there already; then its file is there, and so is its record.
  lemma StoredExactly(before: Dir, f: Frame, result: Outcome, after: Dir)
    requires Settled(before, f, result, after)
    ensures result == STORED <==>
              New(before, f) && (Carried(f).Some? ==> Rebuilt(f, Carried(f).value).Some? && Carried(f).value.index !in before.data)
    ensures New(before, f) ==> HeldSame(after, f)
    ensures result == STORED && f.kind == DATA ==> f.globalIndex in after.data && after.data[f.globalIndex] == f
    ensures result == STORED && Carried(f).Some? ==>
              var r := Carried(f).value;
              r.index in after.data && after.data[r.index].payload == r.payload && after.data[r.index].windowIndex == r.windowIndex % 0x1_0000
    ensures (result == INVALID || result == DUPLICATE || result == THROWN) <==> result != STORED
  {
    hide Exhausted, Fileable, ParseRecord, Trim, BasisOf, Acceptable;
  }

  // A plane frame whose record is there already is filed, but recovery is put
  // off to the next frame that is stored: for all others a directory at rest
  // stays at rest.
  lemma RestKept(before: Dir, f: Frame, result: Outcome, after: Dir)
    requires Settled(before, f, result, after) && Exhausted(before)
    ensures Exhausted(after) || (New(before, f) && Carried(f).Some? && Carried(f).value.index in before.data)
         || result == THROWN
  {
    hide Exhausted, Fileable, Rebuilt, Carried, Filed;
  }

  // A plane frame accept takes; `basis` is None for the parity coefficients.
  function BasisOf(coefficient: nat): Option<nat> {
    if coefficient == 1 then Some(0) else if coefficient == 2 then Some(1)
    else if coefficient == 4 then Some(2) else if coefficient == 8 then Some(3) else None
  }

  predicate ValidPlane(f: Frame) {
    var c, width := f.globalIndex, f.streamOffset;
    && (BasisOf(c).Some? || c == 7 || c == 15)
    && f.flags == (if width == 4 && c == 15 then 0 else FLAG_PLANE_WHITENED)
    && (width == 3 || width == 4)
    && (c == 7 ==> width == 3) && (c == 15 ==> width == 4) && (c == 8 ==> width == 4)
    && f.windowIndex + width <= f.windowCount
  }

  predicate IsPlaneStart(f: Frame) {
    && f.kind == PLANE_CODED && f.flags == FLAG_PLANE_WHITENED && f.globalIndex == 1
    && (f.streamOffset == 3 || f.streamOffset == 4) && f.windowIndex + f.streamOffset <= f.windowCount
    && Trim(f.payload).Ok? && ParseRecord(Trim(f.payload).value).Ok?
  }

  predicate IsLegacyRecoveryStart(f: Frame) {
    if f.kind == CHAIN_XOR then
      var left, right := f.streamId / 0x1_0000, f.streamId % 0x1_0000;
      && f.flags == FLAG_PAIR_WHITENED && f.streamOffset == 0 && left >= RECORD_HEADER && right >= RECORD_HEADER
      && f.windowIndex + 1 < f.windowCount && |f.payload| == (if left > right then left else right)
    else
      f.kind == BLOCK_XOR && ValidBlock(f) && |f.payload| >= RECORD_HEADER
  }

  predicate IsSessionStart(f: Frame) {
    f.kind == DATA || IsPlaneStart(f) || IsLegacyRecoveryStart(f)
  }

  const END_WINDOW: nat := 2
  const CALIBRATION_KIND: nat := 3

  // A received frame that belongs to the true transfer.
  ghost predicate TrueFrame(t: Truth, f: Frame) {
    && 0 < t.session < 0x1_0000_0000
    && (f.kind == DATA ==> TrueData(t, f.globalIndex, f))
    && (f.kind == CHAIN_XOR ==> TrueChain(t, f))
    && (f.kind == BLOCK_XOR && ValidBlock(f) ==> TrueBlock(t, f))
    && (f.kind == PLANE_CODED && ValidPlane(f) ==> TruePlane(t, f.streamId, f.globalIndex, f))
  }

  ghost predicate TrueIfOurs(t: Truth, f: Frame) {
    f.session == t.session ==> TrueFrame(t, f)
  }

  lemma LeastStart(d: Dir)
    ensures Least(d.data.Keys, d)
  {}

  // The directory with one more file.
  function Filed(d: Dir, f: Frame): Dir {
    if f.kind == CHAIN_XOR then d.(eqs := d.eqs.(xors := d.eqs.xors[f.globalIndex := f]))
    else if f.kind == BLOCK_XOR then d.(eqs := d.eqs.(parities := d.eqs.parities[f.globalIndex := f]))
    else if f.kind == PLANE_CODED then d.(eqs := d.eqs.(planes := d.eqs.planes[(f.streamId, f.globalIndex) := f]))
    else d.(data := d.data[f.globalIndex := f])
  }

  lemma StoredKeeps(t: Truth, d: Dir, f: Frame)
    requires f.kind == DATA || f.kind == CHAIN_XOR || f.kind == BLOCK_XOR || f.kind == PLANE_CODED
    requires f.kind == BLOCK_XOR ==> ValidBlock(f)
    requires f.kind == PLANE_CODED ==> ValidPlane(f)
    ensures TrueDir(t, d) && TrueFrame(t, f) ==> TrueDir(t, Filed(d, f))
  {
    hide ValidBlock, ValidPlane, TrueData, TrueChain, TrueBlock, TruePlane;
  }

  // A basis plane carries the true record it stands for.
  lemma BasisKeeps(t: Truth, d: Dir, f: Frame, i: nat)
    requires f.kind == PLANE_CODED && ValidPlane(f) && BasisOf(f.globalIndex) == Some(i) && Trim(f.payload).Ok?
    ensures TrueDir(t, d) && TrueFrame(t, f) ==>
              var r := Recovery(f.streamId + i, f.windowIndex + i, Trim(f.payload).value);
              match Rebuilt(f, r)
              case None => false
              case Some(g) => TrueDir(t, d.(data := d.data[r.index := g]))
  {
    hide TrueChain, TrueBlock, TrueData, ParseRecord, Trim, XorAll;
    if TrueDir(t, d) && TrueFrame(t, f) {
      BasisFacts(t, f, i);
      RebuiltTrue(t, f, f.streamId + i);
    }
  }

  lemma BasisFacts(t: Truth, f: Frame, i: nat)
    requires TruePlane(t, f.streamId, f.globalIndex, f) && ValidPlane(f) && BasisOf(f.globalIndex) == Some(i)
    ensures Trim(f.payload) == Ok(t.payload(f.streamId + i))
    ensures Placed(t, f, f.streamId + i, f.windowIndex + i) && t.windowIndex(f.streamId + i) == f.windowIndex + i < 0x1_0000
    ensures f.session == t.session
  {
    hide TrueRecord, Trim, XorAll;
    assert i < f.streamOffset && BASES[i] == f.globalIndex && TrueMember(t, f, i);
    assert f.payload == t.plane(f.streamId, i);
  }

  lemma ParsedKind(raw: Bytes)
    requires ParseFrame(raw).Ok?
    ensures 1 <= ParseFrame(raw).value.kind <= 6
  {
    hide WellSealed, GroupValid, WhiteningModes, Has;
    ParseDef(raw);
    FieldsKind(raw);
  }

  lemma FieldsKind(raw: Bytes)
    ensures WellSealed(raw) ==> Acceptable(Fields(raw)) && 1 <= Fields(raw).kind <= 6
  {
    hide GroupValid, WhiteningModes, Has, Fields;
  }

  lemma GrownSelf()
    ensures forall d: Dir :: Grown(d, d)
  {}

  lemma KeyLists(e: Equations)
    ensures forall k :: k in XorKeys(e) || k in ParityKeys(e) || k in PlaneKeys(e) <==> HasKey(e, k)
  {}

  // Nothing stored is overwritten or lost.
  ghost predicate Grown(before: Dir, after: Dir) {
    forall i :: i in before.data ==> i in after.data && after.data[i] == before.data[i]
  }

  // How many records could still be added.
  ghost function Room(d: Dir): nat {
    |Universe(d.eqs) - d.data.Keys|
  }

  lemma RoomShrinks(d: Dir, k: Key)
    requires HasKey(d.eqs, k) && Addition(d, k).Some?
    ensures var a := Addition(d, k).value;
            Room(d.(data := d.data[a.0 := a.1])) < Room(d) && a.0 !in d.data
  {
    hide Addition, Universe;
    AdditionInUniverse(d, k);
    var a := Addition(d, k).value;
    var u := Universe(d.eqs);
    var after := d.data[a.0 := a.1];
    assert u - after.Keys == (u - d.data.Keys) - {a.0};
  }
}
