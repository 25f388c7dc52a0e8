// The PLANE sender and the receiver together: what each symbol of a group is
// filed as, and that the parity symbol makes up for a lost one.

module PlaneReception {
  import opened Gf2
  import opened Protocol
  import opened Repair
  import opened PlaneParity
  import opened PlaneFrames
  import Store = SessionStore

  // ----- one symbol

  function Power(i: nat): (n: nat)
    ensures n > 0
  {
    if i == 0 then 1 else 2 * Power(i - 1)
  }

  // Bit i of a coefficient.
  predicate Selects(c: nat, i: nat) {
    c / Power(i) % 2 == 1
  }

  // The XOR of the records, of the first n, that a coefficient selects.
  function Selected(records: seq<Bytes>, c: nat, n: nat): (r: Bytes)
    requires n <= |records| && forall i :: 0 <= i < |records| ==> |records[i]| == PAYLOAD
    ensures |r| == PAYLOAD
  {
    if n == 0 then Zeros(PAYLOAD)
    else if Selects(c, n - 1) then Xor(Selected(records, c, n - 1), records[n - 1])
    else Selected(records, c, n - 1)
  }

  predicate InWindow(g: Group) {
    GoodGroup(g) && g.session != 0 && g.windowIndex + |g.records| <= g.windowCount
  }

  // The symbols of a group: its basis symbols, then the parity symbol.
  function Symbol(g: Group, i: nat): (r: Bytes)
    requires GoodGroup(g) && i <= |g.records|
  {
    if i < |g.records| then BasisWire(g, i) else ParityWire(g)
  }

  // A frame of the group, wherever it stands in the header.
  predicate Belongs(g: Group, f: Frame) {
    && f.kind == PLANE_CODED && f.session == g.session && f.window == g.window && f.streamId == g.start
    && f.streamOffset == |g.records| && f.windowIndex == g.windowIndex && f.windowCount == g.windowCount
  }

  // The receiver takes basis symbol i for basis i, and the payload is what its
  // coefficient selects: record i alone.
  lemma BasisReceived(g: Group, i: nat)
    requires InWindow(g) && i < |g.records|
    ensures ParseFrame(Symbol(g, i)).Ok?
    ensures var f := ParseFrame(Symbol(g, i)).value;
            && Belongs(g, f) && Store.ValidPlane(f) && Store.BasisOf(f.globalIndex) == Some(i)
            && f.payload == g.records[i] == Selected(g.records, f.globalIndex, |g.records|)
            && forall j: nat :: j < |g.records| ==> (Selects(f.globalIndex, j) <==> j == i)
  {
    hide ParseFrame, Selects, Selected, Wire;
    BasisRead(g, i);
    var f := ParseFrame(Symbol(g, i)).value;
    Coefficient(i);
    OneSelected(g.records, f.globalIndex, i, |g.records|);
  }

  lemma Coefficient(i: nat)
    requires i < 4
    ensures COEFFICIENTS[i] == Power(i) && Store.BasisOf(Power(i)) == Some(i) && Power(i) != 7 && Power(i) != 15
    ensures Power(i) == 8 ==> i == 3
    ensures forall j: nat :: j < 4 ==> (Selects(Power(i), j) <==> j == i)
  {
    Powers();
  }

  lemma Powers()
    ensures Power(0) == 1 && Power(1) == 2 && Power(2) == 4 && Power(3) == 8
  {
    assert Power(1) == 2 * Power(0);
    assert Power(2) == 2 * Power(1);
    assert Power(3) == 2 * Power(2);
  }

  lemma {:induction false} OneSelected(records: seq<Bytes>, c: nat, i: nat, n: nat)
    requires n <= |records| && forall k :: 0 <= k < |records| ==> |records[k]| == PAYLOAD
    requires forall j: nat :: j < n ==> (Selects(c, j) <==> j == i)
    ensures Selected(records, c, n) == if i < n then records[i] else Zeros(PAYLOAD)
    decreases n
  {
    hide Xor, Selects;
    if n > 0 {
      OneSelected(records, c, i, n - 1);
      if n - 1 == i {
        XorComm(Zeros(PAYLOAD), records[i]);
        XorZero(records[i]);
      }
    }
  }

  // The parity symbol is taken for a parity of this width, and its coefficient
  // selects every record.
  lemma ParityReceived(g: Group)
    requires InWindow(g)
    ensures ParseFrame(Symbol(g, |g.records|)).Ok?
    ensures var f := ParseFrame(Symbol(g, |g.records|)).value;
            && Belongs(g, f) && Store.ValidPlane(f) && Store.PlaneParity(f) && Store.BasisOf(f.globalIndex) == None
            && f.payload == Selected(g.records, f.globalIndex, |g.records|)
            && forall j: nat :: j < |g.records| ==> Selects(f.globalIndex, j)
  {
    hide ParseFrame, Selects, Selected, Wire, XorAll;
    ParityRead(g);
    var f := ParseFrame(Symbol(g, |g.records|)).value;
    AllBits(|g.records|, f.globalIndex);
    AllSelected(g.records, f.globalIndex, |g.records|);
    assert g.records[..|g.records|] == g.records;
  }

  function SymbolFrame(g: Group, i: nat): Frame
    requires GoodGroup(g) && i <= |g.records| && ParseFrame(Symbol(g, i)).Ok?
  {
    ParseFrame(Symbol(g, i)).value
  }

  // Both together.
  lemma SymbolReceived(g: Group, i: nat)
    requires InWindow(g) && i <= |g.records|
    ensures ParseFrame(Symbol(g, i)).Ok?
    ensures var f := SymbolFrame(g, i);
            && Belongs(g, f) && Store.ValidPlane(f) && |f.payload| == PAYLOAD
            && f.payload == Selected(g.records, f.globalIndex, |g.records|)
            && Store.BasisOf(f.globalIndex) == (if i < |g.records| then Some(i) else None)
            && (i < |g.records| ==> f.payload == g.records[i])
            && (i == |g.records| ==> forall j: nat :: j < |g.records| ==> Selects(f.globalIndex, j))
  {
    hide ParseFrame, Symbol, Selected, Selects, Store.ValidPlane;
    if i < |g.records| { BasisReceived(g, i); } else { ParityReceived(g); }
  }

  lemma AllBits(width: nat, c: nat)
    requires (width == 3 && c == 7) || (width == 4 && c == 15)
    ensures forall j: nat :: j < width ==> Selects(c, j)
  {
    Powers();
  }

  lemma {:induction false} AllSelected(records: seq<Bytes>, c: nat, n: nat)
    requires n <= |records| && forall k :: 0 <= k < |records| ==> |records[k]| == PAYLOAD
    requires forall j: nat :: j < n ==> Selects(c, j)
    ensures Selected(records, c, n) == XorAll(records[..n], PAYLOAD)
    decreases n
  {
    hide Xor, Selects;
    if n > 0 {
      AllSelected(records, c, n - 1);
      assert records[..n][..n - 1] == records[..n - 1];
    }
  }

  // So record i goes to index start + i, at place windowIndex + i.
  lemma RecordPlace(g: Group, i: nat)
    requires InWindow(g) && i < |g.records| && Trim(g.records[i]).Ok?
    ensures ParseFrame(Symbol(g, i)).Ok?
    ensures Store.Carried(ParseFrame(Symbol(g, i)).value) == Some(Store.Recovery(g.start + i, g.windowIndex + i, Trim(g.records[i]).value))
  {
    hide ParseFrame, Symbol, Trim, Selected;
    BasisReceived(g, i);
  }

  // All plane frames the receiver takes, by width, coefficient and flags: the
  // basis symbols and the one parity of each width.
  lemma ValidPlaneIs(f: Frame)
    ensures Store.ValidPlane(f) <==>
              && f.windowIndex + f.streamOffset <= f.windowCount
              && (|| (f.streamOffset == 3 && f.globalIndex in {1, 2, 4, 7} && f.flags == 0x0010)
                  || (f.streamOffset == 4 && f.globalIndex in {1, 2, 4, 8} && f.flags == 0x0010)
                  || (f.streamOffset == 4 && f.globalIndex == 15 && f.flags == 0))
  {}

  // The first symbol of a group can open a session.
  lemma FirstOpens(g: Group)
    requires InWindow(g) && Trim(g.records[0]).Ok? && ParseRecord(Trim(g.records[0]).value).Ok?
    ensures ParseFrame(Symbol(g, 0)).Ok? && Store.IsSessionStart(ParseFrame(Symbol(g, 0)).value)
  {
    hide ParseFrame, Trim, ParseRecord, Wire;
    BasisRead(g, 0);
  }

  // ----- the store

  // The transfer behind the group: record i of the group is record start + i.
  ghost predicate Agrees(t: Store.Truth, g: Group) {
    && InWindow(g) && t.session == g.session && t.width(g.start) == |g.records| && t.window(g.start) == g.window
    && forall i :: 0 <= i < |g.records| ==> AgreesAt(t, g, i)
  }

  ghost predicate AgreesAt(t: Store.Truth, g: Group, i: nat)
    requires i < |g.records|
  {
    && t.plane(g.start, i) == g.records[i] && Trim(g.records[i]) == Ok(t.payload(g.start + i))
    && Store.TrueRecord(t, g.start + i) && t.window(g.start + i) == g.window && t.windowIndex(g.start + i) == g.windowIndex + i
  }

  // Every symbol of the group is a true frame.
  lemma SymbolTrue(t: Store.Truth, g: Group, i: nat)
    requires Agrees(t, g) && i <= |g.records|
    ensures ParseFrame(Symbol(g, i)).Ok? && Store.TrueFrame(t, SymbolFrame(g, i))
  {
    hide ParseFrame, Symbol, Trim, Selected, ParseRecord, XorAll, Store.ValidPlane, Store.TrueMember, Selects, Store.PlaneParity, AgreesAt,
      Store.PlanePayloads;
    SymbolReceived(g, i);
    var f := SymbolFrame(g, i);
    SymbolPayload(t, g, i);
    SymbolPlaces(t, g, f);
    assert Store.TruePlane(t, f.streamId, f.globalIndex, f);
  }

  lemma SymbolPlaces(t: Store.Truth, g: Group, f: Frame)
    requires Agrees(t, g) && Belongs(g, f) && |f.payload| == PAYLOAD
    ensures forall k :: 0 <= k < f.streamOffset ==> Store.TrueMember(t, f, k) && |t.plane(f.streamId, k)| == PAYLOAD
  {
    hide Trim, Store.TrueRecord;
    forall k | 0 <= k < f.streamOffset ensures Store.TrueMember(t, f, k) && |t.plane(f.streamId, k)| == PAYLOAD {
      assert AgreesAt(t, g, k);
    }
  }

  lemma SymbolPayload(t: Store.Truth, g: Group, i: nat)
    requires Agrees(t, g) && i <= |g.records|
    ensures ParseFrame(Symbol(g, i)).Ok?
    ensures var f := SymbolFrame(g, i);
            && (forall k :: 0 <= k < |g.records| && f.globalIndex == Store.BASES[k] ==>
                  f.flags == FLAG_PLANE_WHITENED && f.payload == t.plane(g.start, k))
            && (forall k :: 0 <= k < |Store.PlanePayloads(t, f)| ==> |Store.PlanePayloads(t, f)[k]| == PAYLOAD)
            && (Store.PlaneParity(f) ==> f.payload == XorAll(Store.PlanePayloads(t, f), PAYLOAD))
  {
    hide ParseFrame, Symbol, XorAll, Selects, Selected, Trim, Store.TrueRecord;
    SymbolReceived(g, i);
    var f := SymbolFrame(g, i);
    forall k | 0 <= k < |g.records| ensures t.plane(g.start, k) == g.records[k] {
      assert AgreesAt(t, g, k);
    }
    assert Store.PlanePayloads(t, f) == g.records;
    if i == |g.records| {
      AllSelected(g.records, f.globalIndex, |g.records|);
      assert g.records[..|g.records|] == g.records;
    }
  }

  // Symbol i is filed.
  ghost predicate FiledSymbol(d: Store.Dir, g: Group, i: nat)
    requires GoodGroup(g) && i <= |g.records|
  {
    ParseFrame(Symbol(g, i)).Ok? && Store.HeldSame(d, SymbolFrame(g, i))
  }

  // The record it brings is there as it was sent.
  ghost predicate HasRecord(d: Store.Dir, g: Group, i: nat)
    requires GoodGroup(g) && i < |g.records|
  {
    g.start + i in d.data && Trim(g.records[i]).Ok? && d.data[g.start + i].payload == Trim(g.records[i]).value
  }

  lemma TrueIsRecord(t: Store.Truth, d: Store.Dir, g: Group, i: nat)
    requires Agrees(t, g) && Store.TrueDir(t, d) && i < |g.records| && g.start + i in d.data
    ensures HasRecord(d, g, i)
  {
    hide Trim, ParseRecord, Store.TrueRecord, Store.TrueChain, Store.TrueBlock, Store.TruePlane;
    assert AgreesAt(t, g, i);
    assert Store.TrueData(t, g.start + i, d.data[g.start + i]);
  }

  // In a directory at rest the parity symbol and all basis symbols but one give
  // the missing record.
  lemma LostSymbol(t: Store.Truth, d: Store.Dir, g: Group, m: nat)
    requires Agrees(t, g) && Store.TrueDir(t, d) && Store.Exhausted(d) && m < |g.records|
    requires forall i: nat :: i <= |g.records| && i != m ==> FiledSymbol(d, g, i)
    requires (g.start, Power(m)) !in d.eqs.planes
    ensures HasRecord(d, g, m)
  {
    hide ParseFrame, Symbol, Trim, Selected, Store.TrueDir, Store.Exhausted, Selects, Store.Only, XorAll;
    var w := |g.records|;
    assert FiledSymbol(d, g, w);
    ParityReceived(g);
    var parity := SymbolFrame(g, w);
    var k := (g.start, parity.globalIndex);
    var absent := Store.Absent(Store.PlaneMembers(d.eqs.planes, parity));
    forall i | 0 <= i < w ensures absent[i] == (i == m) {
      BasisAbsent(d, g, m, i);
    }
    Store.OnlyUnique(absent, m);
    Store.ExhaustedIsClosed(t, d);
    assert k in d.eqs.planes && Store.PlaneWants(d.eqs.planes[k], d.eqs.planes) == Some(g.start + m);
    TrueIsRecord(t, d, g, m);
  }

  lemma BasisAbsent(d: Store.Dir, g: Group, m: nat, i: nat)
    requires InWindow(g) && m < |g.records| && i < |g.records| && (i != m ==> FiledSymbol(d, g, i))
    requires (g.start, Power(m)) !in d.eqs.planes
    ensures (g.start, Store.BASES[i]) in d.eqs.planes <==> i != m
  {
    hide ParseFrame, Symbol, Selected, Selects;
    BasisReceived(g, i);
    Coefficient(m);
    BasisIs(SymbolFrame(g, i).globalIndex, i);
    BasisIs(Power(m), m);
  }

  lemma BasisIs(c: nat, i: nat)
    requires i < 4
    ensures Store.BasisOf(c) == Some(i) <==> c == Store.BASES[i]
  {}

  // ----- a whole group, its symbols in any order

  // All plane files of the group are symbols of it that have come.
  ghost predicate OnlyOurs(d: Store.Dir, g: Group, order: seq<nat>)
    requires GoodGroup(g)
  {
    forall c: nat :: (g.start, c) in d.eqs.planes ==> Ours(d.eqs.planes[(g.start, c)], g, order)
  }

  ghost predicate Ours(f: Frame, g: Group, order: seq<nat>)
    requires GoodGroup(g)
  {
    exists i: nat :: i in order && IsSymbol(f, g, i)
  }

  ghost predicate IsSymbol(f: Frame, g: Group, i: nat)
    requires GoodGroup(g)
  {
    i <= |g.records| && ParseFrame(Symbol(g, i)) == Ok(f)
  }

  // Symbol i has come: it is filed, and its record is there.
  ghost predicate Come(d: Store.Dir, g: Group, i: nat)
    requires GoodGroup(g)
  {
    i <= |g.records| && FiledSymbol(d, g, i) && (i < |g.records| ==> HasRecord(d, g, i))
  }

  ghost predicate AllCome(d: Store.Dir, g: Group, order: seq<nat>)
    requires GoodGroup(g)
  {
    forall k :: 0 <= k < |order| ==> Come(d, g, order[k])
  }

  lemma SameSymbol(g: Group, i: nat, j: nat)
    requires InWindow(g) && i <= |g.records| && j <= |g.records|
    ensures ParseFrame(Symbol(g, i)).Ok? && ParseFrame(Symbol(g, j)).Ok?
    ensures SymbolFrame(g, i).globalIndex == SymbolFrame(g, j).globalIndex ==> i == j
  {
    hide ParseFrame, Symbol, Selected, Selects;
    SymbolReceived(g, i);
    SymbolReceived(g, j);
  }

  lemma SymbolFileable(g: Group, i: nat)
    requires InWindow(g) && i <= |g.records|
    requires i < |g.records| ==> Trim(g.records[i]).Ok? && ParseRecord(Trim(g.records[i]).value).Ok?
    ensures ParseFrame(Symbol(g, i)).Ok? && Store.Fileable(SymbolFrame(g, i))
    ensures Store.Carried(SymbolFrame(g, i)) ==
              if i < |g.records| then Some(Store.Recovery(g.start + i, g.windowIndex + i, Trim(g.records[i]).value)) else None
  {
    hide ParseFrame, Symbol, Selected, Selects, Trim, ParseRecord;
    SymbolReceived(g, i);
  }

  lemma SymbolSettles(t: Store.Truth, d: Store.Dir, g: Group, order: seq<nat>, i: nat, result: Store.Outcome, after: Store.Dir)
    requires Agrees(t, g) && i <= |g.records| && Store.TrueDir(t, d) && Store.TrueDir(t, after)
    requires OnlyOurs(d, g, order) && AllCome(d, g, order)
    requires ParseFrame(Symbol(g, i)).Ok? && Store.Settled(d, SymbolFrame(g, i), result, after)
    ensures result == Store.STORED || result == Store.DUPLICATE
    ensures OnlyOurs(after, g, order + [i]) && AllCome(after, g, order + [i])
    ensures result == Store.STORED ==> Store.Exhausted(after)
  {
    hide *;
    SymbolOutcome(t, d, g, order, i, result, after);
    SymbolFiles(d, g, order, i, result, after);
    ComeKept(d, after, g, order, SymbolFrame(g, i), result);
    if i < |g.records| {
      TrueIsRecord(t, after, g, i);
    }
    LastCome(after, g, order, i);
  }

  lemma LastCome(d: Store.Dir, g: Group, order: seq<nat>, i: nat)
    requires GoodGroup(g) && i <= |g.records| && AllCome(d, g, order) && FiledSymbol(d, g, i) && (i < |g.records| ==> HasRecord(d, g, i))
    ensures AllCome(d, g, order + [i])
  {
    hide FiledSymbol, HasRecord;
  }

  lemma ComeKept(d: Store.Dir, after: Store.Dir, g: Group, order: seq<nat>, f: Frame, result: Store.Outcome)
    requires InWindow(g) && AllCome(d, g, order) && Store.Settled(d, f, result, after)
    ensures AllCome(after, g, order)
  {
    hide Store.Settled, ParseFrame, Symbol, Trim, Selected, Selects;
    Store.SettledKeeps(d, f, result, after);
    forall k | 0 <= k < |order| ensures Come(after, g, order[k]) {
      assert Come(d, g, order[k]);
      SymbolReceived(g, order[k]);
    }
  }

  lemma SymbolOutcome(t: Store.Truth, d: Store.Dir, g: Group, order: seq<nat>, i: nat, result: Store.Outcome, after: Store.Dir)
    requires Agrees(t, g) && i <= |g.records| && Store.TrueDir(t, d)
    requires OnlyOurs(d, g, order) && AllCome(d, g, order)
    requires ParseFrame(Symbol(g, i)).Ok? && Store.Settled(d, SymbolFrame(g, i), result, after)
    ensures InWindow(g) && GoodGroup(g)
    ensures result == Store.STORED || result == Store.DUPLICATE
    ensures result == Store.STORED ==> Store.Exhausted(after)
    ensures FiledSymbol(after, g, i)
    ensures i < |g.records| ==> g.start + i in after.data
  {
    hide ParseFrame, Symbol, Trim, ParseRecord, Selected, Selects, Store.Exhausted, Store.TrueDir, Store.Fileable, Store.Carried,
      Store.Rebuilt, Store.TrueRecord;
    var f := SymbolFrame(g, i);
    SymbolReceived(g, i);
    if i < |g.records| {
      assert AgreesAt(t, g, i);
      RecordRebuilds(t, g, i);
      if g.start + i in d.data { TrueIsRecord(t, d, g, i); }
    }
    SymbolFileable(g, i);
    if Store.Held(d, f) {
      HeldIsSame(t, d, g, order, i);
    }
  }

  lemma RecordRebuilds(t: Store.Truth, g: Group, i: nat)
    requires Agrees(t, g) && i < |g.records|
    ensures Trim(g.records[i]).Ok? && ParseRecord(Trim(g.records[i]).value).Ok? && ParseFrame(Symbol(g, i)).Ok?
    ensures Store.Rebuilt(SymbolFrame(g, i), Store.Recovery(g.start + i, g.windowIndex + i, Trim(g.records[i]).value)).Some?
  {
    hide ParseFrame, Symbol, Trim, ParseRecord, Selected, Selects;
    SymbolReceived(g, i);
    assert AgreesAt(t, g, i);
    Store.RebuiltTrue(t, SymbolFrame(g, i), g.start + i);
  }

  lemma HeldIsSame(t: Store.Truth, d: Store.Dir, g: Group, order: seq<nat>, i: nat)
    requires InWindow(g) && i <= |g.records| && Store.TrueDir(t, d) && OnlyOurs(d, g, order) && AllCome(d, g, order)
    requires ParseFrame(Symbol(g, i)).Ok? && Store.Held(d, SymbolFrame(g, i))
    ensures Come(d, g, i)
  {
    hide ParseFrame, Symbol, Trim, Selected, Selects;
    SymbolReceived(g, i);
    var c := SymbolFrame(g, i).globalIndex;
    var f := d.eqs.planes[(g.start, c)];
    assert Ours(f, g, order);
    var j: nat :| j in order && IsSymbol(f, g, j);
    var k :| 0 <= k < |order| && order[k] == j;
    assert Come(d, g, order[k]);
    SymbolReceived(g, j);
    SameSymbol(g, i, j);
    assert f.globalIndex == c;
  }

  lemma SymbolFiles(d: Store.Dir, g: Group, order: seq<nat>, i: nat, result: Store.Outcome, after: Store.Dir)
    requires InWindow(g) && i <= |g.records| && OnlyOurs(d, g, order)
    requires ParseFrame(Symbol(g, i)).Ok? && Store.Settled(d, SymbolFrame(g, i), result, after)
    ensures OnlyOurs(after, g, order + [i])
  {
    hide ParseFrame, Symbol, Trim, Selected, Selects, Store.Exhausted, Store.Fileable, Store.Carried, Store.Rebuilt, Store.Verdict;
    SymbolReceived(g, i);
    var f := SymbolFrame(g, i);
    forall c: nat | (g.start, c) in after.eqs.planes ensures Ours(after.eqs.planes[(g.start, c)], g, order + [i]) {
      var h := after.eqs.planes[(g.start, c)];
      if (g.start, c) in d.eqs.planes && d.eqs.planes[(g.start, c)] == h {
        assert Ours(h, g, order);
        var j: nat :| j in order && IsSymbol(h, g, j);
        assert j in order + [i];
      } else {
        assert h == f && IsSymbol(h, g, i) && i in order + [i];
      }
    }
  }

  // The receiver takes the symbols of a group in any order, any of them any
  // number of times.  Each one that comes is filed and its record is there; and
  // when the last one was stored, the parity symbol and all basis symbols but
  // one give every record.
  method ReceiveGroup(store: Store.SessionStore, g: Group, order: seq<nat>, ghost t: Store.Truth)
    returns (results: seq<Store.Outcome>)
    requires Agrees(t, g) && forall k :: 0 <= k < |order| ==> order[k] <= |g.records|
    requires store.active == g.session && Store.TrueDir(t, store.Current())
    requires forall c: nat :: (g.start, c) !in store.Current().eqs.planes
    modifies store
    ensures store.active == g.session && Store.TrueDir(t, store.Current())
    ensures |results| == |order|
    ensures forall k :: 0 <= k < |order| ==> results[k] == Store.STORED || results[k] == Store.DUPLICATE
    ensures forall k :: 0 <= k < |order| ==>
              FiledSymbol(store.Current(), g, order[k]) && (order[k] < |g.records| ==> HasRecord(store.Current(), g, order[k]))
    ensures forall m: nat :: m < |g.records| && order != [] && results[|order| - 1] == Store.STORED && AllBut(g, order, m) ==>
              forall i :: 0 <= i < |g.records| ==> HasRecord(store.Current(), g, i)
  {
    hide ParseFrame, Symbol, Trim, Store.TrueDir, Store.TrueFrame, Store.Settled, Store.Exhausted, Selected, Selects,
      AllCome, OnlyOurs, Store.Kept, Store.IsSessionStart, Store.New, Store.HeldSame, Store.Landed, Store.Least, Agrees, AllBut;
    results := [];
    NoneCome(store.Current(), g, t);
    while |results| < |order|
      invariant |results| <= |order|
      invariant store.active == g.session && Store.TrueDir(t, store.Current())
      invariant OnlyOurs(store.Current(), g, order[..|results|]) && AllCome(store.Current(), g, order[..|results|])
      invariant forall k :: 0 <= k < |results| ==> results[k] == Store.STORED || results[k] == Store.DUPLICATE
      invariant results != [] && results[|results| - 1] == Store.STORED ==> Store.Exhausted(store.Current())
    {
      ghost var done := order[..|results|];
      var i := order[|results|];
      assert order[..|results| + 1] == done + [i];
      SymbolJoins(t, g, i);
      ghost var d := store.Current();
      var result := store.Accept(Symbol(g, i), t);
      SymbolSettles(t, d, g, done, i, result, store.Current());
      results := results + [result];
    }
    assert order[..|results|] == order;
    AllComeAt(store.Current(), g, order);
    forall m: nat | m < |g.records| && order != [] && results[|order| - 1] == Store.STORED && AllBut(g, order, m)
      ensures forall i :: 0 <= i < |g.records| ==> HasRecord(store.Current(), g, i) {
      GroupComplete(t, store.Current(), g, order, m);
    }
  }

  predicate AllBut(g: Group, order: seq<nat>, m: nat) {
    forall i: nat :: i <= |g.records| && i != m ==> i in order
  }

  lemma NoneCome(d: Store.Dir, g: Group, t: Store.Truth)
    requires Agrees(t, g) && forall c: nat :: (g.start, c) !in d.eqs.planes
    ensures InWindow(g) && OnlyOurs(d, g, []) && AllCome(d, g, [])
  {}

  lemma SymbolJoins(t: Store.Truth, g: Group, i: nat)
    requires Agrees(t, g) && i <= |g.records|
    ensures InWindow(g) && t.session == g.session && Store.Readable(Symbol(g, i)) && ParseFrame(Symbol(g, i)).Ok?
    ensures SymbolFrame(g, i).session == g.session && SymbolFrame(g, i).kind == PLANE_CODED && Store.TrueFrame(t, SymbolFrame(g, i))
  {
    hide ParseFrame, Symbol, Trim, Selected, Selects, Store.TrueFrame;
    SymbolReceived(g, i);
    SymbolTrue(t, g, i);
  }

  lemma AllComeAt(d: Store.Dir, g: Group, order: seq<nat>)
    requires GoodGroup(g) && AllCome(d, g, order)
    ensures forall k :: 0 <= k < |order| ==>
              order[k] <= |g.records| && FiledSymbol(d, g, order[k]) && (order[k] < |g.records| ==> HasRecord(d, g, order[k]))
  {
    hide FiledSymbol, HasRecord;
    forall k | 0 <= k < |order|
      ensures order[k] <= |g.records| && FiledSymbol(d, g, order[k]) && (order[k] < |g.records| ==> HasRecord(d, g, order[k])) {
      assert Come(d, g, order[k]);
    }
  }

  lemma GroupComplete(t: Store.Truth, d: Store.Dir, g: Group, order: seq<nat>, m: nat)
    requires Agrees(t, g) && Store.TrueDir(t, d) && Store.Exhausted(d) && m < |g.records|
    requires OnlyOurs(d, g, order) && AllCome(d, g, order) && AllBut(g, order, m)
    ensures forall i :: 0 <= i < |g.records| ==> HasRecord(d, g, i)
  {
    hide FiledSymbol, HasRecord, OnlyOurs, Store.TrueDir, Store.Exhausted, AgreesAt, ParseFrame, Symbol;
    AllComeAt(d, g, order);
    forall i: nat | i <= |g.records| && i != m ensures FiledSymbol(d, g, i) && (i < |g.records| ==> HasRecord(d, g, i)) {
      assert i in order;
      var k :| 0 <= k < |order| && order[k] == i;
    }
    if m in order {
      var k :| 0 <= k < |order| && order[k] == m;
      assert HasRecord(d, g, order[k]);
    } else {
      KeyAbsent(t, d, g, order, m);
      LostSymbol(t, d, g, m);
    }
  }

  lemma KeyAbsent(t: Store.Truth, d: Store.Dir, g: Group, order: seq<nat>, m: nat)
    requires Agrees(t, g) && Store.TrueDir(t, d) && m < |g.records| && OnlyOurs(d, g, order) && m !in order
    ensures (g.start, Power(m)) !in d.eqs.planes
  {
    hide ParseFrame, Symbol, Trim, Selected, Selects;
    if (g.start, Power(m)) in d.eqs.planes {
      KeyIsSymbol(t, d, g, order, m);
    }
  }

  lemma KeyIsSymbol(t: Store.Truth, d: Store.Dir, g: Group, order: seq<nat>, m: nat)
    requires Agrees(t, g) && Store.TrueDir(t, d) && m < |g.records| && (g.start, Power(m)) in d.eqs.planes
    requires OnlyOurs(d, g, order)
    ensures m in order
  {
    hide ParseFrame, Symbol, Trim, Selected, Selects;
    var f := d.eqs.planes[(g.start, Power(m))];
    assert Ours(f, g, order);
    var j: nat :| j in order && IsSymbol(f, g, j);
    assert f.globalIndex == Power(m);
    SymbolReceived(g, j);
    Coefficient(m);
  }
}
