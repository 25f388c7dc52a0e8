// A whole PLANE transfer at the receiver: every group of the schedule agrees
// with one transfer, so the records of a group with a lost symbol come out too.

module PlaneTransfer {
  import opened Gf2
  import opened Protocol
  import opened PlaneParity
  import opened PlaneReception
  import opened Schedule
  import opened Sender
  import opened SenderGroups
  import Store = SessionStore

  // The records of a configuration, in the terms of the receiver.
  ghost function TransferTruth(c: Config): Store.Truth
    requires GoodConfig(c)
  {
    Store.Truth(
      c.session,
      i => if 0 <= i < |c.records| && Trim(c.records[i]).Ok? then Trim(c.records[i]).value else [],
      i => WindowOf(c.plan, i),
      i => Place(c.plan, i),
      _ => c.plan.width,
      (s, i) => if 0 <= s + i < |c.records| then c.records[s + i] else [])
  }

  // Every padded record holds a record, and file data its offset.
  predicate GoodRecord(payload: Bytes) {
    && Trim(payload).Ok? && ParseRecord(Trim(payload).value).Ok?
    && (ParseRecord(Trim(payload).value).value.kind == FILE_DATA ==> |ParseRecord(Trim(payload).value).value.body| >= 4)
  }

  ghost predicate GoodRecords(c: Config) {
    c.session != 0 && forall i :: 0 <= i < |c.records| ==> GoodRecord(c.records[i])
  }

  lemma TruthHolds(c: Config, i: nat)
    requires GoodConfig(c) && GoodRecords(c) && i < c.plan.total
    ensures Trim(c.records[i]) == Ok(TransferTruth(c).payload(i)) && Store.TrueRecord(TransferTruth(c), i)
  {
    hide ParseRecord;
    assert GoodRecord(c.records[i]);
  }

  // Group k of the schedule is made of the records the receiver will take it for.
  lemma GroupAgrees(c: Config, k: nat)
    requires GoodConfig(c) && GoodRecords(c) && HasGroup(c.plan, k)
    ensures Agrees(TransferTruth(c), GroupOf(c, k))
  {
    hide Trim, ParseRecord, WindowOf, Place, WindowCount, GoodRecord, Store.TrueRecord, Fits, ClaimRange, Good;
    var t, g, s := TransferTruth(c), GroupOf(c, k), Start(c.plan, k);
    GroupInWindow(c, k);
    forall m | 0 <= m < |g.records| ensures AgreesAt(t, g, m) {
      MemberPlace(c.plan, Cut(c.plan, k), m);
      MemberPlace(c.plan, Cut(c.plan, k), 0);
      TruthHolds(c, s + m);
    }
  }

  lemma GroupInWindow(c: Config, k: nat)
    requires GoodConfig(c) && c.session != 0 && HasGroup(c.plan, k)
    ensures InWindow(GroupOf(c, k))
  {
    hide WindowOf, Place, WindowCount, Fits, ClaimRange, Good;
    var w := c.plan.width - 1;
    MemberPlace(c.plan, Cut(c.plan, k), w);
    MemberPlace(c.plan, Cut(c.plan, k), 0);
    var s := Start(c.plan, k);
    assert Place(c.plan, s + w) < WindowCount(c.plan, s + w);
  }

  // All symbols of the group have come but basis symbol m.
  ghost predicate CameBut(d: Store.Dir, g: Group, m: nat)
    requires GoodGroup(g)
  {
    && m < |g.records| && (forall i: nat :: i <= |g.records| && i != m ==> Come(d, g, i))
    && ((g.start, Power(m)) in d.eqs.planes ==> HasRecord(d, g, m))
  }

  ghost predicate GroupCame(c: Config, d: Store.Dir, k: nat)
    requires GoodConfig(c)
  {
    HasGroup(c.plan, k) ==> exists m :: CameBut(d, GroupOf(c, k), m)
  }

  // One symbol lost in every group, and the receiver at rest still holds every
  // record before the tails, in its window and place.
  lemma RecordArrives(c: Config, d: Store.Dir, i: nat)
    requires GoodConfig(c) && GoodRecords(c) && i < Cut(c.plan, Groups(c.plan))
    requires Store.TrueDir(TransferTruth(c), d) && Store.Exhausted(d)
    requires forall k: nat :: k < Groups(c.plan) ==> GroupCame(c, d, k)
    ensures Trim(c.records[i]).Ok? && i in d.data
    ensures d.data[i].payload == Trim(c.records[i]).value
    ensures d.data[i].window == i / c.plan.window && d.data[i].windowIndex == i % c.plan.window
  {
    hide Trim, WindowOf, Place, WindowCount, GoodRecords, Store.TrueDir, Store.Exhausted, Fits, ClaimRange, Good, GroupCame;
    Covered(c.plan, i, Groups(c.plan));
    var k :| 0 <= k < Groups(c.plan) && HasGroup(c.plan, k) && Start(c.plan, k) <= i < Start(c.plan, k) + c.plan.width;
    assert GroupCame(c, d, k);
    MemberArrives(c, d, k, i - Start(c.plan, k));
  }

  lemma MemberArrives(c: Config, d: Store.Dir, k: nat, j: nat)
    requires GoodConfig(c) && GoodRecords(c) && HasGroup(c.plan, k) && j < c.plan.width && GroupCame(c, d, k)
    requires Store.TrueDir(TransferTruth(c), d) && Store.Exhausted(d)
    ensures Start(c.plan, k) + j < c.plan.total
    ensures var i := Start(c.plan, k) + j;
            && Trim(c.records[i]).Ok? && i in d.data && d.data[i].payload == Trim(c.records[i]).value
            && d.data[i].window == i / c.plan.window && d.data[i].windowIndex == i % c.plan.window
  {
    hide Trim, ParseRecord, WindowCount, GoodRecords, Store.TrueRecord, Fits, ClaimRange, Good, Store.Exhausted, HasRecord, CameBut, Agrees;
    var g := GroupOf(c, k);
    MemberPlace(c.plan, Cut(c.plan, k), j);
    GroupAgrees(c, k);
    var m :| CameBut(d, g, m);
    BothArrive(TransferTruth(c), d, g, m, j);
    TruthAt(c, d, Start(c.plan, k) + j);
  }

  lemma BothArrive(t: Store.Truth, d: Store.Dir, g: Group, m: nat, j: nat)
    requires Agrees(t, g) && Store.TrueDir(t, d) && Store.Exhausted(d) && CameBut(d, g, m) && j < |g.records|
    ensures g.start + j in d.data
  {
    hide Store.TrueDir, Store.Exhausted, AgreesAt, FiledSymbol;
    if j != m {
      assert Come(d, g, j);
    } else if (g.start, Power(m)) !in d.eqs.planes {
      forall i: nat | i <= |g.records| && i != m ensures FiledSymbol(d, g, i) {
        assert Come(d, g, i);
      }
      LostSymbol(t, d, g, m);
    }
  }

  lemma TruthAt(c: Config, d: Store.Dir, i: nat)
    requires GoodConfig(c) && GoodRecords(c) && i < c.plan.total && Store.TrueDir(TransferTruth(c), d) && i in d.data
    ensures Trim(c.records[i]).Ok? && d.data[i].payload == Trim(c.records[i]).value
    ensures d.data[i].window == i / c.plan.window && d.data[i].windowIndex == i % c.plan.window
  {
    hide Trim, ParseRecord, Store.TrueRecord, Store.TrueChain, Store.TrueBlock, Store.TruePlane, GoodRecords, Good;
    TruthHolds(c, i);
    assert Store.TrueData(TransferTruth(c), i, d.data[i]);
  }
}
