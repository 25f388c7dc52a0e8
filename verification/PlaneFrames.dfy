// The frames dos_sender32 puts on screen, read back by the receiver's parser.

module PlaneFrames {
  import opened Gf2
  import opened Protocol
  import opened Whitening
  import opened PlaneParity
  import opened Schedule
  import opened Sender

  lemma WireParses(f: Frame)
    requires Acceptable(f) && |f.payload| == PAYLOAD
    ensures ParseFrame(Wire(f)) == Ok(f)
  {
    hide Acceptable, Sealed, Seeds, Whiten, ParseFrame;
    ParseEncode(f);
  }

  lemma Modes()
    ensures FLAG_WHITENED & UNKNOWN_FLAGS == 0 && WhiteningModes(FLAG_WHITENED) == 1
    ensures FLAG_PLANE_WHITENED & UNKNOWN_FLAGS == 0 && WhiteningModes(FLAG_PLANE_WHITENED) == 1
    ensures 0 & UNKNOWN_FLAGS == 0 && WhiteningModes(0) == 0
    ensures !Has(FLAG_WHITENED, FLAG_PLANE_WHITENED) && !Has(FLAG_WHITENED, FLAG_GROUP_XOR_WHITENED)
    ensures !Has(FLAG_PLANE_WHITENED, FLAG_GROUP_XOR_WHITENED) && !Has(0, FLAG_GROUP_XOR_WHITENED) && !Has(0, FLAG_PLANE_WHITENED)
  {}

  // A basis symbol carries its record, coefficient and place.
  lemma BasisRead(g: Group, i: nat)
    requires GoodGroup(g) && g.session != 0 && i < |g.records|
    ensures ParseFrame(BasisWire(g, i)) == Ok(PlaneFrame(g, COEFFICIENTS[i], g.records[i]))
  {
    hide WhiteningModes, Has, Wire, ParseFrame;
    Modes();
    WireParses(PlaneFrame(g, COEFFICIENTS[i], g.records[i]));
  }

  // The all-plane symbol carries the XOR of the records, whichever width.
  lemma ParityRead(g: Group)
    requires GoodGroup(g) && g.session != 0
    ensures ParseFrame(ParityWire(g)) == Ok(PlaneFrame(g, if |g.records| == 3 then 7 else 15, XorAll(g.records, PAYLOAD)))
  {
    hide WhiteningModes, Has, Wire, ParseFrame, XorAll;
    Modes();
    WireParses(PlaneFrame(g, if |g.records| == 3 then 7 else 15, XorAll(g.records, PAYLOAD)));
  }

  // A tail frame carries its padded record.
  lemma TailRead(c: Config, i: nat)
    requires GoodPlan(c.plan) && |c.records| == c.plan.total && i < c.plan.total && |c.records[i]| == PAYLOAD && c.session != 0
    ensures ParseFrame(Wire(TailFrame(c, i))) == Ok(TailFrame(c, i)) && TailFrame(c, i).payload == c.records[i]
  {
    hide WhiteningModes, Has, Wire, ParseFrame, Get32, Val, WindowOf, Place, WindowCount;
    Modes();
    WireParses(TailFrame(c, i));
  }
}
