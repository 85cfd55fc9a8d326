/**
 * Concrete orders that the gate allows, one for each way the code leaves its own text behind: the
 * three checks that shrink an order unnamed, and the three tests a reduction skips.
 */
module SampleOrders {
  import opened Prelude
  import opened RiskState
  import opened Ladder
  import opened Gate
  import opened GateVerdict
  import opened GateAdmission
  import opened Sizing
  import opened EndToEnd

  /** What varies between the samples. */
  datatype Knobs = Knobs(
    exposureCap: real, leverageCap: real, namePct: real, maxPositions: nat, advPct: real,
    spreadBps: Option<real>, rung: LadderState, mode: ApprovalMode)

  /** Nothing binds: ten shares at ten dollars, one dollar of risk each, on an equity of a hundred. */
  const ROOMY := Knobs(200.0, 2.0, 2.0, 5, 1.0, None, RungState(0), OtherMode)

  function SampleRequest(): RiskRequest {
    RiskRequest(Swing, "AAPL", OtherSetup, Buy, 1.0, 10.0, 100.0, 0.1, Some(9.0), None, Some(100.0), None, Some(1000.0),
                None, None, false, None)
  }

  function Sample(k: Knobs): GateContext {
    GateContext(
      SampleRequest(),
      BookState(100.0, 100.0, [], 0.0, map[], map[]),
      MarketState(Some(10.0), k.spreadBps, Some(1.0), None, None, Trading, false, None, true, true, false,
                  Some(10.0), None, Fresh, true, None, false),
      Mandate({"AAPL"}, false, 0, 100.0, k.exposureCap, 0.0, 0, k.mode),
      Config(k.leverageCap, 1.0, 1.0, 2.0, k.namePct, k.namePct, k.maxPositions, k.maxPositions, 0, k.advPct, 2.0,
             1.0, 1.0, 0.0, 60.0, 60.0, 0, 0, 0, 1.0),
      0, k.rung, Vol(1.0, true), ES(0.0, true, 1), 2.0, 0.0, UnknownDay, None, None, false, OrderStage, true, false,
      None, None, 0.0, [], None, 0.0, None, None, {})
  }

  /** Knobs that leave the sample admissible. */
  predicate Allowed(k: Knobs) {
    && k.exposureCap > 0.0 && (100.0 <= k.exposureCap ==> 1.0 <= k.leverageCap)
    && k.namePct > 0.0 && (1.0 <= k.namePct ==> k.maxPositions > 0)
    && k.advPct > 0.0 && (1.0 <= k.advPct ==> k.spreadBps.None? || k.spreadBps.value <= 3.0)
    && IsRung(k.rung) && !k.rung.halt
  }

  /** The sample against each of its knobs. */
  lemma SampleIsAdmissible(k: Knobs)
    requires Allowed(k)
    ensures EngineShape(Sample(k)) && NothingRaises(Sample(k)) && Admissible(Sample(k)) && Decide(Sample(k)).Allowed()
    ensures ProjectedNotional(Sample(k).request) == 100.0 && Held(Sample(k)) == 0.0
  {
    var ctx := Sample(k);
    SampleBookIsOpen(k);
    SampleVenueIsOpen(k);
    AllowedExactlyWhenAdmissible(ctx);
  }

  lemma SampleBookIsOpen(k: Knobs)
    requires k.exposureCap > 0.0 && (100.0 <= k.exposureCap ==> 1.0 <= k.leverageCap)
    requires k.namePct > 0.0 && (1.0 <= k.namePct ==> k.maxPositions > 0)
    requires IsRung(k.rung) && !k.rung.halt
    ensures var ctx := Sample(k);
      && EngineShape(ctx) && ProjectedNotional(ctx.request) == 100.0 && Held(ctx) == 0.0
      && Mandated(ctx) && ShortAllowed(ctx) && ExposureRoom(ctx) && SleeveRoom(ctx) > 0.0 && HouseHealthy(ctx)
      && NameRoom(ctx)
  {
    var ctx := Sample(k);
    EmptyBook(ctx);
    assert ctx.book.PositionFor("AAPL") == 0.0 && ctx.book.Count() == 0 && ctx.book.CountIn(Swing) == 0;
  }

  lemma SampleVenueIsOpen(k: Knobs)
    requires k.advPct > 0.0 && (1.0 <= k.advPct ==> k.spreadBps.None? || k.spreadBps.value <= 3.0)
    ensures var ctx := Sample(k);
      && RegimeFits(ctx) && Liquid(ctx) && PaysItsCosts(ctx) && NoSelfCross(ctx) && DataFresh(ctx) && InHours(ctx)
  {
  }

  lemma EmptyBook(ctx: GateContext)
    requires ctx.book.positions == [] && ctx.positionsValueUsd.None?
    ensures Held(ctx) == 0.0
  {
  }

  // ---- the three unnamed reducers --------------------------------------------------------------

  lemma SampleReduces(k: Knobs, c: Check)
    requires Allowed(k)
    ensures Decide(Sample(k)).Allowed() && (ReducesOn(c, Sample(k)) <==> ShrinkReason(c, Sample(k)))
  {
    SampleIsAdmissible(k);
    ReducersExactly(Sample(k), c);
  }

  const MANDATE_SAMPLE := ROOMY.(exposureCap := 90.0)
  const LADDER_SAMPLE := ROOMY.(rung := RungState(3))
  const APPROVAL_SAMPLE := ROOMY.(mode := ApprovalRequired)

  /** The mandate, the ladder and the approval check each shrink an allowed order, and none is named. */
  lemma UnnamedReducersReduce()
    ensures Decide(Sample(MANDATE_SAMPLE)).Allowed() && ReducesOn(MandateCheck, Sample(MANDATE_SAMPLE))
    ensures Decide(Sample(LADDER_SAMPLE)).Allowed() && ReducesOn(HouseDrawdown, Sample(LADDER_SAMPLE))
    ensures Decide(Sample(APPROVAL_SAMPLE)).Allowed() && ReducesOn(Approval, Sample(APPROVAL_SAMPLE))
    ensures MandateCheck !in NAMED_REDUCERS && HouseDrawdown !in NAMED_REDUCERS && Approval !in NAMED_REDUCERS
  {
    SampleReduces(MANDATE_SAMPLE, MandateCheck);
    SampleReduces(LADDER_SAMPLE, HouseDrawdown);
    SampleReduces(APPROVAL_SAMPLE, Approval);
    SampleReasons();
  }

  /** An allowed order at its approval threshold waits for an operator; the same order under no such mode does not. */
  lemma ApprovalSampleWaits()
    ensures Decide(Sample(APPROVAL_SAMPLE)).Allowed() && Decide(Sample(APPROVAL_SAMPLE)).approvalRequired
    ensures Decide(Sample(ROOMY)).Allowed() && !Decide(Sample(ROOMY)).approvalRequired
  {
    SampleIsAdmissible(APPROVAL_SAMPLE);
    SampleIsAdmissible(ROOMY);
    ApprovalRequiredExactlyWhen(Sample(APPROVAL_SAMPLE));
    ApprovalRequiredExactlyWhen(Sample(ROOMY));
  }

  lemma SampleReasons()
    ensures ShrinkReason(MandateCheck, Sample(MANDATE_SAMPLE))
    ensures ShrinkReason(HouseDrawdown, Sample(LADDER_SAMPLE))
    ensures ShrinkReason(Approval, Sample(APPROVAL_SAMPLE))
  {
    EmptyBook(Sample(MANDATE_SAMPLE));
  }

  // ---- the three skipped tests -----------------------------------------------------------------

  const AMPLE := SizingCaps(1.0, 1.0, 1000.0, 1.0, 1.0, Some(1.0), Some(1.0), 1.0, None)

  lemma NinetyDollarsFit()
    ensures RiskToFit(SampleRequest(), 90.0) == 0.09
  {
  }

  /** Nine of the ten shares are left: ninety dollars of room, at nine per cent of risk. */
  lemma NineSharesAreSized(ctx: GateContext)
    requires EngineShape(ctx) && IsRung(ctx.ladder) && Decide(ctx).Allowed() && ctx.request == SampleRequest()
    requires EffectiveRisk(ctx) == 0.09
    ensures GateThenSize(ctx, AMPLE).Some? && GateThenSize(ctx, AMPLE).value.ok
      && GateThenSize(ctx, AMPLE).value.qty == 9
  {
    var req := SizedRequest(ctx);
    assert CollapsedKelly(AMPLE) == 1.0;
    assert forall n: int :: Fits(req, AMPLE, 1.0, n) <==> n <= 9 by {
      forall n: int ensures Fits(req, AMPLE, 1.0, n) <==> n <= 9 {
        UnitScalar(0.09);
        UnitScalar(1.0);
      }
    }
    SizeIsGreatestFit(req, AMPLE, 1.0);
    assert Fits(req, AMPLE, 1.0, 9);
  }

  predicate SoleReason(k: Knobs, c0: Check) {
    forall c: Check :: ShrinkReason(c, Sample(k)) <==> c == c0
  }

  /** A sample whose one reduction leaves ninety dollars of room is sized at nine shares. */
  lemma NineSharesOfTen(k: Knobs, c0: Check)
    requires Allowed(k) && SoleReason(k, c0)
    requires ReducesOn(c0, Sample(k)) ==>
      Outcome(c0, Sample(k)).value.adjusted == Some(RiskToFit(SampleRequest(), 90.0))
    ensures var ctx := Sample(k);
      && Decide(ctx).Allowed() && GateThenSize(ctx, AMPLE).Some?
      && GateThenSize(ctx, AMPLE).value.ok && GateThenSize(ctx, AMPLE).value.qty == 9
  {
    SampleIsAdmissible(k);
    SoleReducerSetsTheRisk(Sample(k), c0);
    NinetyDollarsFit();
    NineSharesAreSized(Sample(k));
  }

  const LEVERED := ROOMY.(exposureCap := 90.0, leverageCap := 0.5)
  const NO_POSITIONS := ROOMY.(namePct := 0.9, maxPositions := 0)
  const WIDE := ROOMY.(advPct := 0.9, spreadBps := Some(10.0))

  lemma OnlyTheMandate()
    ensures SoleReason(LEVERED, MandateCheck)
  {
    SampleProjects();
    EmptyBook(Sample(LEVERED));
  }

  lemma OnlyTheName()
    ensures SoleReason(NO_POSITIONS, Concentration)
  {
    SampleProjects();
    EmptyBook(Sample(NO_POSITIONS));
  }

  lemma OnlyParticipation()
    ensures SoleReason(WIDE, Liquidity)
  {
    SampleProjects();
    EmptyBook(Sample(WIDE));
  }

  lemma SampleProjects()
    ensures ProjectedNotional(SampleRequest()) == 100.0 && ProjectedShares(SampleRequest()) == 10.0
  {
  }

  /** Reduced to the exposure cap, and sized at ninety dollars where leverage allows fifty. */
  lemma SizedAboveLeverage()
    ensures var ctx := Sample(LEVERED);
      && Decide(ctx).Allowed() && GateThenSize(ctx, AMPLE).Some? && GateThenSize(ctx, AMPLE).value.ok
      && NotionalOf(ctx, GateThenSize(ctx, AMPLE).value.qty as real) > LeverageRoom(ctx)
  {
    OnlyTheMandate();
    EmptyBook(Sample(LEVERED));
    NineSharesOfTen(LEVERED, MandateCheck);
  }

  /** Reduced to the name cap, and sized although no position is allowed. */
  lemma SizedAboveMaxPositions()
    ensures var ctx := Sample(NO_POSITIONS);
      && Decide(ctx).Allowed() && CountsExceeded(ctx)
      && GateThenSize(ctx, AMPLE).Some? && GateThenSize(ctx, AMPLE).value.ok
  {
    OnlyTheName();
    NineSharesOfTen(NO_POSITIONS, Concentration);
  }

  /** Reduced to participation, and sized across a spread ten times its median. */
  lemma SizedAcrossABlownSpread()
    ensures var ctx := Sample(WIDE);
      && Decide(ctx).Allowed() && ctx.market.SpreadBlown()
      && GateThenSize(ctx, AMPLE).Some? && GateThenSize(ctx, AMPLE).value.ok
  {
    OnlyParticipation();
    assert ParticipationRoom(Sample(WIDE)) == 90.0;
    NineSharesOfTen(WIDE, Liquidity);
  }
}
