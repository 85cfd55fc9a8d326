/** The house gate composed with the sizer: whatever is allowed and sized fits every numeric cap. */
module EndToEnd {
  import opened Prelude
  import opened RiskState
  import opened Ladder
  import opened Gate
  import opened GateVerdict
  import opened Sizing

  /** The gate lets `risk` through: nothing blocks and no reduction asked for less. */
  ghost predicate Granted(ctx: GateContext, risk: real) {
    && 0.0 < risk <= ctx.request.requestedRiskPct
    && (forall c: Check :: !BlocksOn(c, ctx))
    && (forall c: Check :: ReducesOn(c, ctx) ==>
          Outcome(c, ctx).value.adjusted.Some? && risk <= Outcome(c, ctx).value.adjusted.value)
  }

  /** A fraction of equity, in dollars. */
  function OfEquity(ctx: GateContext, fraction: real): real {
    ctx.request.equity * fraction
  }

  /** `qty` shares lose no more than `risk` of equity between entry and stop. */
  predicate Carries(ctx: GateContext, qty: real, risk: real) {
    qty * ctx.request.stopDistance <= OfEquity(ctx, risk)
  }

  function NotionalOf(ctx: GateContext, qty: real): real {
    qty * ctx.request.price
  }

  /** Risk within a fraction is notional within the projection at that fraction. */
  lemma NotionalWithinProjection(ctx: GateContext, qty: real, r: real)
    requires EngineShape(ctx) && Carries(ctx, qty, r)
    ensures NotionalOf(ctx, qty) <= ProjectedAt(ctx.request, r)
  {
    NotionalBound(qty, ctx.request.price, ctx.request.equity, r, ctx.request.stopDistance);
  }

  lemma NotionalBound(qty: real, price: real, equity: real, r: real, stop: real)
    requires equity > 0.0 && price > 0.0 && stop > 0.0 && qty * stop <= equity * r
    ensures qty * price <= equity * r * price / stop
  {
    DivLe(qty, equity * r, stop);
    var shares := equity * r / stop;
    MulMono(qty, shares, price);
    assert (shares * price - equity * r * price / stop) * stop == 0.0;
  }

  /** A risk inside the request, with the request or the risk fitted to a room, projects into it. */
  lemma ProjectionWithinRoom(req: RiskRequest, risk: real, room: real)
    requires req.equity > 0.0 && req.price > 0.0 && req.stopDistance > 0.0 && 0.0 < risk <= req.requestedRiskPct
    requires ProjectedAt(req, req.requestedRiskPct) <= room || (room > 0.0 && risk <= RiskToFit(req, room))
    ensures ProjectedAt(req, risk) <= room
  {
    if ProjectedAt(req, req.requestedRiskPct) <= room {
      ProjectedMono(req, risk, req.requestedRiskPct);
    } else {
      RiskToFitExact(req, room);
      ProjectedMono(req, risk, RiskToFit(req, room));
    }
  }

  /** The projection of the whole request, as an order's shape makes it. */
  lemma WholeProjection(ctx: GateContext)
    requires EngineShape(ctx)
    ensures ProjectedNotional(ctx.request) == ProjectedAt(ctx.request, ctx.request.requestedRiskPct)
  {
  }

  /** One capped quantity: either the whole request fits the room, or a check reduced to it. */
  lemma RoomHolds(ctx: GateContext, risk: real, qty: real, room: real)
    requires EngineShape(ctx) && Granted(ctx, risk) && Carries(ctx, qty, risk)
    requires ProjectedNotional(ctx.request) <= room
          || (room > 0.0 && risk <= RiskToFit(ctx.request, room))
    ensures NotionalOf(ctx, qty) <= room
  {
    WholeProjection(ctx);
    NotionalWithinProjection(ctx, qty, risk);
    ProjectionWithinRoom(ctx.request, risk, room);
  }

  lemma ExposureHolds(ctx: GateContext, risk: real, qty: real)
    requires EngineShape(ctx) && Granted(ctx, risk) && Carries(ctx, qty, risk)
    ensures Held(ctx) + NotionalOf(ctx, qty) <= ctx.mandate.maxTotalExposureUsd
  {
    var room := ctx.mandate.maxTotalExposureUsd - Held(ctx);
    assert !BlocksOn(MandateCheck, ctx);
    if ProjectedNotional(ctx.request) > room {
      assert ReducesOn(MandateCheck, ctx);
    }
    RoomHolds(ctx, risk, qty, room);
  }

  lemma SleeveHolds(ctx: GateContext, risk: real, qty: real)
    requires EngineShape(ctx) && Granted(ctx, risk) && Carries(ctx, qty, risk)
    ensures NotionalOf(ctx, qty) <= SleeveRoom(ctx)
  {
    assert !BlocksOn(SleeveCapital, ctx);
    if ProjectedNotional(ctx.request) > SleeveRoom(ctx) {
      assert ReducesOn(SleeveCapital, ctx);
    }
    RoomHolds(ctx, risk, qty, SleeveRoom(ctx));
  }

  lemma ClusterHolds(ctx: GateContext, risk: real, qty: real)
    requires EngineShape(ctx) && Granted(ctx, risk) && Carries(ctx, qty, risk)
    ensures ctx.book.ClusterNotionalOf(RequestKey(ctx.request)) + NotionalOf(ctx, qty) <= ClusterCap(ctx)
  {
    assert !BlocksOn(CorrelationStress, ctx);
    RoomHolds(ctx, risk, qty, ClusterCap(ctx) - ctx.book.ClusterNotionalOf(RequestKey(ctx.request)));
  }

  lemma NameHolds(ctx: GateContext, risk: real, qty: real)
    requires EngineShape(ctx) && Granted(ctx, risk) && Carries(ctx, qty, risk)
    ensures ExistingInName(ctx) + NotionalOf(ctx, qty) <= NameCap(ctx)
  {
    var room := NameCap(ctx) - ExistingInName(ctx);
    assert !BlocksOn(Concentration, ctx);
    if ProjectedNotional(ctx.request) > room {
      assert ReducesOn(Concentration, ctx);
    }
    RoomHolds(ctx, risk, qty, room);
  }

  lemma ParticipationHolds(ctx: GateContext, risk: real, qty: real)
    requires EngineShape(ctx) && Granted(ctx, risk) && Carries(ctx, qty, risk)
    ensures qty <= CapShares(ctx)
  {
    assert !BlocksOn(Liquidity, ctx);
    ParticipationInDollars(ctx);
    if ProjectedShares(ctx.request) > CapShares(ctx) {
      assert ReducesOn(Liquidity, ctx);
    }
    RoomHolds(ctx, risk, qty, ParticipationRoom(ctx));
    DollarsToShares(ctx, qty);
  }

  /** Participation compares the same way in shares and in dollars. */
  lemma ParticipationInDollars(ctx: GateContext)
    requires ctx.request.price > 0.0
    ensures ProjectedShares(ctx.request) <= CapShares(ctx) ==>
      ProjectedNotional(ctx.request) <= ParticipationRoom(ctx)
  {
    var px := ctx.request.price;
    DivLe(0.0, ProjectedNotional(ctx.request), px);
    SharesAndDollars(ProjectedNotional(ctx.request) / px, CapShares(ctx), px);
  }

  lemma DollarsToShares(ctx: GateContext, qty: real)
    requires ctx.request.price > 0.0 && NotionalOf(ctx, qty) <= ParticipationRoom(ctx)
    ensures qty <= CapShares(ctx)
  {
    SharesAndDollars(qty, CapShares(ctx), ctx.request.price);
  }

  lemma SharesAndDollars(a: real, b: real, px: real)
    requires px > 0.0
    ensures a <= b <==> a * px <= b * px
  {
    if a < b { MulPositive(b - a, px); }
    if a > b { MulPositive(a - b, px); }
  }

  lemma CarriesMono(ctx: GateContext, qty: real, r: real, s: real)
    requires ctx.request.equity > 0.0 && r <= s && Carries(ctx, qty, r)
    ensures Carries(ctx, qty, s)
  {
    MulMono(r, s, ctx.request.equity);
  }

  /** The book's expected shortfall plus the whole stop risk stays within the budget. */
  lemma TailHolds(ctx: GateContext, risk: real, qty: real)
    requires EngineShape(ctx) && Granted(ctx, risk) && Carries(ctx, qty, risk)
    ensures Carries(ctx, qty, EsBudget(ctx) - ctx.es.valuePct)
  {
    assert !BlocksOn(HouseCvar, ctx);
    if ctx.es.valuePct + ctx.request.requestedRiskPct > EsBudget(ctx) {
      assert ReducesOn(HouseCvar, ctx);
    }
    CarriesMono(ctx, qty, risk, EsBudget(ctx) - ctx.es.valuePct);
  }

  lemma FullSizeRisk(ctx: GateContext)
    requires IsRung(ctx.ladder) && ctx.ladder.sizeMultiplier >= 1.0
    ensures LadderRisk(ctx) == ctx.request.requestedRiskPct
  {
  }

  lemma LadderHolds(ctx: GateContext, risk: real, qty: real)
    requires EngineShape(ctx) && IsRung(ctx.ladder) && Granted(ctx, risk) && Carries(ctx, qty, risk)
    ensures !ctx.ladder.halt
    ensures ctx.request.sleeve == Intraday ==> ctx.ladder.allowNewIntraday
    ensures Carries(ctx, qty, LadderRisk(ctx))
  {
    assert !BlocksOn(HouseDrawdown, ctx);
    if ctx.ladder.sizeMultiplier < 1.0 {
      assert ReducesOn(HouseDrawdown, ctx);
    } else {
      FullSizeRisk(ctx);
    }
    CarriesMono(ctx, qty, risk, LadderRisk(ctx));
  }

  lemma VolHolds(ctx: GateContext, risk: real, qty: real)
    requires EngineShape(ctx) && Granted(ctx, risk) && Carries(ctx, qty, risk)
    requires ctx.vol.warmupOk && ctx.vol.scalar < 1.0
    ensures Carries(ctx, qty, VolScaledRisk(ctx))
  {
    assert !BlocksOn(VolRegime, ctx);
    assert ReducesOn(VolRegime, ctx);
    CarriesMono(ctx, qty, risk, VolScaledRisk(ctx));
  }

  // ---- the composition -----------------------------------------------------------------------

  /** The request the engine sizes: `adjusted or requested` in place of the requested risk. */
  function SizedRequest(ctx: GateContext): RiskRequest {
    ctx.request.(requestedRiskPct := EffectiveRisk(ctx))
  }

  /** Gate, then size with the volatility scalar at 1: the gate already applied it. */
  function GateThenSize(ctx: GateContext, caps: SizingCaps): Option<RiskDecision> {
    if Decide(ctx).Allowed() then Some(Size(SizedRequest(ctx), caps, 1.0)) else None
  }

  lemma AllowedIsGranted(ctx: GateContext)
    requires EngineShape(ctx) && IsRung(ctx.ladder) && Decide(ctx).Allowed()
    ensures Granted(ctx, EffectiveRisk(ctx))
  {
    EffectiveRiskIsTightest(ctx);
  }

  /** A request the sizer filled was a proper one: its equity, price, stop and risk are positive. */
  lemma SizedHasShape(ctx: GateContext, caps: SizingCaps)
    requires EngineRequest(ctx) && IsRung(ctx.ladder)
    requires GateThenSize(ctx, caps).Some? && GateThenSize(ctx, caps).value.ok
    ensures EngineShape(ctx)
  {
    var req := SizedRequest(ctx);
    SizeIsGreatestFit(req, caps, 1.0);
    var n := GateThenSize(ctx, caps).value.qty;
    MulPositive(n as real, req.stopDistance);
    BothPositive(req.equity, VolRisk(req.requestedRiskPct, 1.0));
    EffectiveRiskNeedsARequest(ctx);
  }

  lemma BothPositive(equity: real, risk: real)
    requires equity * risk > 0.0 && risk >= 0.0
    ensures equity > 0.0 && risk > 0.0
  {
    if equity <= 0.0 { MulMono(equity, 0.0, risk); }
  }

  lemma RiskFitsCarries(ctx: GateContext, n: int, risk: real)
    requires RiskFits(SizedRequest(ctx), n, risk)
    ensures Carries(ctx, n as real, risk)
  {
  }

  /** Every numeric cap the gate knows, on a sized quantity. */
  predicate FitsEveryCap(ctx: GateContext, qty: real) {
    && Held(ctx) + NotionalOf(ctx, qty) <= ctx.mandate.maxTotalExposureUsd
    && NotionalOf(ctx, qty) <= SleeveRoom(ctx)
    && ctx.book.ClusterNotionalOf(RequestKey(ctx.request)) + NotionalOf(ctx, qty) <= ClusterCap(ctx)
    && ExistingInName(ctx) + NotionalOf(ctx, qty) <= NameCap(ctx)
    && qty <= CapShares(ctx)
    && Carries(ctx, qty, EsBudget(ctx) - ctx.es.valuePct)
    && !ctx.ladder.halt && Carries(ctx, qty, LadderRisk(ctx))
    && (ctx.vol.warmupOk && ctx.vol.scalar < 1.0 ==> Carries(ctx, qty, VolScaledRisk(ctx)))
  }

  lemma GrantedFitsEveryCap(ctx: GateContext, risk: real, qty: real)
    requires EngineShape(ctx) && IsRung(ctx.ladder) && Granted(ctx, risk) && Carries(ctx, qty, risk)
    ensures FitsEveryCap(ctx, qty)
  {
    ExposureHolds(ctx, risk, qty);
    SleeveHolds(ctx, risk, qty);
    ClusterHolds(ctx, risk, qty);
    NameHolds(ctx, risk, qty);
    ParticipationHolds(ctx, risk, qty);
    TailHolds(ctx, risk, qty);
    LadderHolds(ctx, risk, qty);
    if ctx.vol.warmupOk && ctx.vol.scalar < 1.0 { VolHolds(ctx, risk, qty); }
  }

  /**
   * The house's promise, end to end: every order the gate allows and the sizer sizes, under any
   * sizing caps at all, fits every numeric cap the gate knows.
   */
  lemma SizedOrderFitsEveryCap(ctx: GateContext, caps: SizingCaps)
    requires EngineRequest(ctx) && IsRung(ctx.ladder)
    requires GateThenSize(ctx, caps).Some? && GateThenSize(ctx, caps).value.ok
    ensures var qty := GateThenSize(ctx, caps).value.qty;
            qty >= 1 && FitsEveryCap(ctx, qty as real)
  {
    SizedHasShape(ctx, caps);
    AllowedIsGranted(ctx);
    SizedRiskWithinRequest(SizedRequest(ctx), caps);
    RiskFitsCarries(ctx, GateThenSize(ctx, caps).value.qty, EffectiveRisk(ctx));
    GrantedFitsEveryCap(ctx, EffectiveRisk(ctx), GateThenSize(ctx, caps).value.qty as real);
  }

  // ---- what the verdict does not promise -------------------------------------------------------

  /** The projection the mandate check leaves standing: the whole request, or its reduction. */
  function MandateProjection(ctx: GateContext): real
    requires EngineShape(ctx)
  {
    var o := CheckMandate(ctx);
    Held(ctx) + ProjectedAt(ctx.request,
      if o.Some? && o.value.adjusted.Some? then o.value.adjusted.value else ctx.request.requestedRiskPct)
  }

  /** An order let through is either inside the exposure cap and the leverage cap, or cut to the exposure cap. */
  lemma MandateCases(ctx: GateContext)
    requires EngineShape(ctx)
    requires !(CheckMandate(ctx).Some? && CheckMandate(ctx).value.kind == Block)
    ensures Held(ctx) + ProjectedNotional(ctx.request) <= ctx.mandate.maxTotalExposureUsd ==>
      && CheckMandate(ctx).None?
      && Held(ctx) + ProjectedNotional(ctx.request) <= ctx.config.leverageCap * ctx.book.equity
    ensures Held(ctx) + ProjectedNotional(ctx.request) > ctx.mandate.maxTotalExposureUsd ==>
      var fitted := RiskToFit(ctx.request, ctx.mandate.maxTotalExposureUsd - Held(ctx));
      fitted > 0.0 && CheckMandate(ctx).Some? && CheckMandate(ctx).value.adjusted == Some(fitted)
  {
  }

  lemma MandateLeaves(ctx: GateContext)
    requires EngineShape(ctx)
    requires !(CheckMandate(ctx).Some? && CheckMandate(ctx).value.kind == Block)
    ensures MandateProjection(ctx) == RMin(Held(ctx) + ProjectedNotional(ctx.request), ctx.mandate.maxTotalExposureUsd)
  {
    MandateCases(ctx);
    WholeProjection(ctx);
    RiskToFitExact(ctx.request, ctx.mandate.maxTotalExposureUsd - Held(ctx));
  }

  /**
   * The exposure cap is tested before leverage and returns a reduction, so an order the mandate
   * check lets through meets the leverage cap exactly when it did not exceed the exposure cap, or
   * the exposure cap is itself inside the leverage cap.
   */
  lemma LeverageHoldsExactlyWhen(ctx: GateContext)
    requires EngineShape(ctx)
    requires !(CheckMandate(ctx).Some? && CheckMandate(ctx).value.kind == Block)
    ensures MandateProjection(ctx) <= ctx.config.leverageCap * ctx.book.equity
       <==> (Held(ctx) + ProjectedNotional(ctx.request) <= ctx.mandate.maxTotalExposureUsd
             || ctx.mandate.maxTotalExposureUsd <= ctx.config.leverageCap * ctx.book.equity)
  {
    MandateCases(ctx);
    MandateLeaves(ctx);
  }

  function LeverageRoom(ctx: GateContext): real {
    ctx.config.leverageCap * ctx.book.equity - Held(ctx)
  }

  /** A request inside the exposure cap was tested against leverage, so its whole projection fits. */
  lemma WholeRequestKeepsLeverage(ctx: GateContext)
    requires EngineShape(ctx) && !BlocksOn(MandateCheck, ctx) && MandateCheck !in ctx.faults
    requires Held(ctx) + ProjectedNotional(ctx.request) <= ctx.mandate.maxTotalExposureUsd
    ensures ProjectedNotional(ctx.request) <= LeverageRoom(ctx)
  {
  }

  lemma LeverageOfGranted(ctx: GateContext, risk: real, qty: real)
    requires EngineShape(ctx) && Granted(ctx, risk) && Carries(ctx, qty, risk)
    requires Held(ctx) + ProjectedNotional(ctx.request) <= ctx.mandate.maxTotalExposureUsd
    ensures NotionalOf(ctx, qty) <= LeverageRoom(ctx)
  {
    assert !BlocksOn(MandateCheck, ctx);
    assert MandateCheck !in ctx.faults;
    WholeRequestKeepsLeverage(ctx);
    RoomHolds(ctx, risk, qty, LeverageRoom(ctx));
  }

  lemma SizedIsGranted(ctx: GateContext, caps: SizingCaps)
    requires EngineShape(ctx) && IsRung(ctx.ladder)
    requires GateThenSize(ctx, caps).Some? && GateThenSize(ctx, caps).value.ok
    ensures Granted(ctx, EffectiveRisk(ctx))
    ensures Carries(ctx, GateThenSize(ctx, caps).value.qty as real, EffectiveRisk(ctx))
  {
    AllowedIsGranted(ctx);
    SizedRiskWithinRequest(SizedRequest(ctx), caps);
    RiskFitsCarries(ctx, GateThenSize(ctx, caps).value.qty, EffectiveRisk(ctx));
  }

  /**
   * On the order itself: what the gate allows and the sizer sizes keeps the leverage cap whenever the
   * request fits the exposure cap whole, or the exposure cap lies inside the leverage cap.
   */
  lemma SizedOrderKeepsLeverage(ctx: GateContext, caps: SizingCaps)
    requires EngineRequest(ctx) && IsRung(ctx.ladder)
    requires GateThenSize(ctx, caps).Some? && GateThenSize(ctx, caps).value.ok
    requires Held(ctx) + ProjectedNotional(ctx.request) <= ctx.mandate.maxTotalExposureUsd
          || ctx.mandate.maxTotalExposureUsd - Held(ctx) <= LeverageRoom(ctx)
    ensures NotionalOf(ctx, GateThenSize(ctx, caps).value.qty as real) <= LeverageRoom(ctx)
  {
    SizedHasShape(ctx, caps);
    var risk, qty := EffectiveRisk(ctx), GateThenSize(ctx, caps).value.qty as real;
    SizedIsGranted(ctx, caps);
    if Held(ctx) + ProjectedNotional(ctx.request) <= ctx.mandate.maxTotalExposureUsd {
      LeverageOfGranted(ctx, risk, qty);
    } else {
      ExposureHolds(ctx, risk, qty);
    }
  }

  /**
   * The name cap is tested before the position and trade counts: an order the concentration check
   * lets through respects the counts exactly when it either fits the name cap or the counts were
   * free anyway.
   */
  lemma CountsTestedExactlyWhen(ctx: GateContext)
    requires EngineShape(ctx)
    ensures CheckConcentration(ctx).None? <==>
      ExistingInName(ctx) + ProjectedNotional(ctx.request) <= NameCap(ctx) && !CountsExceeded(ctx)
    ensures CheckConcentration(ctx).Some? && CheckConcentration(ctx).value.kind == Reduce <==>
      ExistingInName(ctx) < NameCap(ctx) < ExistingInName(ctx) + ProjectedNotional(ctx.request)
  {
    RiskToFitExact(ctx.request, NameCap(ctx) - ExistingInName(ctx));
  }

  /** A blown-out spread stops an order exactly when the order does not exceed participation. */
  lemma SpreadTestedExactlyWhen(ctx: GateContext)
    requires EngineShape(ctx) && ctx.market.last.Some? && ctx.market.SpreadBlown()
    requires ctx.market.advShares.Some? && ctx.market.advShares.value > 0.0 && ctx.config.maxAdvPct > 0.0
    ensures CheckLiquidity(ctx).Some?
    ensures CheckLiquidity(ctx).value.kind == Block <==> ProjectedShares(ctx.request) <= CapShares(ctx)
  {
    MulPositive(ctx.config.maxAdvPct, ctx.market.advShares.value);
    MulPositive(CapShares(ctx), ctx.request.price);
    RiskToFitExact(ctx.request, ParticipationRoom(ctx));
  }

  /**
   * Outside the ladder's own table the engine's `or` can widen: a zero multiplier without a halt
   * yields a zero reduction, which `or` reads as no reduction at all.
   */
  lemma ZeroReductionWidens(ctx: GateContext)
    requires EngineShape(ctx) && Decide(ctx).Allowed()
    requires !ctx.ladder.halt && ctx.ladder.sizeMultiplier == 0.0 && HouseDrawdown !in ctx.faults
    ensures forall c: Check :: ReducesOn(c, ctx) && c != HouseDrawdown ==>
      Outcome(c, ctx).value.adjusted.Some? && Outcome(c, ctx).value.adjusted.value > 0.0
    ensures Decide(ctx).adjusted == Some(0.0)
    ensures EffectiveRisk(ctx) == ctx.request.requestedRiskPct
  {
    VerdictMeaning(ctx);
    assert !BlocksOn(HouseDrawdown, ctx);
    assert LadderRisk(ctx) == 0.0;
    assert ReducesOn(HouseDrawdown, ctx);
    forall c: Check | ReducesOn(c, ctx) && c != HouseDrawdown
      ensures Outcome(c, ctx).value.adjusted.Some? && Outcome(c, ctx).value.adjusted.value > 0.0
    {
      NonLadderReduction(ctx, c);
    }
  }
}
