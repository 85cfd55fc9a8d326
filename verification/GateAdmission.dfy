/**
 * What the house gate admits, stated on its own: at order stage an order is allowed exactly when it
 * meets a list of conditions that mentions no check, no precedence and no reduction.
 */
module GateAdmission {
  import opened Prelude
  import opened RiskState
  import opened Ladder
  import opened Gate
  import opened GateVerdict
  import Sizing

  // ---- the conditions --------------------------------------------------------------------------

  /** The mandate covers the order and the book can still trade. */
  predicate Mandated(ctx: GateContext) {
    && (ctx.request.symbol in ctx.mandate.allowed || ReducesAHeldName(ctx))
    && ctx.now / SECONDS_PER_DAY <= ctx.mandate.expires
    && (ctx.mandate.maxDailyTrades > 0 ==> SleeveTrades(ctx) < ctx.mandate.maxDailyTrades)
    && ctx.book.cash >= ctx.mandate.minCashReserveUsd && ctx.market.tradable
  }

  /** A short needs the mandate, an easy borrow and no uptick restriction. */
  predicate ShortAllowed(ctx: GateContext) {
    ctx.request.opensShort ==> ctx.mandate.shorts && ctx.market.shortable && !ctx.market.ssr
  }

  /** Exposure has room; leverage is asked only of an order that fits it whole. */
  predicate ExposureRoom(ctx: GateContext) {
    var projected := Held(ctx) + ProjectedNotional(ctx.request);
    && Held(ctx) < ctx.mandate.maxTotalExposureUsd
    && (projected <= ctx.mandate.maxTotalExposureUsd ==> projected <= ctx.config.leverageCap * ctx.book.equity)
  }

  predicate HouseHealthy(ctx: GateContext) {
    && !ctx.ladder.halt && (ctx.request.sleeve == Intraday ==> ctx.ladder.allowNewIntraday)
    && ctx.es.available && ctx.es.windowDays > 0 && ctx.es.valuePct < EsBudget(ctx)
    && (ctx.vol.warmupOk ==> ctx.vol.scalar > 0.0)
  }

  /** The cluster takes the whole order or nothing; the name takes part of it, untested for counts then. */
  predicate NameRoom(ctx: GateContext) {
    && ctx.book.ClusterNotionalOf(RequestKey(ctx.request)) + ProjectedNotional(ctx.request) <= ClusterCap(ctx)
    && ExistingInName(ctx) < NameCap(ctx)
    && (ExistingInName(ctx) + ProjectedNotional(ctx.request) <= NameCap(ctx) ==> !CountsExceeded(ctx))
  }

  /** Trend setups trade on trend days, reversion setups on range days and never into a knife. */
  predicate RegimeFits(ctx: GateContext) {
    && (TrendSetup(ctx.request.setup) ==> ctx.dayType == TrendDay)
    && (ReversionSetup(ctx.request.setup) ==> ctx.dayType == RangeDay && NoKnife(ctx.market))
  }

  predicate NoKnife(m: MarketState) {
    && !m.newsShock
    && (m.reopenCooldownS.Some? ==> m.reopenCooldownS.value >= REOPEN_COOLDOWN_S)
    && (m.impulsePct.Some? && AtrPct(m).Some? ==> m.impulsePct.value > -2.0 * AtrPct(m).value)
  }

  /** Priced, with volume behind it; the spread is asked only of an order inside participation. */
  predicate Liquid(ctx: GateContext) {
    && ctx.market.last.Some? && ctx.market.advShares.Some? && ctx.market.advShares.value > 0.0
    && CapShares(ctx) > 0.0
    && (ctx.request.price > 0.0 && ProjectedShares(ctx.request) <= CapShares(ctx) ==> !ctx.market.SpreadBlown())
  }

  predicate PaysItsCosts(ctx: GateContext) {
    && ctx.request.measuredMoveBps.Some? && RoundTripCostBps(ctx) > 0.0
    && ctx.request.measuredMoveBps.value > ctx.config.costGateMultiple * RoundTripCostBps(ctx)
  }

  predicate NoSelfCross(ctx: GateContext) {
    ctx.otherSleeveSide.Some? ==> ctx.otherSleeveSide.value == ctx.request.side || ctx.washNets
  }

  predicate Breached(ctx: GateContext, inv: Invalidation) {
    inv.level.Some? && ctx.market.last.Some? && ctx.market.last.value <= inv.level.value
  }

  predicate DataFresh(ctx: GateContext) {
    var m := ctx.market;
    && ctx.referenceComplete && m.dataQuality == Fresh && !ctx.referenceStale && m.caliberKnown
    && (m.quoteAgeS.Some? ==> m.quoteAgeS.value <= ctx.config.maxQuoteStalenessS)
    && (m.barAgeS.Some? ==> m.barAgeS.value <= ctx.config.maxBarStalenessS)
    && (ctx.decisionAgeDays.Some? ==> ctx.decisionAgeDays.value as real <= ctx.ingestWindowDays)
    && (forall inv :: inv in ctx.liveInvalidations ==> !Breached(ctx, inv))
    && ctx.request.stopPrice.Some?
  }

  predicate InHours(ctx: GateContext) {
    var at := ctx.now % SECONDS_PER_DAY;
    && !ctx.market.halted && ctx.market.session == Trading
    && (ctx.request.sleeve == Intraday ==>
          ctx.config.entryAfter <= at <= ctx.config.entryBefore && ctx.timeGateOk != Some(false))
  }

  predicate Admissible(ctx: GateContext) {
    && Mandated(ctx) && ShortAllowed(ctx) && ExposureRoom(ctx) && SleeveRoom(ctx) > 0.0 && HouseHealthy(ctx)
    && NameRoom(ctx) && RegimeFits(ctx) && Liquid(ctx) && PaysItsCosts(ctx) && NoSelfCross(ctx)
    && DataFresh(ctx) && InHours(ctx)
  }

  predicate NothingRaises(ctx: GateContext) {
    forall c: Check :: c in ctx.faults ==> c == HaltCheck
  }

  // ---- check by check --------------------------------------------------------------------------

  predicate CheckBlocks(o: Option<Failure>) {
    o.Some? && o.value.kind == Block
  }

  /** An order projects to a positive notional, and fits some risk into any positive room. */
  lemma EngineProjects(ctx: GateContext, room: real)
    requires EngineShape(ctx)
    ensures ProjectedNotional(ctx.request) > 0.0
    ensures RiskToFit(ctx.request, room) <= 0.0 <==> room <= 0.0
  {
    ProjectedLinear(ctx.request, ctx.request.requestedRiskPct);
    MulPositive(ctx.request.requestedRiskPct, Slope(ctx.request));
    RiskToFitExact(ctx.request, room);
  }


  lemma MandateBlocks(ctx: GateContext)
    requires EngineShape(ctx)
    ensures !CheckBlocks(CheckMandate(ctx)) <==>
      Mandated(ctx) && (ctx.request.opensShort ==> ctx.mandate.shorts) && ExposureRoom(ctx)
  {
    EngineProjects(ctx, ctx.mandate.maxTotalExposureUsd - Held(ctx));
  }

  lemma SleeveBlocks(ctx: GateContext)
    requires EngineShape(ctx)
    ensures !CheckBlocks(CheckSleeveCapital(ctx)) <==> SleeveRoom(ctx) > 0.0
  {
    EngineProjects(ctx, SleeveRoom(ctx));
  }

  lemma VolSign(risk: real, scalar: real)
    requires risk > 0.0
    ensures ScaleBy(risk, scalar) > 0.0 <==> scalar > 0.0
  {
    if scalar > 0.0 { MulPositive(risk, scalar); } else { assert RMax(0.0, scalar) == 0.0; }
  }

  lemma HouseBlocks(ctx: GateContext)
    requires EngineShape(ctx)
    ensures (!CheckBlocks(CheckHouseDrawdown(ctx)) && !CheckBlocks(CheckHouseCvar(ctx))
             && !CheckBlocks(CheckVolRegime(ctx))) <==> HouseHealthy(ctx)
  {
    VolSign(ctx.request.requestedRiskPct, ctx.vol.scalar);
  }

  lemma NameBlocks(ctx: GateContext)
    requires EngineShape(ctx)
    ensures (!CheckBlocks(CheckCorrelationStress(ctx)) && !CheckBlocks(CheckConcentration(ctx))) <==> NameRoom(ctx)
  {
    EngineProjects(ctx, NameCap(ctx) - ExistingInName(ctx));
  }

  lemma RegimeBlocks(ctx: GateContext)
    ensures (!CheckBlocks(CheckMarketRegime(ctx)) && !CheckBlocks(CheckKnifeGuard(ctx))) <==> RegimeFits(ctx)
  {
  }

  lemma LiquidityBlocks(ctx: GateContext)
    requires EngineShape(ctx)
    ensures !CheckBlocks(CheckLiquidity(ctx)) <==> Liquid(ctx)
  {
    if ctx.market.last.Some? && ctx.market.advShares.Some? && ctx.market.advShares.value > 0.0 {
      EngineProjects(ctx, ParticipationRoom(ctx));
      RoomSign(CapShares(ctx), ctx.request.price, ProjectedNotional(ctx.request));
    }
  }

  lemma RoomSign(shares: real, price: real, usd: real)
    requires price > 0.0 && usd > 0.0
    ensures shares * price <= 0.0 <==> shares <= 0.0
    ensures usd / price > 0.0
  {
    DivLe(0.0, usd, price);
    if shares > 0.0 { MulPositive(shares, price); }
    if shares < 0.0 { MulPositive(-shares, price); }
  }

  lemma {:induction false} InvalidationBlocks(ctx: GateContext, invs: seq<Invalidation>)
    requires ctx.stage == OrderStage
    ensures InvalidationFailure(ctx, invs).Some? <==> exists inv :: inv in invs && Breached(ctx, inv)
    ensures InvalidationFailure(ctx, invs).Some? ==> CheckBlocks(InvalidationFailure(ctx, invs))
  {
    if invs != [] {
      var rest := invs[1..];
      InvalidationBlocks(ctx, rest);
      assert invs == [invs[0]] + rest;
      if Breached(ctx, invs[0]) {
        assert invs[0] in invs;
      } else {
        assert InvalidationFailure(ctx, invs) == InvalidationFailure(ctx, rest);
      }
    }
  }

  lemma DataBlocks(ctx: GateContext)
    requires ctx.stage == OrderStage
    ensures !CheckBlocks(CheckData(ctx)) <==> DataFresh(ctx)
  {
    InvalidationBlocks(ctx, ctx.liveInvalidations);
  }

  lemma OtherBlocks(ctx: GateContext)
    requires ctx.stage == OrderStage
    ensures !CheckBlocks(CheckCost(ctx)) <==> PaysItsCosts(ctx)
    ensures !CheckBlocks(CheckWash(ctx)) <==> NoSelfCross(ctx)
    ensures !CheckBlocks(CheckShortability(ctx)) <==> ShortAllowed(ctx)
    ensures !CheckBlocks(CheckTime(ctx)) <==> InHours(ctx)
    ensures !CheckBlocks(CheckApproval(ctx))
  {
  }

  // ---- the theorem -----------------------------------------------------------------------------

  /**
   * The gate admits an order exactly when the order is admissible: no check forgets a condition, and
   * none refuses for another reason.
   */
  lemma AllowedExactlyWhenAdmissible(ctx: GateContext)
    requires EngineShape(ctx) && NothingRaises(ctx)
    ensures Decide(ctx).Allowed() <==> Admissible(ctx)
  {
    VerdictMeaning(ctx);
    BlockFreeExactlyWhen(ctx);
    assert (forall c: Check :: !BlocksOn(c, ctx)) <==> BlockFree(ctx) by { TableCovers(ctx); }
  }

  /** None of the sixteen checks blocks. */
  predicate BlockFree(ctx: GateContext) {
    && !CheckBlocks(CheckMandate(ctx)) && !CheckBlocks(CheckSleeveCapital(ctx))
    && !CheckBlocks(CheckHouseDrawdown(ctx)) && !CheckBlocks(CheckHouseCvar(ctx))
    && !CheckBlocks(CheckCorrelationStress(ctx)) && !CheckBlocks(CheckVolRegime(ctx))
    && !CheckBlocks(CheckMarketRegime(ctx)) && !CheckBlocks(CheckKnifeGuard(ctx))
    && !CheckBlocks(CheckConcentration(ctx)) && !CheckBlocks(CheckLiquidity(ctx))
    && !CheckBlocks(CheckCost(ctx)) && !CheckBlocks(CheckWash(ctx)) && !CheckBlocks(CheckShortability(ctx))
    && !CheckBlocks(CheckData(ctx)) && !CheckBlocks(CheckTime(ctx)) && !CheckBlocks(CheckApproval(ctx))
  }

  lemma BlockFreeExactlyWhen(ctx: GateContext)
    requires EngineShape(ctx)
    ensures BlockFree(ctx) <==> Admissible(ctx)
  {
    MandateBlocks(ctx);
    SleeveBlocks(ctx);
    HouseBlocks(ctx);
    NameBlocks(ctx);
    RegimeBlocks(ctx);
    LiquidityBlocks(ctx);
    DataBlocks(ctx);
    OtherBlocks(ctx);
  }

  function BlockTable(ctx: GateContext): Check -> bool {
    (c: Check) => CheckBlocks(RunCheck(c, ctx))
  }

  predicate NoneOf(b: Check -> bool) {
    && !b(MandateCheck) && !b(SleeveCapital) && !b(HouseDrawdown) && !b(HouseCvar) && !b(CorrelationStress)
    && !b(VolRegime) && !b(MarketRegime) && !b(KnifeGuard) && !b(Concentration) && !b(Liquidity) && !b(Cost)
    && !b(Wash) && !b(Shortability) && !b(DataCheck) && !b(TimeCheck) && !b(Approval)
  }

  /** A property of every check but the placeholder is a property of the sixteen. */
  lemma SixteenChecks(b: Check -> bool)
    ensures (forall c: Check :: c != HaltCheck ==> !b(c)) <==> NoneOf(b)
  {
  }

  lemma TableEntry(ctx: GateContext, c: Check)
    requires NothingRaises(ctx)
    ensures BlocksOn(c, ctx) <==> c != HaltCheck && BlockTable(ctx)(c)
  {
  }

  // The table's entries are the sixteen checks, four at a time.
  predicate HouseTable(b: Check -> bool, ctx: GateContext) {
    && b(MandateCheck) == CheckBlocks(CheckMandate(ctx))
    && b(SleeveCapital) == CheckBlocks(CheckSleeveCapital(ctx))
    && b(HouseDrawdown) == CheckBlocks(CheckHouseDrawdown(ctx))
    && b(HouseCvar) == CheckBlocks(CheckHouseCvar(ctx))
  }

  predicate MarketTable(b: Check -> bool, ctx: GateContext) {
    && b(CorrelationStress) == CheckBlocks(CheckCorrelationStress(ctx))
    && b(VolRegime) == CheckBlocks(CheckVolRegime(ctx))
    && b(MarketRegime) == CheckBlocks(CheckMarketRegime(ctx))
    && b(KnifeGuard) == CheckBlocks(CheckKnifeGuard(ctx))
  }

  predicate BookTable(b: Check -> bool, ctx: GateContext) {
    && b(Concentration) == CheckBlocks(CheckConcentration(ctx))
    && b(Liquidity) == CheckBlocks(CheckLiquidity(ctx))
    && b(Cost) == CheckBlocks(CheckCost(ctx))
    && b(Wash) == CheckBlocks(CheckWash(ctx))
  }

  predicate VenueTable(b: Check -> bool, ctx: GateContext) {
    && b(Shortability) == CheckBlocks(CheckShortability(ctx))
    && b(Approval) == CheckBlocks(CheckApproval(ctx))
  }

  predicate SessionTable(b: Check -> bool, ctx: GateContext) {
    && b(DataCheck) == CheckBlocks(CheckData(ctx))
    && b(TimeCheck) == CheckBlocks(CheckTime(ctx))
  }

  lemma HouseTableEntries(ctx: GateContext)
    ensures HouseTable(BlockTable(ctx), ctx)
  {
  }

  lemma MarketTableEntries(ctx: GateContext)
    ensures MarketTable(BlockTable(ctx), ctx)
  {
  }

  lemma BookTableEntries(ctx: GateContext)
    ensures BookTable(BlockTable(ctx), ctx)
  {
  }

  lemma VenueTableEntries(ctx: GateContext)
    ensures VenueTable(BlockTable(ctx), ctx)
  {
  }

  lemma SessionTableEntries(ctx: GateContext)
    ensures SessionTable(BlockTable(ctx), ctx)
  {
  }

  lemma NoneOfTheChecks(b: Check -> bool, ctx: GateContext)
    requires HouseTable(b, ctx) && MarketTable(b, ctx) && BookTable(b, ctx) && VenueTable(b, ctx)
      && SessionTable(b, ctx)
    ensures NoneOf(b) <==> BlockFree(ctx)
  {
  }

  lemma TableIsBlockFree(ctx: GateContext)
    ensures NoneOf(BlockTable(ctx)) <==> BlockFree(ctx)
  {
    HouseTableEntries(ctx);
    MarketTableEntries(ctx);
    BookTableEntries(ctx);
    VenueTableEntries(ctx);
    SessionTableEntries(ctx);
    NoneOfTheChecks(BlockTable(ctx), ctx);
  }

  lemma TableCovers(ctx: GateContext)
    requires NothingRaises(ctx)
    ensures (forall c: Check :: !BlocksOn(c, ctx)) <==> BlockFree(ctx)
  {
    SixteenChecks(BlockTable(ctx));
    TableIsBlockFree(ctx);
    forall c: Check ensures BlocksOn(c, ctx) <==> c != HaltCheck && BlockTable(ctx)(c) {
      TableEntry(ctx, c);
    }
  }

  // ---- which checks shrink an order ------------------------------------------------------------

  /** Why a check would shrink an order it does not block. */
  predicate ShrinkReason(c: Check, ctx: GateContext) {
    var projected := ProjectedNotional(ctx.request);
    match c
    case MandateCheck => Held(ctx) + projected > ctx.mandate.maxTotalExposureUsd
    case SleeveCapital => projected > SleeveRoom(ctx)
    case HouseDrawdown => ctx.ladder.sizeMultiplier < 1.0
    case HouseCvar => ctx.es.valuePct + ctx.request.requestedRiskPct > EsBudget(ctx)
    case VolRegime => ctx.vol.warmupOk && ctx.vol.scalar < 1.0
    case Concentration => ExistingInName(ctx) + projected > NameCap(ctx)
    case Liquidity => ctx.request.price > 0.0 && ProjectedShares(ctx.request) > CapShares(ctx)
    case Approval => NeedsApproval(ctx)
    case _ => false
  }

  predicate CheckReduces(o: Option<Failure>) {
    o.Some? && o.value.kind == Reduce
  }

  lemma HouseShrinks(ctx: GateContext)
    requires EngineShape(ctx)
    ensures !CheckBlocks(CheckMandate(ctx)) ==> (CheckReduces(CheckMandate(ctx)) <==> ShrinkReason(MandateCheck, ctx))
    ensures !CheckBlocks(CheckSleeveCapital(ctx)) ==>
      (CheckReduces(CheckSleeveCapital(ctx)) <==> ShrinkReason(SleeveCapital, ctx))
    ensures !CheckBlocks(CheckHouseDrawdown(ctx)) ==>
      (CheckReduces(CheckHouseDrawdown(ctx)) <==> ShrinkReason(HouseDrawdown, ctx))
    ensures !CheckBlocks(CheckHouseCvar(ctx)) ==> (CheckReduces(CheckHouseCvar(ctx)) <==> ShrinkReason(HouseCvar, ctx))
  {
  }

  lemma VenueShrinks(ctx: GateContext)
    requires EngineShape(ctx)
    ensures !CheckBlocks(CheckVolRegime(ctx)) ==> (CheckReduces(CheckVolRegime(ctx)) <==> ShrinkReason(VolRegime, ctx))
    ensures !CheckBlocks(CheckConcentration(ctx)) ==>
      (CheckReduces(CheckConcentration(ctx)) <==> ShrinkReason(Concentration, ctx))
    ensures !CheckBlocks(CheckLiquidity(ctx)) ==> (CheckReduces(CheckLiquidity(ctx)) <==> ShrinkReason(Liquidity, ctx))
    ensures CheckReduces(CheckApproval(ctx)) <==> ShrinkReason(Approval, ctx)
  {
  }

  /** For an allowed order each check shrinks it exactly for its own reason, and eight checks have one. */
  lemma ReducersExactly(ctx: GateContext, c: Check)
    requires EngineShape(ctx) && NothingRaises(ctx) && Decide(ctx).Allowed()
    ensures ReducesOn(c, ctx) <==> ShrinkReason(c, ctx)
  {
    VerdictMeaning(ctx);
    assert !BlocksOn(c, ctx);
    if ReducesOn(c, ctx) { OrderStageReducers(ctx, c); }
    ReduceByTable(ctx, c);
  }

  lemma ReduceByTable(ctx: GateContext, c: Check)
    requires EngineShape(ctx) && NothingRaises(ctx) && !BlocksOn(c, ctx)
    requires ReducesOn(c, ctx) ==>
      c in {MandateCheck, SleeveCapital, HouseDrawdown, HouseCvar, VolRegime, Concentration, Liquidity, Approval}
    ensures ReducesOn(c, ctx) <==> ShrinkReason(c, ctx)
  {
    HouseShrinks(ctx);
    VenueShrinks(ctx);
  }

  const NAMED_REDUCERS: set<Check> := {VolRegime, HouseCvar, Concentration, Liquidity, SleeveCapital}

  /** No reason outside the five: said over the reasons alone. */
  lemma OnlyNamedReasons(ctx: GateContext)
    ensures (forall c: Check :: ShrinkReason(c, ctx) ==> c in NAMED_REDUCERS)
       <==> !ShrinkReason(MandateCheck, ctx) && !ShrinkReason(HouseDrawdown, ctx) && !ShrinkReason(Approval, ctx)
  {
  }

  /**
   * The gate's text lets only five checks shrink an order. For an allowed order that rule holds
   * exactly when the order fits the exposure cap whole, the ladder is at full size and no approval
   * is asked.
   */
  lemma FiveReduceExactlyWhen(ctx: GateContext)
    requires EngineShape(ctx) && NothingRaises(ctx) && Decide(ctx).Allowed()
    ensures (forall c: Check :: ReducesOn(c, ctx) ==> c in NAMED_REDUCERS)
       <==> (Held(ctx) + ProjectedNotional(ctx.request) <= ctx.mandate.maxTotalExposureUsd
             && ctx.ladder.sizeMultiplier >= 1.0 && !NeedsApproval(ctx))
  {
    OnlyNamedReasons(ctx);
    if c: Check :| ShrinkReason(c, ctx) && c !in NAMED_REDUCERS {
      ReducersExactly(ctx, c);
    } else {
      forall c: Check | ReducesOn(c, ctx) ensures c in NAMED_REDUCERS {
        ReducersExactly(ctx, c);
      }
    }
  }

  /** With no reason to shrink it, an allowed order keeps its whole risk. */
  lemma UnshrunkKeepsItsRisk(ctx: GateContext)
    requires EngineShape(ctx) && NothingRaises(ctx) && Decide(ctx).Allowed()
    requires forall c: Check :: !ShrinkReason(c, ctx)
    ensures EffectiveRisk(ctx) == ctx.request.requestedRiskPct
  {
    VerdictMeaning(ctx);
    forall c: Check ensures !ReducesOn(c, ctx) {
      ReducersExactly(ctx, c);
    }
  }

  /** The risk leaves nothing of what the check's cap has left: what each reducing check asks for. */
  predicate Exhausts(c: Check, ctx: GateContext, risk: real)
    requires ctx.request.stopDistance > 0.0
  {
    var usd, requested := ProjectedAt(ctx.request, risk), ctx.request.requestedRiskPct;
    match c
    case MandateCheck => Held(ctx) + usd == ctx.mandate.maxTotalExposureUsd
    case SleeveCapital => usd == SleeveRoom(ctx)
    case HouseDrawdown => risk == requested * ctx.ladder.sizeMultiplier
    case HouseCvar => ctx.es.valuePct + risk == EsBudget(ctx)
    case VolRegime => risk == requested * ctx.vol.scalar
    case Concentration => ExistingInName(ctx) + usd == NameCap(ctx)
    case Liquidity => usd == CapShares(ctx) * ctx.request.price
    case Approval => risk == requested
    case _ => false
  }

  /** What fits a room that the request exceeds fills it. */
  lemma FitFills(ctx: GateContext, room: real)
    requires EngineShape(ctx) && room > 0.0 && ProjectedNotional(ctx.request) > room
    ensures ProjectedAt(ctx.request, RiskToFit(ctx.request, room)) == room
  {
    RiskToFitExact(ctx.request, room);
  }

  lemma MoreSharesThanFit(usd: real, price: real, shares: real)
    requires price > 0.0 && usd / price > shares
    ensures usd > shares * price
  {
    DivLe(shares, usd, price);
  }

  lemma BookRoomsAreFilled(ctx: GateContext, c: Check)
    requires EngineShape(ctx) && ReducesOn(c, ctx) && c in {MandateCheck, SleeveCapital, Concentration}
    ensures Outcome(c, ctx).value.adjusted.Some? && Exhausts(c, ctx, Outcome(c, ctx).value.adjusted.value)
  {
    var room := match c
      case MandateCheck => ctx.mandate.maxTotalExposureUsd - Held(ctx)
      case SleeveCapital => SleeveRoom(ctx)
      case _ => NameCap(ctx) - ExistingInName(ctx);
    EngineProjects(ctx, room);
    FitFills(ctx, room);
  }

  lemma ParticipationIsFilled(ctx: GateContext)
    requires EngineShape(ctx) && ReducesOn(Liquidity, ctx)
    ensures Outcome(Liquidity, ctx).value.adjusted.Some?
      && Exhausts(Liquidity, ctx, Outcome(Liquidity, ctx).value.adjusted.value)
  {
    MoreSharesThanFit(ProjectedNotional(ctx.request), ctx.request.price, CapShares(ctx));
    EngineProjects(ctx, ParticipationRoom(ctx));
    FitFills(ctx, ParticipationRoom(ctx));
  }

  /** A check that shrinks an order leaves it exactly at the cap it enforces: no less and no more. */
  lemma ReductionExhausts(ctx: GateContext, c: Check)
    requires EngineShape(ctx) && ReducesOn(c, ctx)
    ensures Outcome(c, ctx).value.adjusted.Some? && Exhausts(c, ctx, Outcome(c, ctx).value.adjusted.value)
  {
    OrderStageReducers(ctx, c);
    if c in {MandateCheck, SleeveCapital, Concentration} {
      BookRoomsAreFilled(ctx, c);
    } else if c == Liquidity {
      ParticipationIsFilled(ctx);
    }
  }

  /** With one reason only, it is sized on what that check asks for. */
  lemma SoleReducerSetsTheRisk(ctx: GateContext, c0: Check)
    requires EngineShape(ctx) && NothingRaises(ctx) && Decide(ctx).Allowed()
    requires forall c: Check :: ShrinkReason(c, ctx) <==> c == c0
    ensures ReducesOn(c0, ctx) && Outcome(c0, ctx).value.adjusted.Some?
    ensures Outcome(c0, ctx).value.adjusted.value != 0.0 ==> EffectiveRisk(ctx) == Outcome(c0, ctx).value.adjusted.value
    ensures Exhausts(c0, ctx, Outcome(c0, ctx).value.adjusted.value)
  {
    VerdictMeaning(ctx);
    forall c: Check ensures ReducesOn(c, ctx) <==> c == c0 {
      ReducersExactly(ctx, c);
    }
    ReductionExhausts(ctx, c0);
    assert !BlocksOn(c0, ctx);
  }

  /** With several reasons the order is sized exactly at the cap of one of them, and within all the others. */
  lemma TightestReasonSetsTheRisk(ctx: GateContext, c0: Check)
    requires EngineShape(ctx) && NothingRaises(ctx) && IsRung(ctx.ladder) && Decide(ctx).Allowed()
    requires ShrinkReason(c0, ctx)
    ensures exists c: Check :: ShrinkReason(c, ctx) && Exhausts(c, ctx, EffectiveRisk(ctx))
    ensures forall c: Check :: ShrinkReason(c, ctx) ==>
      Outcome(c, ctx).Some? && Outcome(c, ctx).value.adjusted.Some?
      && EffectiveRisk(ctx) <= Outcome(c, ctx).value.adjusted.value
  {
    VerdictMeaning(ctx);
    EffectiveRiskIsTightest(ctx);
    ReducersExactly(ctx, c0);
    assert !BlocksOn(c0, ctx) && ReducesOn(c0, ctx);
    var c: Check :| ReducesOn(c, ctx) && Outcome(c, ctx).value.adjusted == Decide(ctx).adjusted;
    ReducersExactly(ctx, c);
    ReductionExhausts(ctx, c);
    ReductionNeverWidens(ctx, c);
    forall d: Check | ShrinkReason(d, ctx) ensures ReducesOn(d, ctx) {
      ReducersExactly(ctx, d);
    }
  }

  /**
   * VWAP_PULLBACK is listed both as a trend setup and as a reversion setup, so no day suits it: the
   * gate blocks it in every context, at either stage.
   */
  lemma VwapPullbackNeverPasses(ctx: GateContext)
    requires ctx.request.setup == VwapPullback
    ensures Decide(ctx).verdict == BLOCK
  {
    VerdictMeaning(ctx);
    RegimeBlocks(ctx);
    assert BlocksOn(MarketRegime, ctx);
  }

  /** Every other setup the engine scans has a day on which the regime check passes. */
  lemma OnlyVwapPullbackIsShutOut(ctx: GateContext)
    ensures (forall day: DayType :: CheckBlocks(CheckMarketRegime(ctx.(dayType := day))))
       <==> ctx.request.setup == VwapPullback
  {
    var trend, range_ := ctx.(dayType := TrendDay), ctx.(dayType := RangeDay);
    if ctx.request.setup != VwapPullback {
      assert !CheckBlocks(CheckMarketRegime(trend)) || !CheckBlocks(CheckMarketRegime(range_));
    }
  }
}
