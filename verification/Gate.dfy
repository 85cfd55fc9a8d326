/**
 * The house risk gate (signald/risk/gate.py): sixteen named checks, one verdict.
 *
 * Each check is a function from the context to an optional failure. `Evaluate` is the imperative
 * driver; `Decide` is the specification it is proved against.
 */
module Gate {
  import opened Prelude
  import opened RiskState
  import opened Ladder

  /** GATE_PRECEDENCE, in order (signald/contracts.py). `HaltCheck` is a vocabulary placeholder. */
  datatype Check =
    | MandateCheck | SleeveCapital | HouseDrawdown | HouseCvar | CorrelationStress | VolRegime
    | MarketRegime | KnifeGuard | Concentration | Liquidity | Cost | Wash | Shortability
    | DataCheck | TimeCheck | HaltCheck | Approval

  const PRECEDENCE: seq<Check> := [
    MandateCheck, SleeveCapital, HouseDrawdown, HouseCvar, CorrelationStress, VolRegime,
    MarketRegime, KnifeGuard, Concentration, Liquidity, Cost, Wash, Shortability,
    DataCheck, TimeCheck, HaltCheck, Approval]

  const REOPEN_COOLDOWN_S := 300.0
  const SECONDS_PER_DAY := 86400

  datatype Stage = SignalStage | OrderStage

  datatype ApprovalMode = ManualHighOrder | ApprovalRequired | OtherMode

  /** The mandate; `expires` is a day number. */
  datatype Mandate = Mandate(
    allowed: set<string>, shorts: bool, expires: int,
    maxNotionalPerOrderUsd: real, maxTotalExposureUsd: real, minCashReserveUsd: real,
    maxDailyTrades: int, approvalMode: ApprovalMode)

  datatype Config = Config(
    leverageCap: real, esBudgetHousePct: real, esBudgetSleevePct: real, clusterCapPct: real,
    maxSingleNamePctIntraday: real, maxSingleNamePctSwing: real,
    maxPositionsIntraday: nat, maxPositionsSwing: nat, intradayMaxTradesPerName: int,
    maxAdvPct: real, costGateMultiple: real, costLiquidBps: real, costLowfloatBps: real,
    minAdvShares: real, maxQuoteStalenessS: real, maxBarStalenessS: real,
    entryAfter: int, entryBefore: int, flatBy: int, approvalThresholdFactor: real)

  datatype Vol = Vol(scalar: real, warmupOk: bool)

  /** The expected-shortfall estimate; `available` is false for the "unavailable" estimator. */
  datatype ES = ES(valuePct: real, available: bool, windowDays: int)

  /** A producer invalidation; `level` is the parsed breach level when the text has one. */
  datatype Invalidation = Invalidation(level: Option<real>)

  datatype LastSignal = LastSignal(ticker: string, action: string, emittedAt: Option<int>)

  /**
   * Everything a check may read. `now` is in seconds, local midnight a multiple of a day.
   * `faults` names the checks that raise on this input (a field of the wrong type, say).
   */
  datatype GateContext = GateContext(
    request: RiskRequest, book: BookState, market: MarketState, mandate: Mandate, config: Config,
    now: nat, ladder: LadderState, vol: Vol, es: ES,
    sleeveCeilingPct: real, sleeveDeployedPct: real, dayType: DayType,
    timeGateOk: Option<bool>, otherSleeveSide: Option<Side>, washNets: bool,
    stage: Stage, referenceComplete: bool, referenceStale: bool,
    positionsValueUsd: Option<real>, decisionAgeDays: Option<int>, ingestWindowDays: real,
    liveInvalidations: seq<Invalidation>, lastSignal: Option<LastSignal>, cooldownHours: real,
    action: Option<string>, heldSymbols: Option<set<string>>, faults: set<Check>)

  datatype Kind = Block | Reduce

  datatype Failure = Failure(check: Check, kind: Kind, code: string, adjusted: Option<real>)

  datatype Verdict = ALLOW | REDUCE | BLOCK

  datatype GateDecision = GateDecision(
    verdict: Verdict, binding: Option<Check>, code: string, adjusted: Option<real>,
    approvalRequired: bool, failures: seq<Failure>)
  {
    predicate Allowed() {
      verdict != BLOCK
    }
  }

  function Blocks(c: Check, code: string): Option<Failure> {
    Some(Failure(c, Block, code, None))
  }

  function Reduces(c: Check, code: string, risk: real): Option<Failure> {
    Some(Failure(c, Reduce, code, Some(risk)))
  }

  /** The failure of a soft check: a reduction while signals are judged, a block once orders are. */
  function Soft(ctx: GateContext, c: Check, code: string): Option<Failure> {
    Some(Failure(c, if ctx.stage == SignalStage then Reduce else Block, code,
                 Some(ctx.request.requestedRiskPct)))
  }

  // ---- projections -------------------------------------------------------------------------

  /** How many dollars one unit of risk fraction buys: the projection is linear with this slope. */
  function Slope(req: RiskRequest): real {
    if req.stopDistance <= 0.0 || req.NotionalPerShare() <= 0.0 then 0.0
    else req.equity * req.NotionalPerShare() / req.stopDistance
  }

  function ProjectedNotional(req: RiskRequest): real {
    if req.plannedNotionalUsd.Some? then RMax(0.0, req.plannedNotionalUsd.value)
    else if req.stopDistance <= 0.0 || req.NotionalPerShare() <= 0.0 then 0.0
    else req.equity * req.requestedRiskPct * req.NotionalPerShare() / req.stopDistance
  }

  /** The projection inverted at `room` and cut to the request; zero without room. */
  function RiskToFit(req: RiskRequest, room: real): real {
    if room <= 0.0 then 0.0
    else if Slope(req) <= 0.0 then 0.0
    else RMax(0.0, RMin(req.requestedRiskPct, room / Slope(req)))
  }

  // ---- the checks --------------------------------------------------------------------------

  predicate ReducesAHeldName(ctx: GateContext) {
    && ctx.request.side == Sell && !ctx.request.opensShort
    && (if ctx.heldSymbols.Some? then ctx.request.symbol in ctx.heldSymbols.value
        else ctx.book.PositionFor(ctx.request.symbol) > 0.0)
  }

  function Held(ctx: GateContext): real {
    ctx.positionsValueUsd.GetOr(ctx.book.Notional())
  }

  function SleeveTrades(ctx: GateContext): nat {
    if ctx.request.sleeve in ctx.book.sleeveTradesToday
    then ctx.book.sleeveTradesToday[ctx.request.sleeve] else 0
  }

  function CheckMandate(ctx: GateContext): Option<Failure> {
    var req, m, book := ctx.request, ctx.mandate, ctx.book;
    if req.symbol !in m.allowed && !ReducesAHeldName(ctx) then Blocks(MandateCheck, "symbol")
    else if ctx.now / SECONDS_PER_DAY > m.expires then Blocks(MandateCheck, "expired")
    else if req.opensShort && !m.shorts then Blocks(MandateCheck, "shorts")
    else if m.maxDailyTrades > 0 && SleeveTrades(ctx) >= m.maxDailyTrades then
      Blocks(MandateCheck, "daily_cap")
    else if book.cash < m.minCashReserveUsd then Blocks(MandateCheck, "cash_reserve")
    else if !ctx.market.tradable then Blocks(MandateCheck, "not_tradable")
    else
      var projected := Held(ctx) + ProjectedNotional(req);
      if projected > m.maxTotalExposureUsd then
        var adjusted := RiskToFit(req, m.maxTotalExposureUsd - Held(ctx));
        if adjusted <= 0.0 then Blocks(MandateCheck, "exposure_cap")
        else Reduces(MandateCheck, "exposure_cap", adjusted)
      else if req.plannedNotionalUsd.Some?
           && req.plannedNotionalUsd.value > m.maxNotionalPerOrderUsd then
        var adjusted := RiskToFit(req, m.maxNotionalPerOrderUsd);
        if adjusted <= 0.0 then Blocks(MandateCheck, "order_cap")
        else Reduces(MandateCheck, "order_cap", adjusted)
      else if projected > ctx.config.leverageCap * book.equity then
        Blocks(MandateCheck, "leverage_cap")
      else if ctx.stage == SignalStage then CooldownFailure(ctx)
      else None
  }

  function CooldownFailure(ctx: GateContext): Option<Failure> {
    if ctx.lastSignal.None? || ctx.action.None? then None
    else
      var last := ctx.lastSignal.value;
      if last.ticker != ctx.request.symbol || last.action != ctx.action.value
         || last.emittedAt.None? then None
      else if IMax(0, ctx.now - last.emittedAt.value) as real / 3600.0 >= ctx.cooldownHours then None
      else Reduces(MandateCheck, "cooldown", ctx.request.requestedRiskPct)
  }

  function SleeveRoom(ctx: GateContext): real {
    ctx.sleeveCeilingPct * ctx.book.equity - ctx.sleeveDeployedPct * ctx.book.equity
  }

  function CheckSleeveCapital(ctx: GateContext): Option<Failure> {
    var room := SleeveRoom(ctx);
    if room <= 0.0 then Blocks(SleeveCapital, "sleeve_ceiling")
    else if ProjectedNotional(ctx.request) > room then
      var adjusted := RiskToFit(ctx.request, room);
      if adjusted <= 0.0 then Blocks(SleeveCapital, "no_room")
      else Reduces(SleeveCapital, "sleeve_ceiling", adjusted)
    else None
  }

  /** The requested risk at the ladder's house-wide scale. */
  function LadderRisk(ctx: GateContext): real {
    ctx.request.requestedRiskPct * ctx.ladder.sizeMultiplier
  }

  function CheckHouseDrawdown(ctx: GateContext): Option<Failure> {
    if ctx.ladder.halt then Blocks(HouseDrawdown, "halt")
    else if ctx.request.sleeve == Intraday && !ctx.ladder.allowNewIntraday then
      Blocks(HouseDrawdown, "no_new_intraday")
    else if ctx.ladder.sizeMultiplier < 1.0 then
      Reduces(HouseDrawdown, "ladder", LadderRisk(ctx))
    else None
  }

  function EsBudget(ctx: GateContext): real {
    RMin(ctx.config.esBudgetHousePct, ctx.config.esBudgetSleevePct)
  }

  function CheckHouseCvar(ctx: GateContext): Option<Failure> {
    if ctx.stage != OrderStage then None
    else if !ctx.es.available || ctx.es.windowDays <= 0 then Blocks(HouseCvar, "es_unavailable")
    else if ctx.es.valuePct + ctx.request.requestedRiskPct <= EsBudget(ctx) then None
    else
      var adjusted := RMax(0.0, EsBudget(ctx) - ctx.es.valuePct);
      if adjusted <= 0.0 then Blocks(HouseCvar, "es_budget")
      else Reduces(HouseCvar, "es_budget", adjusted)
  }

  function RequestKey(req: RiskRequest): string {
    KeyOf(req.cluster, req.sector, req.symbol)
  }

  function ClusterCap(ctx: GateContext): real {
    ctx.config.clusterCapPct * ctx.sleeveCeilingPct * ctx.book.equity
  }

  function CheckCorrelationStress(ctx: GateContext): Option<Failure> {
    if ctx.stage != OrderStage then None
    else if ctx.book.ClusterNotionalOf(RequestKey(ctx.request)) + ProjectedNotional(ctx.request)
            > ClusterCap(ctx) then Blocks(CorrelationStress, "cluster_cap")
    else None
  }

  /** The requested risk at the volatility scalar. */
  function VolScaledRisk(ctx: GateContext): real {
    ScaleBy(ctx.request.requestedRiskPct, ctx.vol.scalar)
  }

  function CheckVolRegime(ctx: GateContext): Option<Failure> {
    if ctx.vol.scalar >= 1.0 || !ctx.vol.warmupOk then None
    else if VolScaledRisk(ctx) <= 0.0 then Blocks(VolRegime, "vol_scalar_zero")
    else Reduces(VolRegime, "vol_above_target", VolScaledRisk(ctx))
  }

  predicate TrendSetup(s: Setup) {
    s == OrbRvol || s == GapGo || s == VwapPullback
  }

  predicate ReversionSetup(s: Setup) {
    s == VwapPullback || s == VwapRevert || s == GapFade
  }

  function CheckMarketRegime(ctx: GateContext): Option<Failure> {
    var setup := ctx.request.setup;
    if !TrendSetup(setup) && !ReversionSetup(setup) then None
    else if ctx.dayType == UnknownDay then Blocks(MarketRegime, "day_type_unknown")
    else if TrendSetup(setup) && ctx.dayType != TrendDay then Blocks(MarketRegime, "setup_regime")
    else if ReversionSetup(setup) && ctx.dayType != RangeDay then Blocks(MarketRegime, "setup_regime")
    else None
  }

  function AtrPct(m: MarketState): Option<real> {
    if m.atr.None? || m.last.None? || m.last.value <= 0.0 then None
    else Some(m.atr.value / m.last.value)
  }

  function CheckKnifeGuard(ctx: GateContext): Option<Failure> {
    var m := ctx.market;
    if !ReversionSetup(ctx.request.setup) then None
    else if m.newsShock then Blocks(KnifeGuard, "news_shock")
    else if m.reopenCooldownS.Some? && m.reopenCooldownS.value < REOPEN_COOLDOWN_S then
      Blocks(KnifeGuard, "reopen_cooldown")
    else if m.impulsePct.Some? && AtrPct(m).Some?
         && m.impulsePct.value <= -2.0 * AtrPct(m).value then Blocks(KnifeGuard, "adverse_impulse")
    else None
  }

  function NameCap(ctx: GateContext): real {
    (if ctx.request.sleeve == Intraday then ctx.config.maxSingleNamePctIntraday
     else ctx.config.maxSingleNamePctSwing) * ctx.book.equity
  }

  function ExistingInName(ctx: GateContext): real {
    RAbs(ctx.book.PositionFor(ctx.request.symbol)) * ctx.request.NotionalPerShare()
  }

  function MaxPositions(ctx: GateContext): nat {
    if ctx.request.sleeve == Intraday then ctx.config.maxPositionsIntraday
    else ctx.config.maxPositionsSwing
  }

  /** The position and trade counts, tested only when the name cap did not reduce. */
  predicate CountsExceeded(ctx: GateContext) {
    || (ctx.book.CountIn(ctx.request.sleeve) >= MaxPositions(ctx)
        && ctx.book.PositionFor(ctx.request.symbol) == 0.0)
    || ctx.book.Count() >= ctx.config.maxPositionsSwing + ctx.config.maxPositionsIntraday
    || (ctx.request.sleeve == Intraday && ctx.config.intradayMaxTradesPerName > 0
        && ctx.book.TradesFor(ctx.request.symbol) >= ctx.config.intradayMaxTradesPerName)
  }

  function CheckConcentration(ctx: GateContext): Option<Failure> {
    if ctx.stage != OrderStage then None
    else if ExistingInName(ctx) + ProjectedNotional(ctx.request) > NameCap(ctx) then
      var adjusted := RiskToFit(ctx.request, NameCap(ctx) - ExistingInName(ctx));
      if adjusted <= 0.0 then Blocks(Concentration, "single_name_cap")
      else Reduces(Concentration, "single_name_cap", adjusted)
    else if ctx.book.CountIn(ctx.request.sleeve) >= MaxPositions(ctx)
         && ctx.book.PositionFor(ctx.request.symbol) == 0.0 then
      Blocks(Concentration, "max_positions")
    else if ctx.book.Count() >= ctx.config.maxPositionsSwing + ctx.config.maxPositionsIntraday then
      Blocks(Concentration, "max_positions")
    else if ctx.request.sleeve == Intraday && ctx.config.intradayMaxTradesPerName > 0
         && ctx.book.TradesFor(ctx.request.symbol) >= ctx.config.intradayMaxTradesPerName then
      Blocks(Concentration, "max_trades_per_name")
    else None
  }

  function CapShares(ctx: GateContext): real {
    ctx.config.maxAdvPct * ctx.market.advShares.GetOr(0.0)
  }

  /** The participation cap in dollars. */
  function ParticipationRoom(ctx: GateContext): real {
    CapShares(ctx) * ctx.request.NotionalPerShare()
  }

  /** Shares the request projects to. */
  function ProjectedShares(req: RiskRequest): real
    requires req.NotionalPerShare() > 0.0
  {
    ProjectedNotional(req) / req.NotionalPerShare()
  }

  function CheckLiquidity(ctx: GateContext): Option<Failure> {
    var req, m := ctx.request, ctx.market;
    if ctx.stage != OrderStage then
      if m.SpreadBlown() then Blocks(Liquidity, "spread_blowout") else None
    else if req.NotionalPerShare() <= 0.0 || m.last.None? then Blocks(Liquidity, "no_price")
    else if m.advShares.None? || m.advShares.value <= 0.0 then Blocks(Liquidity, "no_adv")
    else if ProjectedShares(req) > CapShares(ctx) then
      var adjusted := RiskToFit(req, ParticipationRoom(ctx));
      if adjusted <= 0.0 then Blocks(Liquidity, "participation")
      else Reduces(Liquidity, "participation", adjusted)
    else if m.SpreadBlown() then Blocks(Liquidity, "spread_blowout")
    else None
  }

  function RoundTripCostBps(ctx: GateContext): real {
    if ctx.request.roundTripCostBps.Some? && ctx.request.roundTripCostBps.value != 0.0 then
      ctx.request.roundTripCostBps.value
    else if ctx.market.advShares.Some? && ctx.market.advShares.value < ctx.config.minAdvShares then
      ctx.config.costLowfloatBps
    else ctx.config.costLiquidBps
  }

  function CheckCost(ctx: GateContext): Option<Failure> {
    if ctx.stage != OrderStage then None
    else if ctx.request.measuredMoveBps.None? then Blocks(Cost, "no_move")
    else if RoundTripCostBps(ctx) <= 0.0 then Blocks(Cost, "no_cost")
    else if ctx.request.measuredMoveBps.value <= ctx.config.costGateMultiple * RoundTripCostBps(ctx) then
      Blocks(Cost, "cost_gate")
    else None
  }

  function CheckWash(ctx: GateContext): Option<Failure> {
    if ctx.otherSleeveSide.None? || ctx.otherSleeveSide.value == ctx.request.side then None
    else if ctx.washNets then None
    else Blocks(Wash, "self_cross")
  }

  function CheckShortability(ctx: GateContext): Option<Failure> {
    if !ctx.request.opensShort then None
    else if !ctx.mandate.shorts then Blocks(Shortability, "shorts_off")
    else if !ctx.market.shortable then Blocks(Shortability, "not_etb")
    else if ctx.market.ssr then Blocks(Shortability, "ssr")
    else None
  }

  /** The first invalidation that blocks or downgrades, in list order. */
  function InvalidationFailure(ctx: GateContext, invs: seq<Invalidation>): Option<Failure> {
    if invs == [] then None
    else if invs[0].level.Some? && ctx.market.last.Some? then
      if ctx.market.last.value <= invs[0].level.value then Blocks(DataCheck, "invalidation")
      else InvalidationFailure(ctx, invs[1..])
    else if ctx.stage == SignalStage then
      Reduces(DataCheck, "invalidation_advisory", ctx.request.requestedRiskPct)
    else InvalidationFailure(ctx, invs[1..])
  }

  function CheckData(ctx: GateContext): Option<Failure> {
    var m, cfg := ctx.market, ctx.config;
    if !ctx.referenceComplete then Blocks(DataCheck, "reference_incomplete")
    else if m.dataQuality == Partial then Soft(ctx, DataCheck, "data_quality_partial")
    else if m.dataQuality != Fresh then Blocks(DataCheck, "data_quality")
    else if ctx.referenceStale then Soft(ctx, DataCheck, "reference_stale")
    else if m.quoteAgeS.Some? && m.quoteAgeS.value > cfg.maxQuoteStalenessS then
      Blocks(DataCheck, "stale_quote")
    else if m.barAgeS.Some? && m.barAgeS.value > cfg.maxBarStalenessS then
      Blocks(DataCheck, "stale_bar")
    else if !m.caliberKnown then Soft(ctx, DataCheck, "price_caliber")
    else if ctx.decisionAgeDays.Some?
         && ctx.decisionAgeDays.value as real > ctx.ingestWindowDays then
      Blocks(DataCheck, "ingest_window")
    else
      var breach := InvalidationFailure(ctx, ctx.liveInvalidations);
      if breach.Some? then breach
      else if ctx.request.stopPrice.None? then Soft(ctx, DataCheck, "no_stop")
      else None
  }

  function CheckTime(ctx: GateContext): Option<Failure> {
    var at, cfg := ctx.now % SECONDS_PER_DAY, ctx.config;
    if ctx.market.halted then Blocks(HaltCheck, "halted")
    else if ctx.market.session != Trading then
      if ctx.stage == SignalStage then
        Reduces(TimeCheck, "market_closed", ctx.request.requestedRiskPct)
      else Blocks(TimeCheck, "session")
    else if ctx.request.sleeve != Intraday then None
    else if at < cfg.entryAfter then Blocks(TimeCheck, "too_early")
    else if at > cfg.entryBefore then
      if at > cfg.flatBy then Blocks(TimeCheck, "after_flat_by") else Blocks(TimeCheck, "too_late")
    else if ctx.timeGateOk == Some(false) then Blocks(TimeCheck, "time_gate")
    else None
  }

  function CheckApproval(ctx: GateContext): Option<Failure> {
    var threshold := ctx.mandate.maxNotionalPerOrderUsd * ctx.config.approvalThresholdFactor;
    if ctx.mandate.approvalMode != OtherMode && ProjectedNotional(ctx.request) >= threshold then
      Reduces(Approval, "approval_required", ctx.request.requestedRiskPct)
    else None
  }

  /** The CHECKS table. */
  function RunCheck(c: Check, ctx: GateContext): Option<Failure> {
    match c
    case MandateCheck => CheckMandate(ctx)
    case SleeveCapital => CheckSleeveCapital(ctx)
    case HouseDrawdown => CheckHouseDrawdown(ctx)
    case HouseCvar => CheckHouseCvar(ctx)
    case CorrelationStress => CheckCorrelationStress(ctx)
    case VolRegime => CheckVolRegime(ctx)
    case MarketRegime => CheckMarketRegime(ctx)
    case KnifeGuard => CheckKnifeGuard(ctx)
    case Concentration => CheckConcentration(ctx)
    case Liquidity => CheckLiquidity(ctx)
    case Cost => CheckCost(ctx)
    case Wash => CheckWash(ctx)
    case Shortability => CheckShortability(ctx)
    case DataCheck => CheckData(ctx)
    case TimeCheck => CheckTime(ctx)
    case Approval => CheckApproval(ctx)
    case HaltCheck => None
  }

  /** One guarded table entry: no entry passes, a raising check blocks. */
  function Outcome(c: Check, ctx: GateContext): Option<Failure> {
    if c == HaltCheck then None
    else if c in ctx.faults then Blocks(c, "check_error")
    else RunCheck(c, ctx)
  }

  // ---- the verdict -------------------------------------------------------------------------

  /** The whole table on one context. */
  function Outcomes(ctx: GateContext): Check -> Option<Failure> {
    c => Outcome(c, ctx)
  }

  /** The failures of the named checks, in order. */
  function Collect(names: seq<Check>, out: Check -> Option<Failure>): seq<Failure> {
    if names == [] then []
    else
      var rest := Collect(names[..|names| - 1], out);
      var o := out(names[|names| - 1]);
      if o.Some? then rest + [o.value] else rest
  }

  function OfKind(fs: seq<Failure>, k: Kind): seq<Failure> {
    if fs == [] then []
    else
      var rest := OfKind(fs[..|fs| - 1], k);
      if fs[|fs| - 1].kind == k then rest + [fs[|fs| - 1]] else rest
  }

  /** The minimum over the adjusted risks that are present; `None` when none is. */
  function MinAdjusted(fs: seq<Failure>): Option<real> {
    if fs == [] then None
    else
      var rest := MinAdjusted(fs[..|fs| - 1]);
      var last := fs[|fs| - 1].adjusted;
      if last.None? then rest
      else if rest.None? then last
      else Some(RMin(rest.value, last.value))
  }

  function DecideFrom(ordered: seq<Failure>): GateDecision {
    var blocks, reduces := OfKind(ordered, Block), OfKind(ordered, Reduce);
    var approval := exists f :: f in ordered && f.check == Approval;
    if blocks != [] then
      GateDecision(BLOCK, Some(blocks[0].check), blocks[0].code, None, approval, ordered)
    else if reduces != [] then
      GateDecision(REDUCE, Some(reduces[0].check), reduces[0].code, MinAdjusted(reduces),
                   approval, ordered)
    else GateDecision(ALLOW, None, "ok", None, approval, ordered)
  }

  function Decide(ctx: GateContext): GateDecision {
    DecideFrom(Collect(PRECEDENCE, Outcomes(ctx)))
  }

  lemma PrecedenceDistinct()
    ensures forall i, j :: 0 <= i < j < |PRECEDENCE| ==> PRECEDENCE[i] != PRECEDENCE[j]
    ensures forall c: Check :: c in PRECEDENCE
  {
    forall c: Check ensures c in PRECEDENCE {
      match c
      case MandateCheck => assert PRECEDENCE[0] == c;
      case SleeveCapital => assert PRECEDENCE[1] == c;
      case HouseDrawdown => assert PRECEDENCE[2] == c;
      case HouseCvar => assert PRECEDENCE[3] == c;
      case CorrelationStress => assert PRECEDENCE[4] == c;
      case VolRegime => assert PRECEDENCE[5] == c;
      case MarketRegime => assert PRECEDENCE[6] == c;
      case KnifeGuard => assert PRECEDENCE[7] == c;
      case Concentration => assert PRECEDENCE[8] == c;
      case Liquidity => assert PRECEDENCE[9] == c;
      case Cost => assert PRECEDENCE[10] == c;
      case Wash => assert PRECEDENCE[11] == c;
      case Shortability => assert PRECEDENCE[12] == c;
      case DataCheck => assert PRECEDENCE[13] == c;
      case TimeCheck => assert PRECEDENCE[14] == c;
      case HaltCheck => assert PRECEDENCE[15] == c;
      case Approval => assert PRECEDENCE[16] == c;
    }
  }

  /** `evaluate`, first half: fill the failures dict in precedence order, then list it in order. */
  method RunAll(out: Check -> Option<Failure>) returns (ordered: seq<Failure>)
    ensures ordered == Collect(PRECEDENCE, out)
  {
    PrecedenceDistinct();
    var failures: map<Check, Failure> := map[];
    for i := 0 to |PRECEDENCE|
      invariant forall c :: c in failures <==> c in PRECEDENCE[..i] && out(c).Some?
      invariant forall c :: c in failures ==> Some(failures[c]) == out(c)
    {
      var name := PRECEDENCE[i];
      var failure := out(name);
      if failure.Some? {
        failures := failures[name := failure.value];
      }
    }
    ordered := [];
    for i := 0 to |PRECEDENCE|
      invariant ordered == Collect(PRECEDENCE[..i], out)
    {
      assert PRECEDENCE[..i + 1][..i] == PRECEDENCE[..i];
      if PRECEDENCE[i] in failures {
        ordered := ordered + [failures[PRECEDENCE[i]]];
      }
    }
    assert PRECEDENCE[..|PRECEDENCE|] == PRECEDENCE;
  }

  /** `evaluate`, second half: split by kind, merge the reductions by a minimum, pick the verdict. */
  method Merge(ordered: seq<Failure>) returns (d: GateDecision)
    ensures d == DecideFrom(ordered)
  {
    var blocks: seq<Failure>, reduces: seq<Failure> := [], [];
    var approval := false;
    var adjusted: Option<real> := None;
    for i := 0 to |ordered|
      invariant blocks == OfKind(ordered[..i], Block) && reduces == OfKind(ordered[..i], Reduce)
      invariant adjusted == MinAdjusted(reduces)
      invariant approval == exists f :: f in ordered[..i] && f.check == Approval
    {
      assert ordered[..i + 1][..i] == ordered[..i];
      var f := ordered[i];
      if f.kind == Block {
        blocks := blocks + [f];
      } else {
        if f.adjusted.Some? {
          adjusted := if adjusted.None? then f.adjusted
                      else Some(RMin(adjusted.value, f.adjusted.value));
        }
        assert (reduces + [f])[..|reduces|] == reduces;
        reduces := reduces + [f];
      }
      approval := approval || f.check == Approval;
    }
    assert ordered[..|ordered|] == ordered;
    if blocks != [] {
      d := GateDecision(BLOCK, Some(blocks[0].check), blocks[0].code, None, approval, ordered);
    } else if reduces != [] {
      d := GateDecision(REDUCE, Some(reduces[0].check), reduces[0].code, adjusted, approval, ordered);
    } else {
      d := GateDecision(ALLOW, None, "ok", None, approval, ordered);
    }
  }

  /** `evaluate`: every check runs, the verdict is `Decide`. */
  method Evaluate(ctx: GateContext) returns (d: GateDecision)
    ensures d == Decide(ctx)
  {
    var ordered := RunAll(Outcomes(ctx));
    d := Merge(ordered);
  }
}
