/**
 * What the gate's reason codes say: a code never names a ground that does not hold, whatever else is
 * wrong with the order or the signal.
 */
module GateReasons {
  import opened Prelude
  import opened RiskState
  import opened Ladder
  import opened Gate
  import opened GateVerdict
  import opened GateAdmission
  import opened GateSignal

  predicate MandateGrounds(code: string, ctx: GateContext) {
    var req, m, projected := ctx.request, ctx.mandate, Held(ctx) + ProjectedNotional(ctx.request);
    || (code == "symbol" && req.symbol !in m.allowed && !ReducesAHeldName(ctx))
    || (code == "expired" && ctx.now / SECONDS_PER_DAY > m.expires)
    || (code == "shorts" && req.opensShort && !m.shorts)
    || (code == "daily_cap" && m.maxDailyTrades > 0 && SleeveTrades(ctx) >= m.maxDailyTrades)
    || (code == "cash_reserve" && ctx.book.cash < m.minCashReserveUsd)
    || (code == "not_tradable" && !ctx.market.tradable)
    || (code == "exposure_cap" && projected > m.maxTotalExposureUsd)
    || (code == "order_cap" && OverOrderCap(ctx))
    || (code == "leverage_cap" && projected > ctx.config.leverageCap * ctx.book.equity)
    || (code == "cooldown" && ctx.stage == SignalStage && Cooling(ctx))
  }

  predicate HouseGrounds(c: Check, code: string, ctx: GateContext) {
    match c
    case SleeveCapital =>
      || (code == "sleeve_ceiling" && (SleeveRoom(ctx) <= 0.0 || ProjectedNotional(ctx.request) > SleeveRoom(ctx)))
      || (code == "no_room" && ProjectedNotional(ctx.request) > SleeveRoom(ctx))
    case HouseDrawdown =>
      || (code == "halt" && ctx.ladder.halt)
      || (code == "no_new_intraday" && ctx.request.sleeve == Intraday && !ctx.ladder.allowNewIntraday)
      || (code == "ladder" && ctx.ladder.sizeMultiplier < 1.0)
    case HouseCvar =>
      || (code == "es_unavailable" && (!ctx.es.available || ctx.es.windowDays <= 0))
      || (code == "es_budget" && ctx.es.valuePct + ctx.request.requestedRiskPct > EsBudget(ctx))
    case CorrelationStress =>
      code == "cluster_cap"
      && ctx.book.ClusterNotionalOf(RequestKey(ctx.request)) + ProjectedNotional(ctx.request) > ClusterCap(ctx)
    case VolRegime =>
      ctx.vol.warmupOk && ctx.vol.scalar < 1.0
      && (code == "vol_above_target" || (code == "vol_scalar_zero" && VolScaledRisk(ctx) <= 0.0))
    case _ => false
  }

  predicate MarketGrounds(c: Check, code: string, ctx: GateContext) {
    var setup, m := ctx.request.setup, ctx.market;
    match c
    case MarketRegime =>
      || (code == "day_type_unknown" && ctx.dayType == UnknownDay)
      || (code == "setup_regime" && ((TrendSetup(setup) && ctx.dayType == RangeDay)
                                     || (ReversionSetup(setup) && ctx.dayType == TrendDay)))
    case KnifeGuard =>
      ReversionSetup(setup)
      && (|| (code == "news_shock" && m.newsShock)
          || (code == "reopen_cooldown" && m.reopenCooldownS.Some? && m.reopenCooldownS.value < REOPEN_COOLDOWN_S)
          || (code == "adverse_impulse" && m.impulsePct.Some? && AtrPct(m).Some?
              && m.impulsePct.value <= -2.0 * AtrPct(m).value))
    case Concentration =>
      || (code == "single_name_cap" && ExistingInName(ctx) + ProjectedNotional(ctx.request) > NameCap(ctx))
      || (code in {"max_positions", "max_trades_per_name"} && CountsExceeded(ctx))
    case Liquidity =>
      || (code == "spread_blowout" && m.SpreadBlown())
      || (code == "no_price" && (ctx.request.price == 0.0 || m.last.None?))
      || (code == "no_adv" && (m.advShares.None? || m.advShares.value <= 0.0))
      || (code == "participation" && ctx.request.NotionalPerShare() > 0.0
          && ProjectedShares(ctx.request) > CapShares(ctx))
    case _ => false
  }

  predicate VenueGrounds(c: Check, code: string, ctx: GateContext) {
    var req, m := ctx.request, ctx.market;
    match c
    case Cost =>
      || (code == "no_move" && req.measuredMoveBps.None?)
      || (code == "no_cost" && RoundTripCostBps(ctx) <= 0.0)
      || (code == "cost_gate" && req.measuredMoveBps.Some?
          && req.measuredMoveBps.value <= ctx.config.costGateMultiple * RoundTripCostBps(ctx))
    case Wash => code == "self_cross" && !NoSelfCross(ctx)
    case Shortability =>
      req.opensShort
      && (|| (code == "shorts_off" && !ctx.mandate.shorts) || (code == "not_etb" && !m.shortable)
          || (code == "ssr" && m.ssr))
    case Approval => code == "approval_required" && NeedsApproval(ctx)
    case _ => false
  }

  predicate DataGrounds(code: string, ctx: GateContext) {
    var m, cfg := ctx.market, ctx.config;
    || (code == "reference_incomplete" && !ctx.referenceComplete)
    || (code == "data_quality_partial" && m.dataQuality == Partial)
    || (code == "data_quality" && m.dataQuality != Partial && m.dataQuality != Fresh)
    || (code == "reference_stale" && ctx.referenceStale)
    || (code == "stale_quote" && m.quoteAgeS.Some? && m.quoteAgeS.value > cfg.maxQuoteStalenessS)
    || (code == "stale_bar" && m.barAgeS.Some? && m.barAgeS.value > cfg.maxBarStalenessS)
    || (code == "price_caliber" && !m.caliberKnown)
    || (code == "ingest_window" && ctx.decisionAgeDays.Some?
        && ctx.decisionAgeDays.value as real > ctx.ingestWindowDays)
    || (code == "invalidation"
        && exists i :: 0 <= i < |ctx.liveInvalidations| && Breached(ctx, ctx.liveInvalidations[i]))
    || (code == "invalidation_advisory" && ctx.stage == SignalStage
        && exists i :: 0 <= i < |ctx.liveInvalidations| && Advisory(ctx, ctx.liveInvalidations[i]))
    || (code == "no_stop" && ctx.request.stopPrice.None?)
  }

  predicate TimeGrounds(code: string, ctx: GateContext) {
    var at, cfg := ctx.now % SECONDS_PER_DAY, ctx.config;
    || (code == "halted" && ctx.market.halted)
    || (code == "market_closed" && ctx.market.session != Trading && ctx.stage == SignalStage)
    || (code == "session" && ctx.market.session != Trading && ctx.stage == OrderStage)
    || (ctx.request.sleeve == Intraday
        && (|| (code == "too_early" && at < cfg.entryAfter)
            || (code == "too_late" && at > cfg.entryBefore && at <= cfg.flatBy)
            || (code == "after_flat_by" && at > cfg.entryBefore && at > cfg.flatBy)
            || (code == "time_gate" && ctx.timeGateOk == Some(false))))
  }

  /** The ground a code claims, check by check. */
  predicate Grounds(c: Check, code: string, ctx: GateContext) {
    match c
    case MandateCheck => MandateGrounds(code, ctx)
    case SleeveCapital => HouseGrounds(c, code, ctx)
    case HouseDrawdown => HouseGrounds(c, code, ctx)
    case HouseCvar => HouseGrounds(c, code, ctx)
    case CorrelationStress => HouseGrounds(c, code, ctx)
    case VolRegime => HouseGrounds(c, code, ctx)
    case MarketRegime => MarketGrounds(c, code, ctx)
    case KnifeGuard => MarketGrounds(c, code, ctx)
    case Concentration => MarketGrounds(c, code, ctx)
    case Liquidity => MarketGrounds(c, code, ctx)
    case DataCheck => DataGrounds(code, ctx)
    case TimeCheck => TimeGrounds(code, ctx)
    case HaltCheck => false
    case _ => VenueGrounds(c, code, ctx)
  }

  lemma MandateIsGrounded(ctx: GateContext)
    ensures var o := CheckMandate(ctx);
      o.Some? ==> o.value.check == MandateCheck && MandateGrounds(o.value.code, ctx)
  {
    CoolingExactly(ctx);
  }

  lemma HouseIsGrounded(c: Check, ctx: GateContext)
    requires c in {SleeveCapital, HouseDrawdown, HouseCvar, CorrelationStress, VolRegime}
    ensures var o := RunCheck(c, ctx);
      o.Some? ==> o.value.check == c && HouseGrounds(c, o.value.code, ctx)
  {
  }

  lemma MarketIsGrounded(c: Check, ctx: GateContext)
    requires c in {MarketRegime, KnifeGuard, Concentration, Liquidity}
    ensures var o := RunCheck(c, ctx);
      o.Some? ==> o.value.check == c && MarketGrounds(c, o.value.code, ctx)
  {
  }

  lemma VenueIsGrounded(c: Check, ctx: GateContext)
    requires c in {Cost, Wash, Shortability, Approval}
    ensures var o := RunCheck(c, ctx);
      o.Some? ==> o.value.check == c && VenueGrounds(c, o.value.code, ctx)
  {
  }

  lemma {:induction false} InvalidationIsGrounded(ctx: GateContext, n: nat)
    requires n <= |ctx.liveInvalidations|
    ensures var o := InvalidationFailure(ctx, ctx.liveInvalidations[n..]);
      o.Some? ==> o.value.check == DataCheck && DataGrounds(o.value.code, ctx)
    decreases |ctx.liveInvalidations| - n
  {
    var invs := ctx.liveInvalidations[n..];
    if invs != [] {
      assert invs[0] == ctx.liveInvalidations[n] && invs[1..] == ctx.liveInvalidations[n + 1..];
      InvalidationIsGrounded(ctx, n + 1);
    }
  }

  lemma DataIsGrounded(ctx: GateContext)
    ensures var o := CheckData(ctx);
      o.Some? ==> o.value.check == DataCheck && DataGrounds(o.value.code, ctx)
  {
    InvalidationIsGrounded(ctx, 0);
    assert ctx.liveInvalidations[0..] == ctx.liveInvalidations;
  }

  lemma TimeIsGrounded(ctx: GateContext)
    ensures var o := CheckTime(ctx);
      && (o.Some? ==> TimeGrounds(o.value.code, ctx))
      && (o.Some? ==> o.value.check == if ctx.market.halted then HaltCheck else TimeCheck)
  {
  }

  /**
   * A failure is filed under its own check, a halt under the halt, and its code names a ground that
   * holds; a check that raises says so, and nothing else does.
   */
  lemma CodesAreGrounded(c: Check, ctx: GateContext)
    requires Outcome(c, ctx).Some?
    ensures var f := Outcome(c, ctx).value;
      && (f.check == c || (c == TimeCheck && ctx.market.halted && f.check == HaltCheck))
      && if c in ctx.faults then f == Failure(c, Block, "check_error", None) else Grounds(c, f.code, ctx)
  {
    if c !in ctx.faults {
      match c
      case MandateCheck => MandateIsGrounded(ctx);
      case DataCheck => DataIsGrounded(ctx);
      case TimeCheck => TimeIsGrounded(ctx);
      case _ => TableIsGrounded(c, ctx);
    }
  }

  lemma TableIsGrounded(c: Check, ctx: GateContext)
    requires RunCheck(c, ctx).Some? && c !in {MandateCheck, DataCheck, TimeCheck}
    ensures RunCheck(c, ctx).value.check == c && Grounds(c, RunCheck(c, ctx).value.code, ctx)
  {
    if c in {SleeveCapital, HouseDrawdown, HouseCvar, CorrelationStress, VolRegime} {
      HouseIsGrounded(c, ctx);
    } else if c in {MarketRegime, KnifeGuard, Concentration, Liquidity} {
      MarketIsGrounded(c, ctx);
    } else {
      VenueIsGrounded(c, ctx);
    }
  }
}
