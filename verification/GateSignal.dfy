/**
 * The same gate one stage earlier: which research signals it passes and which it downgrades. At this
 * stage there is no quantity, so five checks stand aside, and a soft failure downgrades where it
 * blocks an order.
 */
module GateSignal {
  import opened Prelude
  import opened RiskState
  import opened Ladder
  import opened Gate
  import opened GateVerdict
  import opened GateAdmission

  predicate IsSignal(ctx: GateContext) {
    ctx.stage == SignalStage && NothingRaises(ctx)
  }

  // ---- the conditions --------------------------------------------------------------------------

  /** Some positive risk fits the room: there is room, a request, and equity, a price and a stop to size it on. */
  predicate CanFit(req: RiskRequest, room: real) {
    room > 0.0 && req.requestedRiskPct > 0.0 && req.equity > 0.0 && req.price != 0.0 && req.stopDistance > 0.0
  }

  predicate OverOrderCap(ctx: GateContext) {
    var planned := ctx.request.plannedNotionalUsd;
    planned.Some? && planned.value > ctx.mandate.maxNotionalPerOrderUsd
  }

  /** The exposure cap is asked first, then the order cap, and leverage only inside both. */
  predicate SignalExposure(ctx: GateContext) {
    var projected := Held(ctx) + ProjectedNotional(ctx.request);
    && (projected > ctx.mandate.maxTotalExposureUsd ==>
          CanFit(ctx.request, ctx.mandate.maxTotalExposureUsd - Held(ctx)))
    && (projected <= ctx.mandate.maxTotalExposureUsd ==>
          if OverOrderCap(ctx) then CanFit(ctx.request, ctx.mandate.maxNotionalPerOrderUsd)
          else projected <= ctx.config.leverageCap * ctx.book.equity)
  }

  predicate SignalSleeve(ctx: GateContext) {
    && SleeveRoom(ctx) > 0.0
    && (ProjectedNotional(ctx.request) > SleeveRoom(ctx) ==> CanFit(ctx.request, SleeveRoom(ctx)))
  }

  predicate SignalHouse(ctx: GateContext) {
    && !ctx.ladder.halt && (ctx.request.sleeve == Intraday ==> ctx.ladder.allowNewIntraday)
    && (ctx.vol.warmupOk && ctx.vol.scalar < 1.0 ==> ctx.request.requestedRiskPct > 0.0 && ctx.vol.scalar > 0.0)
  }

  /** An invalidation that cannot be judged: it names no level, or there is no price. */
  predicate Advisory(ctx: GateContext, inv: Invalidation) {
    inv.level.None? || ctx.market.last.None?
  }

  /** No breach comes before the first invalidation that cannot be judged. */
  predicate Unbreached(ctx: GateContext, invs: seq<Invalidation>) {
    forall i :: 0 <= i < |invs| && Breached(ctx, invs[i]) ==> exists j :: 0 <= j < i && Advisory(ctx, invs[j])
  }

  /** A soft failure hides the tests behind it: each line is asked of a signal the lines above left unmarked. */
  predicate SignalData(ctx: GateContext) {
    var m := ctx.market;
    var reference := m.dataQuality == Fresh && !ctx.referenceStale;
    && ctx.referenceComplete && (m.dataQuality == Fresh || m.dataQuality == Partial)
    && (reference ==>
          && (m.quoteAgeS.Some? ==> m.quoteAgeS.value <= ctx.config.maxQuoteStalenessS)
          && (m.barAgeS.Some? ==> m.barAgeS.value <= ctx.config.maxBarStalenessS))
    && (reference && m.caliberKnown ==>
          && (ctx.decisionAgeDays.Some? ==> ctx.decisionAgeDays.value as real <= ctx.ingestWindowDays)
          && Unbreached(ctx, ctx.liveInvalidations))
  }

  /** A closed market only downgrades; the intraday window is asked of an open one. */
  predicate SignalHours(ctx: GateContext) {
    var at := ctx.now % SECONDS_PER_DAY;
    && !ctx.market.halted
    && (ctx.market.session == Trading && ctx.request.sleeve == Intraday ==>
          ctx.config.entryAfter <= at <= ctx.config.entryBefore && ctx.timeGateOk != Some(false))
  }

  predicate SignalAdmissible(ctx: GateContext) {
    && Mandated(ctx) && ShortAllowed(ctx) && SignalExposure(ctx) && SignalSleeve(ctx) && SignalHouse(ctx)
    && RegimeFits(ctx) && !ctx.market.SpreadBlown() && NoSelfCross(ctx) && SignalData(ctx) && SignalHours(ctx)
  }

  // ---- check by check --------------------------------------------------------------------------

  lemma SlopeSign(req: RiskRequest)
    ensures Slope(req) > 0.0 <==> req.equity > 0.0 && req.price != 0.0 && req.stopDistance > 0.0
  {
    if req.stopDistance > 0.0 && req.price != 0.0 { SignOfShare(req.equity, req.NotionalPerShare(), req.stopDistance); }
  }

  lemma SignOfShare(equity: real, price: real, stop: real)
    requires price > 0.0 && stop > 0.0
    ensures equity * price / stop > 0.0 <==> equity > 0.0
  {
    var share := equity * price / stop;
    if equity > 0.0 { MulPositive(equity, price); } else { MulMono(equity, 0.0, price); }
    assert share * stop == equity * price;
    if share > 0.0 { MulPositive(share, stop); } else { MulMono(share, 0.0, stop); }
  }

  lemma FitsSome(req: RiskRequest, room: real)
    ensures RiskToFit(req, room) > 0.0 <==> CanFit(req, room)
  {
    SlopeSign(req);
    if room > 0.0 && Slope(req) > 0.0 {
      var share := room / Slope(req);
      if share <= 0.0 { MulMono(share, 0.0, Slope(req)); }
    }
  }

  lemma SignalMandate(ctx: GateContext)
    requires ctx.stage == SignalStage
    ensures !CheckBlocks(CheckMandate(ctx)) <==>
      Mandated(ctx) && (ctx.request.opensShort ==> ctx.mandate.shorts) && SignalExposure(ctx)
  {
    FitsSome(ctx.request, ctx.mandate.maxTotalExposureUsd - Held(ctx));
    FitsSome(ctx.request, ctx.mandate.maxNotionalPerOrderUsd);
  }

  lemma SignalSleeveBlocks(ctx: GateContext)
    ensures !CheckBlocks(CheckSleeveCapital(ctx)) <==> SignalSleeve(ctx)
  {
    FitsSome(ctx.request, SleeveRoom(ctx));
  }

  lemma ScaledSign(risk: real, scalar: real)
    ensures ScaleBy(risk, scalar) > 0.0 <==> risk > 0.0 && scalar > 0.0
  {
    if risk > 0.0 {
      VolSign(risk, scalar);
    } else {
      MulMono(risk, 0.0, RMax(0.0, scalar));
    }
  }

  lemma SignalHouseBlocks(ctx: GateContext)
    requires ctx.stage == SignalStage
    ensures (!CheckBlocks(CheckHouseDrawdown(ctx)) && !CheckBlocks(CheckHouseCvar(ctx))
             && !CheckBlocks(CheckVolRegime(ctx))) <==> SignalHouse(ctx)
  {
    ScaledSign(ctx.request.requestedRiskPct, ctx.vol.scalar);
  }

  lemma {:induction false} SignalInvalidations(ctx: GateContext, invs: seq<Invalidation>)
    requires ctx.stage == SignalStage
    ensures !CheckBlocks(InvalidationFailure(ctx, invs)) <==> Unbreached(ctx, invs)
    ensures Unbreached(ctx, invs) ==>
      (InvalidationFailure(ctx, invs).Some? <==> exists i :: 0 <= i < |invs| && Advisory(ctx, invs[i]))
  {
    if invs != [] {
      var rest := invs[1..];
      SignalInvalidations(ctx, rest);
      assert forall i :: 0 <= i < |rest| ==> rest[i] == invs[i + 1];
      if Advisory(ctx, invs[0]) {
        assert Unbreached(ctx, invs);
      } else if !Breached(ctx, invs[0]) {
        UnbreachedTail(ctx, invs);
        if i :| 0 <= i < |invs| && Advisory(ctx, invs[i]) { assert Advisory(ctx, rest[i - 1]); }
      }
    }
  }

  lemma UnbreachedTail(ctx: GateContext, invs: seq<Invalidation>)
    requires invs != [] && !Advisory(ctx, invs[0]) && !Breached(ctx, invs[0])
    ensures Unbreached(ctx, invs) <==> Unbreached(ctx, invs[1..])
  {
    var rest := invs[1..];
    if Unbreached(ctx, rest) {
      forall i | 0 <= i < |invs| && Breached(ctx, invs[i]) ensures exists j :: 0 <= j < i && Advisory(ctx, invs[j]) {
        var j :| 0 <= j < i - 1 && Advisory(ctx, rest[j]);
        assert Advisory(ctx, invs[j + 1]);
      }
    }
    if Unbreached(ctx, invs) {
      forall i | 0 <= i < |rest| && Breached(ctx, rest[i]) ensures exists j :: 0 <= j < i && Advisory(ctx, rest[j]) {
        var j :| 0 <= j < i + 1 && Advisory(ctx, invs[j]);
        assert Advisory(ctx, rest[j - 1]);
      }
    }
  }

  lemma SignalDataBlocks(ctx: GateContext)
    requires ctx.stage == SignalStage
    ensures !CheckBlocks(CheckData(ctx)) <==> SignalData(ctx)
  {
    SignalInvalidations(ctx, ctx.liveInvalidations);
  }

  lemma SignalVenueBlocks(ctx: GateContext)
    requires ctx.stage == SignalStage
    ensures !CheckBlocks(CheckCorrelationStress(ctx)) && !CheckBlocks(CheckConcentration(ctx))
    ensures !CheckBlocks(CheckCost(ctx)) && !CheckBlocks(CheckApproval(ctx))
    ensures !CheckBlocks(CheckLiquidity(ctx)) <==> !ctx.market.SpreadBlown()
    ensures !CheckBlocks(CheckWash(ctx)) <==> NoSelfCross(ctx)
    ensures !CheckBlocks(CheckShortability(ctx)) <==> ShortAllowed(ctx)
    ensures !CheckBlocks(CheckTime(ctx)) <==> SignalHours(ctx)
  {
  }

  lemma SignalBlockFree(ctx: GateContext)
    requires ctx.stage == SignalStage
    ensures BlockFree(ctx) <==> SignalAdmissible(ctx)
  {
    SignalMandate(ctx);
    SignalSleeveBlocks(ctx);
    SignalHouseBlocks(ctx);
    RegimeBlocks(ctx);
    SignalDataBlocks(ctx);
    SignalVenueBlocks(ctx);
  }

  /** At signal stage, on every input: the gate passes a signal exactly when it is admissible. */
  lemma SignalPassesExactlyWhenAdmissible(ctx: GateContext)
    requires IsSignal(ctx)
    ensures Decide(ctx).Allowed() <==> SignalAdmissible(ctx)
  {
    VerdictMeaning(ctx);
    SignalBlockFree(ctx);
    assert (forall c: Check :: !BlocksOn(c, ctx)) <==> BlockFree(ctx) by { TableCovers(ctx); }
  }

  /** The same signal with other invalidations, another age and another quote age. */
  function Otherwise(ctx: GateContext, invs: seq<Invalidation>, age: Option<int>, quoteAge: Option<real>): GateContext {
    ctx.(liveInvalidations := invs, decisionAgeDays := age, market := ctx.market.(quoteAgeS := quoteAge))
  }

  lemma OnlyDataNotices(ctx: GateContext, invs: seq<Invalidation>, age: Option<int>, quoteAge: Option<real>)
    ensures var other := Otherwise(ctx, invs, age, quoteAge);
      && (Mandated(other) <==> Mandated(ctx)) && (ShortAllowed(other) <==> ShortAllowed(ctx))
      && (SignalExposure(other) <==> SignalExposure(ctx)) && (SignalSleeve(other) <==> SignalSleeve(ctx))
      && (SignalHouse(other) <==> SignalHouse(ctx)) && (RegimeFits(other) <==> RegimeFits(ctx))
      && (NoSelfCross(other) <==> NoSelfCross(ctx)) && (SignalHours(other) <==> SignalHours(ctx))
      && other.market.SpreadBlown() == ctx.market.SpreadBlown()
  {
  }

  /**
   * Weak data hides bad data: once the quality is partial or the reference stale, no breached
   * invalidation, no age of the decision and no age of the quote changes whether the signal passes.
   */
  lemma WeakDataHidesTheRest(ctx: GateContext, invs: seq<Invalidation>, age: Option<int>, quoteAge: Option<real>)
    requires IsSignal(ctx) && (ctx.market.dataQuality == Partial || ctx.referenceStale)
    ensures Decide(Otherwise(ctx, invs, age, quoteAge)).Allowed() <==> Decide(ctx).Allowed()
  {
    SignalPassesExactlyWhenAdmissible(ctx);
    SignalPassesExactlyWhenAdmissible(Otherwise(ctx, invs, age, quoteAge));
    OnlyDataNotices(ctx, invs, age, quoteAge);
  }

  // ---- what is downgraded ----------------------------------------------------------------------

  /** The same action on the same name was signalled less than a cooldown ago. */
  predicate Cooling(ctx: GateContext) {
    && ctx.lastSignal.Some? && ctx.action.Some?
    && ctx.lastSignal.value.ticker == ctx.request.symbol && ctx.lastSignal.value.action == ctx.action.value
    && ctx.lastSignal.value.emittedAt.Some?
    && ctx.cooldownHours > 0.0
    && (ctx.now - ctx.lastSignal.value.emittedAt.value) as real < 3600.0 * ctx.cooldownHours
  }

  /** Something about the data is weak, though nothing is wrong with it. */
  predicate SoftData(ctx: GateContext) {
    || ctx.market.dataQuality == Partial || ctx.referenceStale || !ctx.market.caliberKnown
    || (exists i :: 0 <= i < |ctx.liveInvalidations| && Advisory(ctx, ctx.liveInvalidations[i]))
    || ctx.request.stopPrice.None?
  }

  predicate DowngradeReason(c: Check, ctx: GateContext) {
    match c
    case MandateCheck =>
      Held(ctx) + ProjectedNotional(ctx.request) > ctx.mandate.maxTotalExposureUsd || OverOrderCap(ctx) || Cooling(ctx)
    case SleeveCapital => ProjectedNotional(ctx.request) > SleeveRoom(ctx)
    case HouseDrawdown => ctx.ladder.sizeMultiplier < 1.0
    case VolRegime => ctx.vol.warmupOk && ctx.vol.scalar < 1.0
    case DataCheck => SoftData(ctx)
    case TimeCheck => ctx.market.session != Trading
    case Approval => NeedsApproval(ctx)
    case _ => false
  }

  lemma CoolingExactly(ctx: GateContext)
    ensures CooldownFailure(ctx).Some? <==> Cooling(ctx)
    ensures CooldownFailure(ctx).Some? ==>
      CooldownFailure(ctx) == Reduces(MandateCheck, "cooldown", ctx.request.requestedRiskPct)
  {
    if ctx.lastSignal.Some? && ctx.lastSignal.value.emittedAt.Some? {
      var gap := IMax(0, ctx.now - ctx.lastSignal.value.emittedAt.value) as real;
      DivLe(ctx.cooldownHours, gap, 3600.0);
    }
  }

  lemma MoneyDowngrades(ctx: GateContext)
    requires ctx.stage == SignalStage
    ensures !CheckBlocks(CheckMandate(ctx)) ==>
      (CheckReduces(CheckMandate(ctx)) <==> DowngradeReason(MandateCheck, ctx))
    ensures !CheckBlocks(CheckSleeveCapital(ctx)) ==>
      (CheckReduces(CheckSleeveCapital(ctx)) <==> DowngradeReason(SleeveCapital, ctx))
    ensures !CheckBlocks(CheckHouseDrawdown(ctx)) ==>
      (CheckReduces(CheckHouseDrawdown(ctx)) <==> DowngradeReason(HouseDrawdown, ctx))
    ensures !CheckReduces(CheckHouseCvar(ctx)) && !CheckReduces(CheckConcentration(ctx))
    ensures !CheckReduces(CheckLiquidity(ctx))
  {
    CoolingExactly(ctx);
  }

  lemma TapeDowngrades(ctx: GateContext)
    requires ctx.stage == SignalStage
    ensures !CheckBlocks(CheckVolRegime(ctx)) ==>
      (CheckReduces(CheckVolRegime(ctx)) <==> DowngradeReason(VolRegime, ctx))
    ensures !CheckBlocks(CheckTime(ctx)) ==> (CheckReduces(CheckTime(ctx)) <==> DowngradeReason(TimeCheck, ctx))
    ensures CheckReduces(CheckApproval(ctx)) <==> DowngradeReason(Approval, ctx)
  {
  }

  lemma DataDowngrades(ctx: GateContext)
    requires ctx.stage == SignalStage && !CheckBlocks(CheckData(ctx))
    ensures CheckReduces(CheckData(ctx)) <==> SoftData(ctx)
  {
    SignalInvalidations(ctx, ctx.liveInvalidations);
  }

  lemma QuietChecks(ctx: GateContext, c: Check)
    requires c in SILENT_CHECKS
    ensures !ReducesOn(c, ctx) && !DowngradeReason(c, ctx)
  {
  }

  lemma MoneyDowngradesOn(ctx: GateContext, c: Check)
    requires IsSignal(ctx) && !BlocksOn(c, ctx)
    requires c in {MandateCheck, SleeveCapital, HouseDrawdown, HouseCvar, Concentration, Liquidity}
    ensures ReducesOn(c, ctx) <==> DowngradeReason(c, ctx)
  {
    MoneyDowngrades(ctx);
  }

  lemma TapeDowngradesOn(ctx: GateContext, c: Check)
    requires IsSignal(ctx) && !BlocksOn(c, ctx) && c in {VolRegime, DataCheck, TimeCheck, Approval}
    ensures ReducesOn(c, ctx) <==> DowngradeReason(c, ctx)
  {
    TapeDowngrades(ctx);
    if c == DataCheck { DataDowngrades(ctx); }
  }

  const SILENT_CHECKS: set<Check> := {CorrelationStress, MarketRegime, KnifeGuard, Cost, Wash, Shortability, HaltCheck}

  lemma EveryCheckHasItsGroup(c: Check)
    ensures c in SILENT_CHECKS || c in {VolRegime, DataCheck, TimeCheck, Approval}
         || c in {MandateCheck, SleeveCapital, HouseDrawdown, HouseCvar, Concentration, Liquidity}
  {
  }

  /** For a signal that passes, each check downgrades it exactly for its own reason, and seven have one. */
  lemma DowngradesExactly(ctx: GateContext, c: Check)
    requires IsSignal(ctx) && Decide(ctx).Allowed()
    ensures ReducesOn(c, ctx) <==> DowngradeReason(c, ctx)
  {
    NothingBlocks(ctx, c);
    EveryCheckHasItsGroup(c);
    if c in SILENT_CHECKS {
      QuietChecks(ctx, c);
    } else if c in {VolRegime, DataCheck, TimeCheck, Approval} {
      TapeDowngradesOn(ctx, c);
    } else {
      MoneyDowngradesOn(ctx, c);
    }
  }

  /** A signal is passed on at full strength exactly when it is admissible and nothing downgrades it. */
  lemma SignalIsAllowExactlyWhen(ctx: GateContext)
    requires IsSignal(ctx)
    ensures Decide(ctx).verdict == ALLOW <==>
      SignalAdmissible(ctx) && forall c: Check :: !DowngradeReason(c, ctx)
  {
    SignalPassesExactlyWhenAdmissible(ctx);
    VerdictMeaning(ctx);
    if SignalAdmissible(ctx) {
      forall c: Check ensures ReducesOn(c, ctx) <==> DowngradeReason(c, ctx) {
        DowngradesExactly(ctx, c);
      }
      if Decide(ctx).verdict == REDUCE {
        var c: Check :| ReducesOn(c, ctx) && Outcome(c, ctx).value.adjusted == Decide(ctx).adjusted;
      }
    }
  }

  /** The most of the request that fits the room. */
  predicate FitsTightly(req: RiskRequest, room: real, risk: real) {
    var usd := risk * Slope(req);
    risk <= req.requestedRiskPct && usd <= room && (risk == req.requestedRiskPct || usd == room)
  }

  lemma TightFit(req: RiskRequest, room: real)
    requires CanFit(req, room)
    ensures FitsTightly(req, room, RiskToFit(req, room))
  {
    SlopeSign(req);
    DivLe(0.0, room, Slope(req));
    DivLe(req.requestedRiskPct, room, Slope(req));
  }

  /** What a downgrade leaves of the requested strength. */
  predicate Leaves(c: Check, ctx: GateContext, risk: real) {
    var req := ctx.request;
    match c
    case MandateCheck =>
      if Held(ctx) + ProjectedNotional(req) > ctx.mandate.maxTotalExposureUsd
      then FitsTightly(req, ctx.mandate.maxTotalExposureUsd - Held(ctx), risk)
      else if OverOrderCap(ctx) then FitsTightly(req, ctx.mandate.maxNotionalPerOrderUsd, risk)
      else risk == req.requestedRiskPct
    case SleeveCapital => FitsTightly(req, SleeveRoom(ctx), risk)
    case HouseDrawdown => risk == req.requestedRiskPct * ctx.ladder.sizeMultiplier
    case VolRegime => risk == req.requestedRiskPct * ctx.vol.scalar
    case _ => risk == req.requestedRiskPct
  }

  lemma MoneyLeaves(ctx: GateContext, c: Check)
    requires ctx.stage == SignalStage && ReducesOn(c, ctx) && c in {MandateCheck, SleeveCapital}
    ensures Outcome(c, ctx).value.adjusted.Some? && Leaves(c, ctx, Outcome(c, ctx).value.adjusted.value)
  {
    var req := ctx.request;
    var room :=
      if c == SleeveCapital then SleeveRoom(ctx)
      else if Held(ctx) + ProjectedNotional(req) > ctx.mandate.maxTotalExposureUsd
      then ctx.mandate.maxTotalExposureUsd - Held(ctx)
      else ctx.mandate.maxNotionalPerOrderUsd;
    CoolingExactly(ctx);
    FitsSome(req, room);
    if CanFit(req, room) { TightFit(req, room); }
  }

  lemma TapeLeaves(ctx: GateContext, c: Check)
    requires ctx.stage == SignalStage && ReducesOn(c, ctx)
    requires c in {HouseDrawdown, VolRegime, DataCheck, TimeCheck, Approval}
    ensures Outcome(c, ctx).value.adjusted.Some? && Leaves(c, ctx, Outcome(c, ctx).value.adjusted.value)
  {
    if c == VolRegime { ScaledSign(ctx.request.requestedRiskPct, ctx.vol.scalar); }
    if c == DataCheck { InvalidationKinds(ctx, ctx.liveInvalidations); }
  }

  /**
   * How far each downgrade goes: an exposure, order or sleeve cap takes what does not fit, the ladder
   * and the volatility scale, and weak data, a closed market, a cooldown and an approval take nothing.
   */
  lemma DowngradeLeaves(ctx: GateContext, c: Check)
    requires IsSignal(ctx) && Decide(ctx).Allowed() && ReducesOn(c, ctx)
    ensures Outcome(c, ctx).value.adjusted.Some? && Leaves(c, ctx, Outcome(c, ctx).value.adjusted.value)
  {
    DowngradesExactly(ctx, c);
    if c in {MandateCheck, SleeveCapital} {
      MoneyLeaves(ctx, c);
    } else {
      TapeLeaves(ctx, c);
    }
  }
}
