/** What the engine's quantity is, in the engine's own terms: the most shares that every one of its caps allows. */
module SessionSizing {
  import opened Prelude
  import opened RiskState
  import opened Ladder
  import opened Gate
  import opened GateVerdict
  import opened Sizing
  import opened EndToEnd
  import opened Prices
  import opened SessionEngine
  import OrderPolicy
  import Manager = OrderManager

  /** The Kelly fraction of a five-per-cent edge at even odds. */
  function EngineKelly(cfg: EngineConfig): real {
    if cfg.kellyFraction <= 0.0 then 0.0 else cfg.kellyFraction * 0.05
  }

  /**
   * What the engine asks of `n` shares: the risk the gate left, the budget of one trade, the heat and
   * the Kelly fraction each carry their stop loss, the volume takes them, and the sleeve can pay.
   */
  predicate EngineFits(cfg: EngineConfig, ctx: GateContext, n: int) {
    && Carries(ctx, n as real, EffectiveRisk(ctx))
    && Carries(ctx, n as real, cfg.riskPerTradePct)
    && Carries(ctx, n as real, cfg.maxHeatPct - ctx.book.heatPct)
    && Carries(ctx, n as real, EngineKelly(cfg))
    && n as real <= Volume(ctx)
    && NotionalOf(ctx, n as real) <= SleeveUsd(ctx)
  }

  /** The share of the day's volume an order may take. */
  function Volume(ctx: GateContext): real {
    ctx.config.maxAdvPct * ctx.request.trailingVolume.GetOr(0.0)
  }

  /** What the sleeve's ceiling leaves of equity. */
  function SleeveUsd(ctx: GateContext): real {
    (ctx.sleeveCeilingPct - ctx.sleeveDeployedPct) * ctx.book.equity
  }

  lemma FloorDoesNotMatter(equity: real, need: real, fraction: real)
    requires equity > 0.0 && need > 0.0
    ensures need <= equity * VolRisk(RMax(0.0, fraction), 1.0) <==> need <= equity * fraction
  {
    if fraction < 0.0 { MulMono(fraction, 0.0, equity); }
  }

  lemma KellyOfEngine(cfg: EngineConfig, ctx: GateContext)
    ensures CollapsedKelly(CapsFor(cfg, ctx)) == EngineKelly(cfg)
  {
  }

  lemma RoomFloorDoesNotMatter(cost: real, share: real, equity: real)
    requires cost > 0.0 && equity > 0.0
    ensures cost <= RMax(0.0, RMax(0.0, share) * equity) <==> cost <= share * equity
  {
    if share >= 0.0 { MulMono(0.0, share, equity); } else { MulMono(share, 0.0, equity); }
  }

  /** The same order, whatever risk it asks for. */
  predicate SameOrder(ctx: GateContext, req: RiskRequest) {
    && req.equity == ctx.request.equity && req.stopDistance == ctx.request.stopDistance
    && req.price == ctx.request.price && req.equity > 0.0 && req.stopDistance > 0.0 && req.price > 0.0
  }

  lemma BudgetAgrees(ctx: GateContext, req: RiskRequest, n: int, fraction: real)
    requires SameOrder(ctx, req) && n >= 1
    ensures RiskFits(req, n, VolRisk(RMax(0.0, fraction), 1.0)) <==> Carries(ctx, n as real, fraction)
  {
    MulPositive(n as real, req.stopDistance);
    FloorDoesNotMatter(req.equity, n as real * req.stopDistance, fraction);
  }

  lemma RiskAgrees(ctx: GateContext, req: RiskRequest, n: int, fraction: real)
    requires SameOrder(ctx, req) && fraction >= 0.0
    ensures RiskFits(req, n, fraction) <==> Carries(ctx, n as real, fraction)
    ensures RiskFits(req, n, VolRisk(fraction, 1.0)) <==> Carries(ctx, n as real, fraction)
  {
    UnitScalar(fraction);
  }

  lemma RoomAgrees(ctx: GateContext, req: RiskRequest, n: int)
    requires SameOrder(ctx, req) && n >= 1 && ctx.book.equity > 0.0
    ensures NotionalFits(req, n, RMax(0.0, RMax(0.0, ctx.sleeveCeilingPct - ctx.sleeveDeployedPct) * ctx.book.equity))
       <==> NotionalOf(ctx, n as real) <= SleeveUsd(ctx)
  {
    MulPositive(n as real, req.price);
    RoomFloorDoesNotMatter(n as real * req.price, ctx.sleeveCeilingPct - ctx.sleeveDeployedPct, ctx.book.equity);
  }

  /** The engine's caps as plain limits, for any risk the gate may leave. */
  function EngineLimits(cfg: EngineConfig, ctx: GateContext, risk: real): Limits {
    Limits(VolRisk(risk, 1.0), VolRisk(RMax(0.0, cfg.riskPerTradePct), 1.0),
           VolRisk(RMax(0.0, cfg.maxHeatPct - ctx.book.heatPct), 1.0), EngineKelly(cfg), Volume(ctx),
           RMax(0.0, RMax(0.0, ctx.sleeveCeilingPct - ctx.sleeveDeployedPct) * ctx.book.equity), None)
  }

  lemma LimitsAgree(cfg: EngineConfig, ctx: GateContext, req: RiskRequest, n: int)
    requires SameOrder(ctx, req) && n >= 1 && ctx.book.equity > 0.0 && EffectiveRisk(ctx) >= 0.0
    ensures FitsLimits(req, EngineLimits(cfg, ctx, EffectiveRisk(ctx)), n) <==> EngineFits(cfg, ctx, n)
  {
    RiskAgrees(ctx, req, n, EffectiveRisk(ctx));
    RiskAgrees(ctx, req, n, EngineKelly(cfg));
    BudgetAgrees(ctx, req, n, cfg.riskPerTradePct);
    BudgetAgrees(ctx, req, n, cfg.maxHeatPct - ctx.book.heatPct);
    RoomAgrees(ctx, req, n);
  }

  /** The sizer at the engine's caps asks for just that. */
  lemma FitsIsEngineFits(cfg: EngineConfig, ctx: GateContext, n: int)
    requires EngineShape(ctx) && n >= 1 && EffectiveRisk(ctx) >= 0.0
    ensures Fits(SizedRequest(ctx), CapsFor(cfg, ctx), 1.0, n) <==> EngineFits(cfg, ctx, n)
  {
    LimitsAreTheEngines(cfg, ctx);
    LimitsAgree(cfg, ctx, SizedRequest(ctx), n);
  }

  lemma LimitsAreTheEngines(cfg: EngineConfig, ctx: GateContext)
    ensures LimitsOf(SizedRequest(ctx), CapsFor(cfg, ctx), 1.0) == EngineLimits(cfg, ctx, EffectiveRisk(ctx))
  {
    KellyOfEngine(cfg, ctx);
  }

  /**
   * The engine's quantity, exactly: there is one if and only if the gate allows the order and a single
   * share fits, and then it is the greatest that fits.
   */
  lemma SizedQtyIsGreatest(cfg: EngineConfig, ctx: GateContext)
    requires EngineShape(ctx) && IsRung(ctx.ladder)
    ensures SizedQty(cfg, ctx).Some? <==> Decide(ctx).Allowed() && exists n :: n >= 1 && EngineFits(cfg, ctx, n)
    ensures SizedQty(cfg, ctx).Some? ==>
      var q := SizedQty(cfg, ctx).value;
      q >= 1 && EngineFits(cfg, ctx, q) && forall n :: n >= 1 && EngineFits(cfg, ctx, n) ==> n <= q
  {
    if Decide(ctx).Allowed() {
      EffectiveRiskIsTightest(ctx);
      var req, caps := SizedRequest(ctx), CapsFor(cfg, ctx);
      SizeIsGreatestFit(req, caps, 1.0);
      forall n | n >= 1 ensures Fits(req, caps, 1.0, n) <==> EngineFits(cfg, ctx, n) {
        FitsIsEngineFits(cfg, ctx, n);
      }
    }
  }

  /** The book a candidate is gated on differs from the session's in its two trade counts alone. */
  lemma OnlyTheCountsChange(book: BookState, trades: map<string, nat>)
    ensures var seen := WithTrades(book, trades);
      && seen.(tradesToday := book.tradesToday, sleeveTradesToday := book.sleeveTradesToday) == book
      && (forall symbol :: seen.TradesFor(symbol) == book.TradesFor(symbol) + CountOf(trades, symbol))
      && (seen.sleeveTradesToday == book.sleeveTradesToday || seen.sleeveTradesToday == map[Intraday := Total(trades)])
  {
    forall symbol { MergedCount(book, trades, symbol); }
  }

  // ---- what is sent ----------------------------------------------------------------------------

  /** A child counts as acknowledged exactly on the answers that prove an order, as refused on those that prove none. */
  lemma AckedExactlyWhen(created: bool, r: Manager.Reply)
    ensures AnswerOf(created, r) == Acked <==> forall c :: Manager.SubmitOutcome(c, r) ==> c
    ensures AnswerOf(created, r) == SessionEngine.Refused <==> forall c :: Manager.SubmitOutcome(c, r) ==> !c
    ensures AnswerOf(created, r).Unanswered? ==> AnswerOf(created, r).created == created
  {
    Manager.StatusTellsTheOrder(r);
  }

  /**
   * The children of a session: a sized order with a price always gets a plan, for all of its shares, at
   * limits on the side of the order around the entry price, with a cap that no spread widens; it rests
   * exactly for the reversion setups that are not trend setups too.
   */
  lemma SessionPlanIsSound(rnd: real -> int, cfg: EngineConfig, ctx: GateContext, qty: nat)
    requires Nearest(rnd) && qty >= 1
    ensures var plan := PlanFor(rnd, cfg, ctx, qty);
      var style := if ReversionSetup(ctx.request.setup) && !TrendSetup(ctx.request.setup)
                   then OrderPolicy.RestingLimit else OrderPolicy.MarketableLimit;
      && (plan.Planned? <==> ctx.request.price > 0.0)
      && (plan.Planned? ==>
            && OrderPolicy.Total(OrderPolicy.Quantities(plan.orders)) == qty
            && plan.deviation == RMax(5.0, cfg.policy.costLiquidBps / 2.0)
            && forall i :: 0 <= i < |plan.orders| ==>
                 OrderPolicy.SoundLimit(plan.orders[i].limit, ctx.request.price, ctx.request.side, plan.deviation,
                                        style))
  {
    OrderPolicy.PlanIsSound(rnd, qty, SubmitMarket(ctx), ctx.request.side, cfg.policy,
                            OrderPolicy.StyleFor(ctx.request.setup), false);
  }
}
