/**
 * What adds up over a session: the mandate's daily cap, the cap per name and the exposure cap.
 *
 * The engine hands the gate its own count of acknowledged orders in place of the broker's count of
 * the day, and the same positions before every order. So orders behind lost replies are not counted,
 * and exposure is tested order by order; this module says exactly what is kept all the same.
 */
module SessionCaps {
  import opened Prelude
  import opened RiskState
  import opened Ladder
  import opened Gate
  import opened GateVerdict
  import opened GateAdmission
  import opened Sizing
  import opened EndToEnd
  import opened SessionEngine
  import OrderPolicy

  /** The sleeve's trades of the day as the broker reports them. */
  function Earlier(book: BookState): nat {
    if Intraday in book.sleeveTradesToday then book.sleeveTradesToday[Intraday] else 0
  }

  // ---- the broker's count is dropped -----------------------------------------------------------

  /**
   * As soon as any trade of the day is on the book or in the engine's counters, the broker's sleeve
   * count has no influence on the session at all.
   */
  lemma {:induction false} SleeveCountIsDropped(eval: Handler, book: BookState, other: map<Sleeve, nat>,
                                                start: map<string, nat>, cands: seq<Candidate>)
    requires book.tradesToday != map[] || start != map[]
    ensures RunOver(eval, book, start, cands) == RunOver(eval, book.(sleeveTradesToday := other), start, cands)
    ensures start != map[] ==> RunOver(eval, book, start, cands).trades != map[]
    decreases cands
  {
    if cands != [] {
      var init := cands[..|cands| - 1];
      SleeveCountIsDropped(eval, book, other, start, init);
      var trades := RunOver(eval, book, start, init).trades;
      assert WithTrades(book, trades) == WithTrades(book.(sleeveTradesToday := other), trades);
      var symbol := cands[|cands| - 1].ctx.request.symbol;
      assert symbol in Counted(trades, symbol);
    }
  }

  // ---- a candidate only the daily cap can stop -------------------------------------------------

  /** An engine and a book that can trade: some equity, some heat, some risk and some edge. */
  predicate CanTrade(cfg: EngineConfig, book: BookState) {
    book.equity > 0.0 && book.heatPct < cfg.maxHeatPct && cfg.riskPerTradePct > 0.0 && cfg.kellyFraction > 0.0
  }

  /** The figures of a one-share order and of limits around a book. */
  datatype Figures = Figures(
    stake: real, risk: real, exposureCap: real, leverage: real, clusterPct: real, namePct: real,
    ceiling: real, deployed: real, perName: int)

  /** A risk fraction within every fraction the engine caps. */
  function SmallRisk(cfg: EngineConfig, book: BookState): real {
    RMin(RMin(1.0, cfg.riskPerTradePct), RMin(cfg.maxHeatPct - book.heatPct, cfg.kellyFraction * VALIDATED_EDGE))
  }

  function Part(usd: real, fraction: real): real {
    usd * fraction
  }

  lemma PartWithin(usd: real, fraction: real)
    requires usd > 0.0 && 0.0 < fraction <= 1.0
    ensures 0.0 < Part(usd, fraction) <= usd
  {
    MulPositive(usd, fraction);
    ScaleDown(usd, fraction);
  }

  function StakeFor(cfg: EngineConfig, book: BookState): real {
    Part(book.equity, SmallRisk(cfg, book))
  }

  lemma StakeWithinEquity(cfg: EngineConfig, book: BookState)
    requires CanTrade(cfg, book)
    ensures 0.0 < SmallRisk(cfg, book) <= 1.0 && 0.0 < StakeFor(cfg, book) <= book.equity
  {
    PartWithin(book.equity, SmallRisk(cfg, book));
  }

  function Over(usd: real, equity: real): real
    requires equity > 0.0
  {
    usd / equity
  }

  function NameUsd(qty: real, price: real): real {
    RAbs(qty) * RAbs(price)
  }

  /**
   * One share at the price of its own stop distance, room for exactly that much around the book, and
   * no cap on the trades of a name.
   */
  function FiguresFor(cfg: EngineConfig, book: BookState): Figures
    requires book.equity > 0.0
  {
    var d := StakeFor(cfg, book);
    var deployed := book.DeployedPct(Intraday);
    var ceiling := RMax(0.0, deployed) + 1.0;
    var held := book.Notional() + d;
    Figures(d, SmallRisk(cfg, book), held, Over(held, book.equity),
            Over(Over(RAbs(book.ClusterNotionalOf("A")) + d, book.equity), ceiling),
            Over(NameUsd(book.PositionFor("A"), d) + d, book.equity), ceiling, deployed, 0)
  }

  predicate SmallEnough(f: Figures, cfg: EngineConfig, book: BookState) {
    && 0.0 < f.risk <= 1.0 && 0.0 < f.stake && f.stake == book.equity * f.risk
    && f.risk <= cfg.riskPerTradePct && f.risk <= cfg.maxHeatPct - book.heatPct
    && f.risk <= cfg.kellyFraction * VALIDATED_EDGE
  }

  predicate ExposureUnbound(f: Figures, book: BookState) {
    book.Notional() + f.stake <= f.exposureCap && book.Notional() + f.stake <= f.leverage * book.equity
  }

  predicate NameUnbound(f: Figures, book: BookState) {
    NameUsd(book.PositionFor("A"), f.stake) + f.stake <= f.namePct * book.equity
  }

  predicate ClusterUnbound(f: Figures, book: BookState) {
    book.ClusterNotionalOf("A") + f.stake <= f.clusterPct * f.ceiling * book.equity
  }

  predicate SleeveUnbound(f: Figures, book: BookState) {
    Spare(f.ceiling, f.deployed, book.equity, f.stake)
  }

  /** The sleeve's room holds the stake, as the gate and as the engine work it out. */
  predicate Spare(ceiling: real, deployed: real, equity: real, stake: real) {
    && ceiling * equity - deployed * equity >= stake
    && RMax(0.0, RMax(0.0, ceiling - deployed) * equity) >= stake
  }

  /** The figures leave every numeric cap of the gate and of the engine unbound. */
  predicate Unbound(f: Figures, cfg: EngineConfig, book: BookState) {
    SmallEnough(f, cfg, book) && ExposureUnbound(f, book) && NameUnbound(f, book) && ClusterUnbound(f, book)
      && SleeveUnbound(f, book)
  }

  lemma StakeIsSmall(cfg: EngineConfig, book: BookState)
    requires CanTrade(cfg, book)
    ensures SmallEnough(FiguresFor(cfg, book), cfg, book) && FiguresFor(cfg, book).stake <= book.equity
  {
    StakeWithinEquity(cfg, book);
  }

  lemma SleeveIsUnbound(cfg: EngineConfig, book: BookState)
    requires CanTrade(cfg, book)
    ensures SleeveUnbound(FiguresFor(cfg, book), book)
  {
    StakeIsSmall(cfg, book);
    SleeveLeavesEquity(FiguresFor(cfg, book), book);
  }

  lemma SleeveLeavesEquity(f: Figures, book: BookState)
    requires book.equity > 0.0 && f.ceiling >= f.deployed + 1.0 && f.stake <= book.equity
    ensures SleeveUnbound(f, book)
  {
    Spread(f.ceiling, f.deployed, book.equity, f.stake);
  }

  lemma NameIsUnbound(cfg: EngineConfig, book: BookState)
    requires CanTrade(cfg, book)
    ensures NameUnbound(FiguresFor(cfg, book), book)
  {
    var f := FiguresFor(cfg, book);
    ShareOf(NameUsd(book.PositionFor("A"), f.stake) + f.stake, book.equity);
  }

  lemma ClusterIsUnbound(cfg: EngineConfig, book: BookState)
    requires CanTrade(cfg, book)
    ensures ClusterUnbound(FiguresFor(cfg, book), book)
  {
    var f := FiguresFor(cfg, book);
    var usd := RAbs(book.ClusterNotionalOf("A")) + f.stake;
    ShareOf(usd, book.equity);
    ShareOf(Over(usd, book.equity), f.ceiling);
  }

  lemma FiguresAreUnbound(cfg: EngineConfig, book: BookState)
    requires CanTrade(cfg, book)
    ensures Unbound(FiguresFor(cfg, book), cfg, book)
  {
    StakeIsSmall(cfg, book);
    ShareOf(FiguresFor(cfg, book).exposureCap, book.equity);
    assert ExposureUnbound(FiguresFor(cfg, book), book);
    NameIsUnbound(cfg, book);
    ClusterIsUnbound(cfg, book);
    SleeveIsUnbound(cfg, book);
  }

  lemma ShareOf(usd: real, equity: real)
    requires equity > 0.0
    ensures Over(usd, equity) * equity == usd
  {
    DivLe(0.0, usd, equity);
  }

  lemma Spread(ceiling: real, deployed: real, equity: real, stake: real)
    requires equity > 0.0 && ceiling >= deployed + 1.0 && stake <= equity
    ensures Spare(ceiling, deployed, equity, stake)
  {
    MulMono(1.0, ceiling - deployed, equity);
    assert (ceiling - deployed) * equity == ceiling * equity - deployed * equity;
  }

  /** A daily cap of zero or less is none. */
  predicate Under(cap: int, trades: nat) {
    cap > 0 ==> trades < cap
  }

  /** A one-share request in "A", and a mandate, a market and limits that let it pass. */
  function Witness(f: Figures, book: BookState, cap: int): GateContext {
    GateContext(
      RiskRequest(Intraday, "A", OtherSetup, Buy, f.stake, f.stake, book.equity, f.risk, Some(0.0), None, Some(2.0),
                  Some(1.0), Some(1.0), None, None, false, None),
      book,
      MarketState(Some(f.stake), None, None, None, None, Trading, false, None, true, true, false, Some(1.0), None,
                  Fresh, true, None, false),
      Mandate({"A"}, false, 0, f.stake, f.exposureCap, book.cash, cap, OtherMode),
      Config(f.leverage, 2.0, 2.0, f.clusterPct, f.namePct, 0.0, book.CountIn(Intraday) + 1, book.Count() + 1,
             f.perName, 1.0, 1.0, 1.0, 1.0, 0.0, 60.0, 60.0, 0, 0, 0, 1.0),
      0, RungState(0), Vol(1.0, true), ES(0.0, true, 1), f.ceiling, f.deployed, UnknownDay, None, None, false,
      OrderStage, true, false, None, None, 0.0, [], None, 0.0, None, None, {})
  }

  /** The book as the gate sees it: only the trade counts may differ. */
  predicate SameButTrades(book: BookState, seen: BookState) {
    seen == book.(tradesToday := seen.tradesToday, sleeveTradesToday := seen.sleeveTradesToday)
  }

  /** The figures fit the engine and the book, and the name's trades as the gate sees them are under their cap. */
  predicate Staged(f: Figures, cfg: EngineConfig, book: BookState, seen: BookState) {
    && CanTrade(cfg, book) && Unbound(f, cfg, book) && SameButTrades(book, seen)
    && (f.perName > 0 ==> seen.TradesFor("A") < f.perName)
  }

  function Shown(f: Figures, book: BookState, cap: int, seen: BookState): GateContext {
    Witness(f, book, cap).(book := seen)
  }

  /** The request's shape: it projects to exactly one share. */
  lemma OneShareRequest(req: RiskRequest, d: real)
    requires d > 0.0 && req.stopDistance == d == req.price && req.plannedNotionalUsd.None?
    requires d == req.equity * req.requestedRiskPct
    ensures req.NotionalPerShare() > 0.0 && ProjectedNotional(req) == d && ProjectedShares(req) == 1.0
  {
    OneShare(req.equity, req.requestedRiskPct, d);
  }

  lemma OneShare(equity: real, risk: real, d: real)
    requires d > 0.0 && d == equity * risk
    ensures equity * risk * d / d == d && d / d == 1.0
  {
    Ratio(equity * risk, d);
    Ratio(1.0, d);
  }

  lemma Ratio(a: real, d: real)
    requires d > 0.0
    ensures a * d / d == a
  {
    DivLe(a, a * d, d);
    var q := a * d / d;
    if q > a { MulPositive(q - a, d); }
    if q < a { MulPositive(a - q, d); }
  }

  lemma WitnessIsOrder(f: Figures, cfg: EngineConfig, book: BookState, cap: int, seen: BookState)
    requires Staged(f, cfg, book, seen)
    ensures EngineShape(Shown(f, book, cap, seen)) && NothingRaises(Shown(f, book, cap, seen))
  {
  }

  lemma WitnessShape(f: Figures, cfg: EngineConfig, book: BookState, cap: int, seen: BookState)
    requires Staged(f, cfg, book, seen)
    ensures var ctx := Shown(f, book, cap, seen);
      && EngineShape(ctx) && NothingRaises(ctx) && ProjectedNotional(ctx.request) == f.stake
      && ProjectedShares(ctx.request) == 1.0
  {
    WitnessIsOrder(f, cfg, book, cap, seen);
    OneShareRequest(Shown(f, book, cap, seen).request, f.stake);
  }

  lemma WitnessVenue(f: Figures, cfg: EngineConfig, book: BookState, cap: int, seen: BookState)
    requires Staged(f, cfg, book, seen)
    ensures var ctx := Shown(f, book, cap, seen);
      && ShortAllowed(ctx) && HouseHealthy(ctx) && RegimeFits(ctx) && Liquid(ctx) && PaysItsCosts(ctx)
      && NoSelfCross(ctx)
      && DataFresh(ctx) && InHours(ctx)
  {
    WitnessShape(f, cfg, book, cap, seen);
  }

  lemma WitnessFitsExposure(f: Figures, cfg: EngineConfig, book: BookState, cap: int, seen: BookState)
    requires Staged(f, cfg, book, seen)
    ensures ExposureRoom(Shown(f, book, cap, seen)) && !ShrinkReason(MandateCheck, Shown(f, book, cap, seen))
  {
    WitnessShape(f, cfg, book, cap, seen);
    assert Held(Shown(f, book, cap, seen)) == book.Notional();
  }

  lemma WitnessFitsSleeve(f: Figures, cfg: EngineConfig, book: BookState, cap: int, seen: BookState)
    requires Staged(f, cfg, book, seen)
    ensures SleeveRoom(Shown(f, book, cap, seen)) > 0.0 && !ShrinkReason(SleeveCapital, Shown(f, book, cap, seen))
  {
    WitnessShape(f, cfg, book, cap, seen);
  }

  lemma WitnessInName(f: Figures, book: BookState, cap: int, seen: BookState)
    requires SameButTrades(book, seen) && (f.perName > 0 ==> seen.TradesFor("A") < f.perName)
    ensures ExistingInName(Shown(f, book, cap, seen)) == NameUsd(book.PositionFor("A"), f.stake)
    ensures !CountsExceeded(Shown(f, book, cap, seen))
  {
    assert seen.PositionFor("A") == book.PositionFor("A");
    assert seen.CountIn(Intraday) == book.CountIn(Intraday) && seen.Count() == book.Count();
  }

  lemma WitnessInCluster(f: Figures, book: BookState, cap: int, seen: BookState)
    requires SameButTrades(book, seen)
    ensures var ctx := Shown(f, book, cap, seen);
      ctx.book.ClusterNotionalOf(RequestKey(ctx.request)) == book.ClusterNotionalOf("A")
  {
  }

  lemma WitnessFitsName(f: Figures, cfg: EngineConfig, book: BookState, cap: int, seen: BookState)
    requires Staged(f, cfg, book, seen)
    ensures NameRoom(Shown(f, book, cap, seen)) && !ShrinkReason(Concentration, Shown(f, book, cap, seen))
  {
    var ctx := Shown(f, book, cap, seen);
    WitnessShape(f, cfg, book, cap, seen);
    WitnessInName(f, book, cap, seen);
    WitnessInCluster(f, book, cap, seen);
    assert ExistingInName(ctx) + f.stake <= NameCap(ctx);
    assert book.ClusterNotionalOf("A") + f.stake <= ClusterCap(ctx);
  }

  lemma WitnessIsWhole(f: Figures, cfg: EngineConfig, book: BookState, cap: int, seen: BookState, c: Check)
    requires Staged(f, cfg, book, seen)
    ensures !ShrinkReason(c, Shown(f, book, cap, seen))
  {
    WitnessFitsExposure(f, cfg, book, cap, seen);
    WitnessFitsSleeve(f, cfg, book, cap, seen);
    WitnessFitsName(f, cfg, book, cap, seen);
    WitnessShape(f, cfg, book, cap, seen);
  }

  /** Everything but the daily cap lets the candidate pass whole. */
  lemma WitnessPasses(f: Figures, cfg: EngineConfig, book: BookState, cap: int, seen: BookState)
    requires Staged(f, cfg, book, seen)
    ensures var ctx := Shown(f, book, cap, seen);
      && EngineShape(ctx) && NothingRaises(ctx) && (Admissible(ctx) <==> Under(cap, SleeveTrades(ctx)))
      && forall c: Check :: !ShrinkReason(c, ctx)
  {
    var ctx := Shown(f, book, cap, seen);
    WitnessShape(f, cfg, book, cap, seen);
    WitnessFitsExposure(f, cfg, book, cap, seen);
    WitnessFitsSleeve(f, cfg, book, cap, seen);
    WitnessFitsName(f, cfg, book, cap, seen);
    WitnessVenue(f, cfg, book, cap, seen);
    WitnessMandated(f, book, cap, seen);
    forall c: Check ensures !ShrinkReason(c, ctx) {
      WitnessIsWhole(f, cfg, book, cap, seen, c);
    }
  }

  lemma WitnessMandated(f: Figures, book: BookState, cap: int, seen: BookState)
    requires SameButTrades(book, seen)
    ensures Mandated(Shown(f, book, cap, seen)) <==> Under(cap, SleeveTrades(Shown(f, book, cap, seen)))
  {
  }

  /** The engine submits the candidate exactly while the count it shows is under the daily cap. */
  lemma WitnessSentExactlyUnderCap(rnd: real -> int, f: Figures, cfg: EngineConfig, book: BookState, cap: int,
                                   seen: BookState, a: Answer)
    requires Staged(f, cfg, book, seen) && a != Denied
    ensures var ctx := Shown(f, book, cap, seen);
      && (SessionEngine.Evaluate(rnd, cfg, ctx, [a]) != [] <==> Under(cap, SleeveTrades(ctx)))
      && (Under(cap, SleeveTrades(ctx)) ==> OneSubmit(ctx, SessionEngine.Evaluate(rnd, cfg, ctx, [a]), a))
  {
    var ctx := Shown(f, book, cap, seen);
    WitnessPasses(f, cfg, book, cap, seen);
    AllowedExactlyWhenAdmissible(ctx);
    EvaluatedWasAllowed(rnd, cfg, ctx, [a]);
    if Under(cap, SleeveTrades(ctx)) {
      UnshrunkKeepsItsRisk(ctx);
      OneShareIsSized(f, cfg, book, cap, seen);
      FirstChildIsSubmitted(rnd, cfg, ctx, SizedQty(cfg, ctx).value, a);
    }
  }

  lemma OneShareIsSized(f: Figures, cfg: EngineConfig, book: BookState, cap: int, seen: BookState)
    requires Staged(f, cfg, book, seen)
    requires Decide(Shown(f, book, cap, seen)).Allowed() && EffectiveRisk(Shown(f, book, cap, seen)) == f.risk
    ensures SizedQty(cfg, Shown(f, book, cap, seen)).Some? && SizedQty(cfg, Shown(f, book, cap, seen)).value >= 1
  {
    var ctx := Shown(f, book, cap, seen);
    OneShareFits(f, cfg, book, SizedRequest(ctx), CapsFor(cfg, ctx));
    SizeIsGreatestFit(SizedRequest(ctx), CapsFor(cfg, ctx), 1.0);
  }

  lemma OneShareFits(f: Figures, cfg: EngineConfig, book: BookState, req: RiskRequest, caps: SizingCaps)
    requires CanTrade(cfg, book) && Unbound(f, cfg, book)
    requires req.stopDistance == f.stake == req.price && req.equity == book.equity
    requires req.requestedRiskPct == f.risk && req.trailingVolume == Some(1.0)
    requires caps.sleeveRiskRemainingPct >= f.risk && caps.houseHeatRemainingPct >= f.risk
    requires caps.sleeveNotionalRoomUsd >= f.stake && caps.participationCapPct == 1.0 && caps.maxLeveragePct.None?
    requires caps.kellyFraction == cfg.kellyFraction && caps.validatedEdge == Some(VALIDATED_EDGE)
    requires caps.kellyWinLossRatio == Some(1.0) && caps.kellyShrink == 1.0
    ensures Usable(req, caps, 1.0) && Fits(req, caps, 1.0, 1)
  {
    var l := LimitsOf(req, caps, 1.0);
    EngineLimits(f, cfg, req, caps);
    OneShareCarries(req, f.risk, l.request);
    OneShareCarries(req, f.risk, l.sleeve);
    OneShareCarries(req, f.risk, l.heat);
    OneShareCarries(req, f.risk, l.kelly);
    assert NotionalFits(req, 1, l.usd);
  }

  /** The engine's caps as plain numbers. */
  lemma EngineLimits(f: Figures, cfg: EngineConfig, req: RiskRequest, caps: SizingCaps)
    requires f.risk > 0.0 && f.risk <= cfg.kellyFraction * VALIDATED_EDGE && cfg.kellyFraction > 0.0
    requires req.requestedRiskPct == f.risk && req.trailingVolume == Some(1.0)
    requires caps.sleeveRiskRemainingPct >= f.risk && caps.houseHeatRemainingPct >= f.risk
    requires caps.participationCapPct == 1.0 && caps.maxLeveragePct.None?
    requires caps.kellyFraction == cfg.kellyFraction && caps.validatedEdge == Some(VALIDATED_EDGE)
    requires caps.kellyWinLossRatio == Some(1.0) && caps.kellyShrink == 1.0
    ensures var l := LimitsOf(req, caps, 1.0);
      && l.request == f.risk && l.sleeve >= f.risk && l.heat >= f.risk && l.kelly >= f.risk
      && l.shares == 1.0 && l.usd == caps.sleeveNotionalRoomUsd && l.leverageUsd.None?
  {
    UnitScalar(f.risk);
    UnitScalar(caps.sleeveRiskRemainingPct);
    UnitScalar(caps.houseHeatRemainingPct);
    EngineKelly(caps, cfg.kellyFraction);
  }

  lemma EngineKelly(caps: SizingCaps, fraction: real)
    requires fraction > 0.0 && caps.kellyFraction == fraction && caps.validatedEdge == Some(VALIDATED_EDGE)
    requires caps.kellyWinLossRatio == Some(1.0) && caps.kellyShrink == 1.0
    ensures CollapsedKelly(caps) == fraction * VALIDATED_EDGE
  {
    assert fraction * VALIDATED_EDGE * 1.0 / 1.0 == fraction * VALIDATED_EDGE;
  }

  lemma OneShareCarries(req: RiskRequest, r: real, risk: real)
    requires req.equity > 0.0 && req.stopDistance == req.equity * r && r <= risk
    ensures RiskFits(req, 1, risk)
  {
    MulMono(r, risk, req.equity);
  }

  /** Exactly one submit, with that answer. */
  predicate OneSubmit(ctx: GateContext, sent: seq<Sent>, a: Answer) {
    |sent| == 1 && sent[0].ctx == ctx && sent[0].answer == a && sent[0].qty >= 1
  }

  lemma FirstChildIsSubmitted(rnd: real -> int, cfg: EngineConfig, ctx: GateContext, qty: nat, a: Answer)
    requires qty >= 1 && ctx.request.price > 0.0 && a != Denied
    ensures OneSubmit(ctx, SendFrom(ctx, qty, PlanFor(rnd, cfg, ctx, qty), [a]), a)
  {
    var plan := PlanFor(rnd, cfg, ctx, qty);
    assert plan.Planned?;
    PlanCarries(rnd, cfg, ctx, qty);
    OnlyTheFirst(ctx, qty, plan.orders, a, |plan.orders|);
  }

  /** With one answer given, the later children are denied. */
  lemma {:induction false} OnlyTheFirst(ctx: GateContext, sized: nat, orders: seq<OrderPolicy.ChildOrder>, a: Answer,
                                        n: nat)
    requires 1 <= n <= |orders| && a != Denied
    ensures SubmitsOf(ctx, sized, orders, [a], n) == [Sent(ctx, sized, |orders|, 0, orders[0].qty, a)]
  {
    if n > 1 { OnlyTheFirst(ctx, sized, orders, a, n - 1); }
  }

  // ---- copies of one candidate -----------------------------------------------------------------

  /** The mandate, the market and the limits around the book, with a cap on the trades of a name. */
  function Setting(cfg: EngineConfig, book: BookState, perName: int): Figures
    requires book.equity > 0.0
  {
    FiguresFor(cfg, book).(perName := perName)
  }

  function WitnessCandidate(cfg: EngineConfig, book: BookState, cap: int, perName: int, a: Answer): Candidate
    requires book.equity > 0.0
  {
    Candidate(Witness(Setting(cfg, book, perName), book, cap), [a])
  }

  /** No order of the day can be sent: the cap is used up and the book hides none of it. */
  predicate UsedUp(book: BookState, cap: int) {
    cap > 0 && book.tradesToday == map[] && Earlier(book) >= cap
  }

  /** What the engine shows the gate of its own trades is under both caps. */
  ghost predicate RoomFor(book: BookState, cap: int, perName: int, trades: map<string, nat>) {
    && Under(cap, if trades == map[] && book.tradesToday == map[] then Earlier(book) else Total(trades))
    && (perName > 0 ==> book.TradesFor("A") + CountOf(trades, "A") < perName)
  }

  lemma SettingIsStaged(cfg: EngineConfig, book: BookState, perName: int, trades: map<string, nat>)
    requires CanTrade(cfg, book) && (perName > 0 ==> book.TradesFor("A") + CountOf(trades, "A") < perName)
    ensures Staged(Setting(cfg, book, perName), cfg, book, WithTrades(book, trades))
  {
    FiguresAreUnbound(cfg, book);
    OtherCapPerName(FiguresFor(cfg, book), cfg, book, perName);
    MergedCount(book, trades, "A");
  }

  lemma OtherCapPerName(f: Figures, cfg: EngineConfig, book: BookState, perName: int)
    requires Unbound(f, cfg, book)
    ensures Unbound(f.(perName := perName), cfg, book)
  {
  }

  /** The candidate as one run shows it to the gate. */
  lemma WitnessIsShown(rnd: real -> int, cfg: EngineConfig, book: BookState, cap: int, perName: int, a: Answer,
                       trades: map<string, nat>)
    requires book.equity > 0.0
    ensures var c, seen := WitnessCandidate(cfg, book, cap, perName, a), WithTrades(book, trades);
      var ctx := Shown(Setting(cfg, book, perName), book, cap, seen);
      && c.ctx.(book := seen) == ctx && ctx.book == seen && ctx.request.sleeve == Intraday
      && ctx.request == c.ctx.request && ctx.request.symbol == "A"
      && Submitted(Evaluator(rnd, cfg), book, trades, c) == SessionEngine.Evaluate(rnd, cfg, ctx, [a])
  {
    EvaluatorEvaluates(rnd, cfg, Shown(Setting(cfg, book, perName), book, cap, WithTrades(book, trades)), [a]);
  }

  lemma WitnessIsSubmitted(rnd: real -> int, cfg: EngineConfig, book: BookState, cap: int, perName: int, a: Answer,
                           trades: map<string, nat>)
    requires CanTrade(cfg, book) && a != Denied && RoomFor(book, cap, perName, trades)
    ensures var c := WitnessCandidate(cfg, book, cap, perName, a);
      OneSubmit(c.ctx.(book := WithTrades(book, trades)), Submitted(Evaluator(rnd, cfg), book, trades, c), a)
  {
    var f, seen := Setting(cfg, book, perName), WithTrades(book, trades);
    WitnessIsShown(rnd, cfg, book, cap, perName, a, trades);
    SettingIsStaged(cfg, book, perName, trades);
    WitnessSentExactlyUnderCap(rnd, f, cfg, book, cap, seen, a);
    SleeveCountSeen(Shown(f, book, cap, seen), book, trades);
  }

  /** The counters behind `k` orders of one name that were answered alike. */
  ghost predicate AtCount(trades: map<string, nat>, symbol: string, a: Answer, k: nat) {
    && Total(trades) == (if a == Acked then k else 0) == CountOf(trades, symbol)
    && (trades == map[] <==> a != Acked || k == 0)
  }

  /** `n` copies of the candidate, each submitted once: the shape of the run they make. */
  ghost predicate AllSubmitted(s: Progress, c: Candidate, a: Answer, n: nat) {
    && |s.sent| == n && AtCount(s.trades, c.ctx.request.symbol, a, n)
    && forall i :: 0 <= i < n ==>
         s.sent[i].answer == a && s.sent[i].qty >= 1 && s.sent[i].ctx.request == c.ctx.request
  }

  lemma OneMoreSubmitted(eval: Handler, book: BookState, s: Progress, c: Candidate, a: Answer, n: nat)
    requires AllSubmitted(s, c, a, n)
    requires OneSubmit(c.ctx.(book := WithTrades(book, s.trades)), Submitted(eval, book, s.trades, c), a)
    ensures AllSubmitted(Step(eval, book, s, c), c, a, n + 1)
  {
    TotalCounted(s.trades, c.ctx.request.symbol);
    var after := Counted(s.trades, c.ctx.request.symbol);
    assert c.ctx.request.symbol in after;
  }

  ghost predicate SubmitsAtCount(eval: Handler, book: BookState, c: Candidate, a: Answer, trades: map<string, nat>) {
    OneSubmit(c.ctx.(book := WithTrades(book, trades)), Submitted(eval, book, trades, c), a)
  }

  lemma {:induction false} CopiesOf(eval: Handler, book: BookState, c: Candidate, a: Answer, n: nat)
    requires forall trades: map<string, nat>, k: nat :: k < n && AtCount(trades, c.ctx.request.symbol, a, k) ==>
      SubmitsAtCount(eval, book, c, a, trades)
    ensures AllSubmitted(RunOver(eval, book, map[], Repeat(c, n)), c, a, n)
  {
    NothingCounted();
    if n > 0 {
      CopiesOf(eval, book, c, a, n - 1);
      assert Repeat(c, n)[..n - 1] == Repeat(c, n - 1);
      var before := RunOver(eval, book, map[], Repeat(c, n - 1));
      assert SubmitsAtCount(eval, book, c, a, before.trades);
      OneMoreSubmitted(eval, book, before, c, a, n - 1);
    }
  }

  /** Every copy goes out as long as the acknowledged ones leave room; unacknowledged ones always do. */
  lemma CopiesAreSubmitted(rnd: real -> int, cfg: EngineConfig, book: BookState, cap: int, perName: int,
                           a: Answer, n: nat)
    requires CanTrade(cfg, book) && a != Denied && RoomFor(book, cap, perName, map[])
    requires a == Acked ==> (cap > 0 ==> n <= cap) && (perName > 0 ==> book.TradesFor("A") + n <= perName)
    ensures var c := WitnessCandidate(cfg, book, cap, perName, a);
      AllSubmitted(RunOver(Evaluator(rnd, cfg), book, map[], Repeat(c, n)), c, a, n)
  {
    var eval, c := Evaluator(rnd, cfg), WitnessCandidate(cfg, book, cap, perName, a);
    forall trades, k: nat | k < n && AtCount(trades, c.ctx.request.symbol, a, k)
      ensures SubmitsAtCount(eval, book, c, a, trades)
    {
      RoomIsLeft(book, cap, perName, a, k, trades);
      WitnessIsSubmitted(rnd, cfg, book, cap, perName, a, trades);
    }
    CopiesOf(eval, book, c, a, n);
  }

  lemma RoomIsLeft(book: BookState, cap: int, perName: int, a: Answer, n: nat, trades: map<string, nat>)
    requires RoomFor(book, cap, perName, map[]) && AtCount(trades, "A", a, n)
    requires a == Acked ==> (cap > 0 ==> n < cap) && (perName > 0 ==> book.TradesFor("A") + n < perName)
    ensures RoomFor(book, cap, perName, trades)
  {
  }

  lemma NothingCounted()
    ensures Total(map[]) == 0
  {
  }

  lemma {:induction false} AllCounted(kind: Sent -> bool, sent: seq<Sent>)
    requires forall i :: 0 <= i < |sent| ==> kind(sent[i])
    ensures Count(kind, sent) == |sent|
  {
    if sent != [] { AllCounted(kind, sent[..|sent| - 1]); }
  }

  // ---- the day's cap, exactly ------------------------------------------------------------------

  /** With the broker's earlier trades, a session's orders of a kind stay within the day's cap. */
  ghost predicate KeepsTheDay(kind: Sent -> bool, eval: Handler, book: BookState, cap: int, cands: seq<Candidate>) {
    Count(kind, RunOver(eval, book, map[], cands).sent) <= IMax(0, cap - Earlier(book))
  }

  ghost predicate EverySessionKeepsTheDay(kind: Sent -> bool, eval: Handler, book: BookState, cap: int) {
    forall cands :: IntradayOnly(cands) && SameDailyCap(cands, cap) ==> KeepsTheDay(kind, eval, book, cap, cands)
  }

  /** With the day's cap already used up and no trade on the book, nothing is submitted. */
  lemma {:induction false} UsedUpSendsNothing(eval: Handler, book: BookState, cands: seq<Candidate>, cap: int)
    requires Gated(eval) && IntradayOnly(cands) && SameDailyCap(cands, cap) && UsedUp(book, cap)
    ensures RunOver(eval, book, map[], cands) == Progress(map[], [])
  {
    if cands != [] {
      UsedUpSendsNothing(eval, book, cands[..|cands| - 1], cap);
      var c := cands[|cands| - 1];
      SleeveCountSeen(c.ctx.(book := WithTrades(book, map[])), book, map[]);
    }
  }

  /** Copies that all go out, and more of them than the day has left. */
  lemma CopiesBreakTheDay(kind: Sent -> bool, eval: Handler, book: BookState, cap: int, c: Candidate, a: Answer, n: nat)
    requires c.ctx.request.sleeve == Intraday && c.ctx.mandate.maxDailyTrades == cap
    requires AllSubmitted(RunOver(eval, book, map[], Repeat(c, n)), c, a, n) && n > IMax(0, cap - Earlier(book))
    requires forall order: Sent :: order.answer == a ==> kind(order)
    ensures !EverySessionKeepsTheDay(kind, eval, book, cap)
  {
    var cands := Repeat(c, n);
    AllCounted(kind, RunOver(eval, book, map[], cands).sent);
    assert IntradayOnly(cands) && SameDailyCap(cands, cap);
    assert !KeepsTheDay(kind, eval, book, cap, cands);
  }

  /**
   * Of the orders acknowledged to a fresh engine: every session keeps them within the day's cap
   * exactly when the broker reports no earlier trade of the sleeve, or the cap is used up.
   */
  lemma DailyCapHoldsExactlyWhen(rnd: real -> int, cfg: EngineConfig, book: BookState, cap: int)
    requires CanTrade(cfg, book) && cap > 0
    ensures EverySessionKeepsTheDay(IsAcked, Evaluator(rnd, cfg), book, cap)
       <==> Earlier(book) == 0 || UsedUp(book, cap)
  {
    var eval := Evaluator(rnd, cfg);
    NothingCounted();
    EvaluatorIsGated(rnd, cfg);
    if Earlier(book) == 0 || UsedUp(book, cap) {
      forall cands | IntradayOnly(cands) && SameDailyCap(cands, cap)
        ensures KeepsTheDay(IsAcked, eval, book, cap, cands)
      {
        if Earlier(book) == 0 {
          SessionKeepsDailyCap(eval, book, map[], cands, cap);
        } else {
          UsedUpSendsNothing(eval, book, cands, cap);
        }
      }
    } else {
      CopiesAreSubmitted(rnd, cfg, book, cap, 0, Acked, cap);
      CopiesBreakTheDay(IsAcked, eval, book, cap, WitnessCandidate(cfg, book, cap, 0, Acked), Acked, cap);
    }
  }

  /**
   * Of the orders live at the broker: exactly when the cap is used up, so that nothing is sent at
   * all. Any other book can exceed it, one without earlier trades included, as soon as replies are lost.
   */
  lemma LiveOrdersKeepTheDayExactlyWhen(rnd: real -> int, cfg: EngineConfig, book: BookState, cap: int)
    requires CanTrade(cfg, book) && cap > 0
    ensures EverySessionKeepsTheDay(IsLive, Evaluator(rnd, cfg), book, cap) <==> UsedUp(book, cap)
  {
    var eval, a := Evaluator(rnd, cfg), Unanswered(true);
    NothingCounted();
    EvaluatorIsGated(rnd, cfg);
    if UsedUp(book, cap) {
      forall cands | IntradayOnly(cands) && SameDailyCap(cands, cap)
        ensures KeepsTheDay(IsLive, eval, book, cap, cands)
      {
        UsedUpSendsNothing(eval, book, cands, cap);
      }
    } else {
      CopiesAreSubmitted(rnd, cfg, book, cap, 0, a, cap + 1);
      CopiesBreakTheDay(IsLive, eval, book, cap, WitnessCandidate(cfg, book, cap, 0, a), a, cap + 1);
    }
  }

  /** As many live orders of one name as there are lost replies, under any daily cap and any cap per name. */
  lemma LostRepliesAreNeverCounted(rnd: real -> int, cfg: EngineConfig, book: BookState, cap: int, perName: int, n: nat)
    requires CanTrade(cfg, book) && !UsedUp(book, cap) && (perName > 0 ==> book.TradesFor("A") < perName)
    ensures var c := WitnessCandidate(cfg, book, cap, perName, Unanswered(true));
      var s := RunOver(Evaluator(rnd, cfg), book, map[], Repeat(c, n));
      && c.ctx.mandate.maxDailyTrades == cap && c.ctx.config.intradayMaxTradesPerName == perName
      && s.trades == map[] && Count(In("A", IsLive), s.sent) == Count(IsLive, s.sent) == n
  {
    var c := WitnessCandidate(cfg, book, cap, perName, Unanswered(true));
    NothingCounted();
    CopiesAreSubmitted(rnd, cfg, book, cap, perName, Unanswered(true), n);
    AllCounted(IsLive, RunOver(Evaluator(rnd, cfg), book, map[], Repeat(c, n)).sent);
    AllCounted(In("A", IsLive), RunOver(Evaluator(rnd, cfg), book, map[], Repeat(c, n)).sent);
  }

  const TRADED_BOOK := BookState(100.0, 100.0, [], 0.0, map["AAPL" := 12], map[Intraday := 12])
  const QUIET_BOOK := BookState(100.0, 100.0, [], 0.0, map[], map[])

  /** Twelve trades of a cap of twelve are done; the gate is shown none of them, and twelve more are acknowledged. */
  lemma TwelveMoreAreSent(rnd: real -> int, cfg: EngineConfig)
    requires CanTrade(cfg, TRADED_BOOK)
    ensures var c := WitnessCandidate(cfg, TRADED_BOOK, 12, 0, Acked);
      && Earlier(TRADED_BOOK) == 12
      && SleeveTrades(c.ctx.(book := WithTrades(TRADED_BOOK, map[]))) == 0
      && Count(IsAcked, RunOver(Evaluator(rnd, cfg), TRADED_BOOK, map[], Repeat(c, 12)).sent) == 12
  {
    assert "AAPL" in TRADED_BOOK.tradesToday;
    var c := WitnessCandidate(cfg, TRADED_BOOK, 12, 0, Acked);
    NothingCounted();
    SleeveCountSeen(c.ctx.(book := WithTrades(TRADED_BOOK, map[])), TRADED_BOOK, map[]);
    CopiesAreSubmitted(rnd, cfg, TRADED_BOOK, 12, 0, Acked, 12);
    AllCounted(IsAcked, RunOver(Evaluator(rnd, cfg), TRADED_BOOK, map[], Repeat(c, 12)).sent);
  }

  /** No trade was done, the cap is one, and `n` replies are lost: `n` orders are live and the engine counts none. */
  lemma ManyAreLiveUnderACapOfOne(rnd: real -> int, cfg: EngineConfig, n: nat)
    requires CanTrade(cfg, QUIET_BOOK)
    ensures var c := WitnessCandidate(cfg, QUIET_BOOK, 1, 1, Unanswered(true));
      var s := RunOver(Evaluator(rnd, cfg), QUIET_BOOK, map[], Repeat(c, n));
      && Earlier(QUIET_BOOK) == 0 && c.ctx.mandate.maxDailyTrades == 1
      && s.trades == map[] && Count(IsLive, s.sent) == n
  {
    LostRepliesAreNeverCounted(rnd, cfg, QUIET_BOOK, 1, 1, n);
  }
}
