/** The sizer: from a risk fraction and the caps to a number of shares (signald/risk/sizing.py). */
module Sizing {
  import opened Prelude
  import opened RiskState

  datatype SizingCaps = SizingCaps(
    sleeveRiskRemainingPct: real, houseHeatRemainingPct: real, sleeveNotionalRoomUsd: real,
    participationCapPct: real, kellyFraction: real, validatedEdge: Option<real>,
    kellyWinLossRatio: Option<real>, kellyShrink: real, maxLeveragePct: Option<real>)

  /** What drove the quantity; `None` on a rejection that never reached a comparison. */
  datatype Binding = ByRisk | BySleeve | ByHeat | ByVol | ByKelly | ByLiquidity | ByNotional | ByLeverage

  datatype Reason = Ok | SizeBelowOneShare | UnvalidatedSetup | NoStopDistance | NoPrice

  datatype RiskDecision = RiskDecision(
    ok: bool, qty: nat, riskPct: real, binding: Option<Binding>, reason: Reason,
    qtyRisk: real, qtyLiquidity: real, qtyNotional: real)

  function Reject(reason: Reason): RiskDecision {
    RiskDecision(false, 0, 0.0, None, reason, 0.0, 0.0, 0.0)
  }

  /** Fractional Kelly written as the source writes it, through the win probability. */
  function KellyCap(edge: real, fraction: real, ratio: real, shrink: real): real {
    if fraction <= 0.0 || shrink <= 0.0 || ratio <= 0.0 then 0.0
    else
      var winProb := (1.0 + edge) / (1.0 + ratio);
      var fullKelly := (ratio * winProb - (1.0 - winProb)) / ratio;
      RMax(0.0, fraction * fullKelly * shrink)
  }

  function CapsKelly(caps: SizingCaps): real
    requires caps.validatedEdge.Some?
  {
    KellyCap(caps.validatedEdge.value, caps.kellyFraction, caps.kellyWinLossRatio.GetOr(1.0), caps.kellyShrink)
  }

  /** The smallest of the three risk budgets, named by the first that attains it. */
  function TightestBudget(req: RiskRequest, caps: SizingCaps): (real, Binding) {
    var r, s, h := req.requestedRiskPct, caps.sleeveRiskRemainingPct, caps.houseHeatRemainingPct;
    if s < r then if h < s then (h, ByHeat) else (s, BySleeve)
    else if h < r then (h, ByHeat) else (r, ByRisk)
  }

  /** A risk budget after the volatility scalar, floored at zero. */
  function VolRisk(risk: real, volScalar: real): real {
    RMax(0.0, risk * volScalar)
  }

  /** Shares whose full stop risk is a fraction `risk` of equity. */
  function RiskShares(req: RiskRequest, risk: real): real
    requires req.stopDistance > 0.0
  {
    req.equity * risk / req.stopDistance
  }

  /** The risk fraction after volatility and Kelly, with the cap that set it. */
  function CappedRisk(req: RiskRequest, caps: SizingCaps, volScalar: real, kelly: real): (real, Binding) {
    var budget := TightestBudget(req, caps);
    var scaled := VolRisk(budget.0, volScalar);
    var name := if volScalar < 1.0 then ByVol else budget.1;
    if kelly < scaled then (kelly, ByKelly) else (scaled, name)
  }

  function Size(req: RiskRequest, caps: SizingCaps, volScalar: real): RiskDecision {
    if req.stopDistance <= 0.0 then Reject(NoStopDistance)
    else if caps.validatedEdge.None? then Reject(UnvalidatedSetup)
    else if volScalar <= 0.0 then Reject(SizeBelowOneShare)
    else
      var risk := CappedRisk(req, caps, volScalar, CapsKelly(caps));
      var qtyRisk := RiskShares(req, risk.0);
      var qtyLiquidity := caps.participationCapPct * req.trailingVolume.GetOr(0.0);
      if req.price <= 0.0 then
        RiskDecision(false, 0, 0.0, None, NoPrice, qtyRisk, qtyLiquidity, 0.0)
      else
        var qtyNotional := caps.sleeveNotionalRoomUsd / req.NotionalPerShare();
        var tightest :=
          if qtyLiquidity < qtyRisk then
            if qtyNotional < qtyLiquidity then (qtyNotional, ByNotional) else (qtyLiquidity, ByLiquidity)
          else if qtyNotional < qtyRisk then (qtyNotional, ByNotional) else (qtyRisk, risk.1);
        var final :=
          if caps.maxLeveragePct.Some?
             && req.equity * caps.maxLeveragePct.value / req.NotionalPerShare() < tightest.0
          then (req.equity * caps.maxLeveragePct.value / req.NotionalPerShare(), ByLeverage)
          else tightest;
        if final.0.Floor < 1 then
          RiskDecision(false, 0, 0.0, Some(final.1), SizeBelowOneShare, qtyRisk, qtyLiquidity, qtyNotional)
        else
          RiskDecision(true, final.0.Floor, risk.0, Some(final.1), Ok, qtyRisk, qtyLiquidity, qtyNotional)
  }

  // ---- an independent reading of the caps ----------------------------------------------------

  /** The inputs the pipeline cannot do without. */
  predicate Usable(req: RiskRequest, caps: SizingCaps, volScalar: real) {
    req.stopDistance > 0.0 && caps.validatedEdge.Some? && volScalar > 0.0 && req.price > 0.0
  }

  /** The Kelly fraction in its collapsed form: `fraction * edge * shrink / ratio`, floored at zero. */
  function KellyProduct(fraction: real, edge: real, shrink: real, ratio: real): real {
    if fraction <= 0.0 || shrink <= 0.0 || ratio <= 0.0 then 0.0
    else RMax(0.0, fraction * edge * shrink / ratio)
  }

  function CollapsedKelly(caps: SizingCaps): real
    requires caps.validatedEdge.Some?
  {
    KellyProduct(caps.kellyFraction, caps.validatedEdge.value, caps.kellyShrink, caps.kellyWinLossRatio.GetOr(1.0))
  }

  /** Every cap as a plain number: four risk fractions, a share count and two dollar amounts. */
  datatype Limits = Limits(
    request: real, sleeve: real, heat: real, kelly: real, shares: real, usd: real, leverageUsd: Option<real>)

  function LimitsOf(req: RiskRequest, caps: SizingCaps, volScalar: real): Limits
    requires caps.validatedEdge.Some?
  {
    Limits(VolRisk(req.requestedRiskPct, volScalar),
           VolRisk(caps.sleeveRiskRemainingPct, volScalar),
           VolRisk(caps.houseHeatRemainingPct, volScalar),
           CollapsedKelly(caps),
           LiquidityShares(req, caps),
           caps.sleeveNotionalRoomUsd,
           LeverageUsd(req, caps))
  }

  function LiquidityShares(req: RiskRequest, caps: SizingCaps): real {
    caps.participationCapPct * req.trailingVolume.GetOr(0.0)
  }

  function LeverageUsd(req: RiskRequest, caps: SizingCaps): Option<real> {
    if caps.maxLeveragePct.None? then None else Some(req.equity * caps.maxLeveragePct.value)
  }

  /** `n` shares risk no more than a fraction `r` of equity. */
  predicate RiskFits(req: RiskRequest, n: int, r: real) {
    n as real * req.stopDistance <= req.equity * r
  }

  /** `n` shares cost no more than `usd`. */
  predicate NotionalFits(req: RiskRequest, n: int, usd: real) {
    n as real * req.price <= usd
  }

  /** `n` shares fit every limit, each on its own. */
  predicate FitsLimits(req: RiskRequest, l: Limits, n: int) {
    && RiskFits(req, n, l.request) && RiskFits(req, n, l.sleeve)
    && RiskFits(req, n, l.heat) && RiskFits(req, n, l.kelly)
    && n as real <= l.shares
    && NotionalFits(req, n, l.usd)
    && (l.leverageUsd.Some? ==> NotionalFits(req, n, l.leverageUsd.value))
  }

  predicate Fits(req: RiskRequest, caps: SizingCaps, volScalar: real, n: int)
    requires caps.validatedEdge.Some?
  {
    FitsLimits(req, LimitsOf(req, caps, volScalar), n)
  }

  // ---- Kelly ---------------------------------------------------------------------------------

  /** The win-probability route and the collapsed form are the same number. */
  lemma KellyCollapses(edge: real, fraction: real, ratio: real, shrink: real)
    ensures KellyCap(edge, fraction, ratio, shrink) == KellyProduct(fraction, edge, shrink, ratio) >= 0.0
  {
    if fraction > 0.0 && shrink > 0.0 && ratio > 0.0 {
      FullKellyIsEdgeOverRatio(edge, ratio);
      var k := edge / ratio;
      var q := fraction * edge * shrink / ratio;
      assert q * ratio == fraction * edge * shrink;
      assert (fraction * k * shrink) * ratio == fraction * (k * ratio) * shrink;
      assert (q - fraction * k * shrink) * ratio == 0.0;
    }
  }

  lemma FullKellyIsEdgeOverRatio(edge: real, ratio: real)
    requires ratio > 0.0
    ensures var p := (1.0 + edge) / (1.0 + ratio);
            (ratio * p - (1.0 - p)) / ratio == edge / ratio
  {
    var p := (1.0 + edge) / (1.0 + ratio);
    assert p * (1.0 + ratio) == 1.0 + edge;
    assert ratio * p - (1.0 - p) == edge;
  }

  lemma CapsKellyCollapses(caps: SizingCaps)
    requires caps.validatedEdge.Some?
    ensures CapsKelly(caps) == CollapsedKelly(caps) >= 0.0
  {
    KellyCollapses(caps.validatedEdge.value, caps.kellyFraction, caps.kellyWinLossRatio.GetOr(1.0), caps.kellyShrink);
  }

  // ---- the sizer is the greatest fit -----------------------------------------------------------

  lemma RiskMono(equity: real, c: real, r: real, need: real)
    requires need > 0.0 && 0.0 <= c <= r && need <= equity * c
    ensures equity > 0.0 && need <= equity * r
  {
    if equity <= 0.0 { MulMono(0.0, c, -equity); }
    MulMono(c, r, equity);
  }

  lemma RiskFitsMono(req: RiskRequest, n: int, r: real, s: real)
    requires n >= 1 && req.stopDistance > 0.0 && 0.0 <= r <= s && RiskFits(req, n, r)
    ensures req.equity > 0.0 && RiskFits(req, n, s)
  {
    MulPositive(n as real, req.stopDistance);
    RiskMono(req.equity, r, s, n as real * req.stopDistance);
  }

  lemma RiskSharesFits(req: RiskRequest, n: int, c: real)
    requires req.stopDistance > 0.0
    ensures n as real <= RiskShares(req, c) <==> RiskFits(req, n, c)
  {
    DivLe(n as real, req.equity * c, req.stopDistance);
  }

  function NotionalShares(req: RiskRequest, usd: real): real
    requires req.price > 0.0
  {
    usd / req.price
  }

  lemma NotionalSharesFits(req: RiskRequest, n: int, usd: real)
    requires req.price > 0.0
    ensures n as real <= NotionalShares(req, usd) <==> NotionalFits(req, n, usd)
  {
    DivLe(n as real, usd, req.price);
  }

  function LeastRisk(l: Limits): real {
    RMin(RMin(RMin(l.request, l.sleeve), l.heat), l.kelly)
  }

  predicate RisksNonNegative(l: Limits) {
    l.request >= 0.0 && l.sleeve >= 0.0 && l.heat >= 0.0 && l.kelly >= 0.0
  }

  /** Fitting the least of the four risk fractions is fitting each of them. */
  lemma LeastRiskFits(req: RiskRequest, l: Limits, n: int)
    requires n >= 1 && req.stopDistance > 0.0 && RisksNonNegative(l)
    ensures RiskFits(req, n, LeastRisk(l)) <==>
      RiskFits(req, n, l.request) && RiskFits(req, n, l.sleeve) && RiskFits(req, n, l.heat) && RiskFits(req, n, l.kelly)
  {
    var c := LeastRisk(l);
    if RiskFits(req, n, c) {
      RiskFitsMono(req, n, c, l.request);
      RiskFitsMono(req, n, c, l.sleeve);
      RiskFitsMono(req, n, c, l.heat);
      RiskFitsMono(req, n, c, l.kelly);
    }
  }

  /** The pre-floor quantity, from plain limits. */
  function RawQty(req: RiskRequest, l: Limits): real
    requires req.stopDistance > 0.0 && req.price > 0.0
  {
    Least(RiskShares(req, LeastRisk(l)), l.shares, NotionalShares(req, l.usd),
          if l.leverageUsd.Some? then Some(NotionalShares(req, l.leverageUsd.value)) else None)
  }

  function Least(x: real, y: real, z: real, w: Option<real>): real {
    if w.Some? then RMin(RMin(RMin(x, y), z), w.value) else RMin(RMin(x, y), z)
  }

  lemma RawQtyFits(req: RiskRequest, l: Limits, n: int)
    requires n >= 1 && req.stopDistance > 0.0 && req.price > 0.0 && RisksNonNegative(l)
    ensures n as real <= RawQty(req, l) <==> FitsLimits(req, l, n)
  {
    RiskSharesFits(req, n, LeastRisk(l));
    LeastRiskFits(req, l, n);
    NotionalSharesFits(req, n, l.usd);
    if l.leverageUsd.Some? {
      NotionalSharesFits(req, n, l.leverageUsd.value);
    }
  }

  lemma VolRiskMono(r: real, s: real, volScalar: real)
    requires r <= s && volScalar > 0.0
    ensures 0.0 <= VolRisk(r, volScalar) <= VolRisk(s, volScalar)
  {
    MulMono(r, s, volScalar);
  }

  /** Scaling the tightest budget is taking the tightest scaled budget. */
  lemma CappedRiskIsLeast(req: RiskRequest, caps: SizingCaps, volScalar: real)
    requires Usable(req, caps, volScalar)
    ensures RisksNonNegative(LimitsOf(req, caps, volScalar))
    ensures CappedRisk(req, caps, volScalar, CapsKelly(caps)).0 == LeastRisk(LimitsOf(req, caps, volScalar))
  {
    CapsKellyCollapses(caps);
    var r, s, h := req.requestedRiskPct, caps.sleeveRiskRemainingPct, caps.houseHeatRemainingPct;
    var t := TightestBudget(req, caps).0;
    VolRiskMono(t, r, volScalar);
    VolRiskMono(t, s, volScalar);
    VolRiskMono(t, h, volScalar);
  }

  lemma SizeIsFloor(req: RiskRequest, caps: SizingCaps, volScalar: real)
    requires Usable(req, caps, volScalar)
    ensures var raw, d := RawQty(req, LimitsOf(req, caps, volScalar)), Size(req, caps, volScalar);
            && (d.ok <==> raw.Floor >= 1)
            && (d.ok ==> d.qty == raw.Floor)
  {
    CappedRiskIsLeast(req, caps, volScalar);
  }

  /**
   * The sizer is optimal: it succeeds exactly when one share fits every cap, and then returns the
   * greatest count that does.
   */
  lemma SizeIsGreatestFit(req: RiskRequest, caps: SizingCaps, volScalar: real)
    ensures Size(req, caps, volScalar).ok <==>
      Usable(req, caps, volScalar) && exists n :: n >= 1 && Fits(req, caps, volScalar, n)
    ensures Size(req, caps, volScalar).ok ==>
      var q := Size(req, caps, volScalar).qty;
      && q >= 1 && Fits(req, caps, volScalar, q)
      && forall n :: n >= 1 && Fits(req, caps, volScalar, n) ==> n <= q
    ensures !Size(req, caps, volScalar).ok ==>
      Size(req, caps, volScalar).qty == 0 && Size(req, caps, volScalar).riskPct == 0.0
  {
    if Usable(req, caps, volScalar) {
      var l := LimitsOf(req, caps, volScalar);
      var raw := RawQty(req, l);
      CappedRiskIsLeast(req, caps, volScalar);
      SizeIsFloor(req, caps, volScalar);
      forall n | n >= 1
        ensures n <= raw.Floor <==> FitsLimits(req, l, n)
      {
        RawQtyFits(req, l, n);
      }
      if raw.Floor >= 1 {
        assert Fits(req, caps, volScalar, raw.Floor);
      }
    }
  }

  /** With the scalar at 1 the sized quantity risks no more than the requested fraction. */
  lemma SizedRiskWithinRequest(req: RiskRequest, caps: SizingCaps)
    requires Size(req, caps, 1.0).ok && req.requestedRiskPct >= 0.0
    ensures Size(req, caps, 1.0).qty >= 1
    ensures RiskFits(req, Size(req, caps, 1.0).qty, req.requestedRiskPct)
  {
    SizeIsGreatestFit(req, caps, 1.0);
    UnitScalar(req.requestedRiskPct);
  }

  /** Nor more than the heat the house has left. */
  lemma SizedRiskWithinHeat(req: RiskRequest, caps: SizingCaps)
    requires Size(req, caps, 1.0).ok && caps.houseHeatRemainingPct >= 0.0
    ensures Size(req, caps, 1.0).qty >= 1
    ensures RiskFits(req, Size(req, caps, 1.0).qty, caps.houseHeatRemainingPct)
  {
    SizeIsGreatestFit(req, caps, 1.0);
    UnitScalar(caps.houseHeatRemainingPct);
  }

  lemma UnitScalar(r: real)
    requires r >= 0.0
    ensures VolRisk(r, 1.0) == r
  {
  }

  // ---- what a rejection says -------------------------------------------------------------------

  /** Why there is no quantity, exactly: the first thing missing, and otherwise that not one share fits. */
  lemma RejectedExactlyFor(req: RiskRequest, caps: SizingCaps, volScalar: real)
    ensures var d := Size(req, caps, volScalar);
      && (d.reason == NoStopDistance <==> req.stopDistance <= 0.0)
      && (d.reason == UnvalidatedSetup <==> req.stopDistance > 0.0 && caps.validatedEdge.None?)
      && (d.reason == NoPrice <==>
            req.stopDistance > 0.0 && caps.validatedEdge.Some? && volScalar > 0.0 && req.price <= 0.0)
      && (d.reason == Ok <==> d.ok)
      && (d.reason in {NoStopDistance, UnvalidatedSetup} ==> d == Reject(d.reason))
      && (d.binding.Some? <==> Usable(req, caps, volScalar))
      && (d.reason in {NoStopDistance, UnvalidatedSetup} ==>
            d.qtyRisk == 0.0 && d.qtyLiquidity == 0.0 && d.qtyNotional == 0.0)
  {
  }

  /** No other of the three budgets is smaller, and none listed before it is as small. */
  predicate FirstSmallest(req: RiskRequest, caps: SizingCaps, b: Binding) {
    var r, s, h := req.requestedRiskPct, caps.sleeveRiskRemainingPct, caps.houseHeatRemainingPct;
    match b
    case ByRisk => r <= s && r <= h
    case BySleeve => s < r && s <= h
    case ByHeat => h < r && h < s
    case _ => false
  }

  /** The risk is named after Kelly only below the scaled budget, else volatility if it scaled, else a budget. */
  lemma RiskIsNamedAfter(req: RiskRequest, caps: SizingCaps, volScalar: real, kelly: real)
    ensures var c, scaled := CappedRisk(req, caps, volScalar, kelly), VolRisk(TightestBudget(req, caps).0, volScalar);
      && (c.1 == ByKelly <==> kelly < scaled)
      && (c.1 == ByVol <==> kelly >= scaled && volScalar < 1.0)
      && (kelly >= scaled && volScalar >= 1.0 ==> FirstSmallest(req, caps, c.1))
      && c.1 in {ByKelly, ByVol, ByRisk, BySleeve, ByHeat}
  {
  }

  /** The shares the leverage ceiling leaves, if there is one. */
  function LeverageShares(req: RiskRequest, caps: SizingCaps): Option<real>
    requires req.price > 0.0
  {
    if caps.maxLeveragePct.None? then None
    else Some(req.equity * caps.maxLeveragePct.value / req.NotionalPerShare())
  }

  /**
   * Which cap the decision names, read off the candidates it reports: leverage only if it is below all
   * three of them, else the first of risk, liquidity and notional that is smallest; the risk goes by
   * the name of what set it.
   */
  lemma BindingIsTheFirstTightest(req: RiskRequest, caps: SizingCaps, volScalar: real)
    requires Usable(req, caps, volScalar)
    ensures var d, leverage := Size(req, caps, volScalar), LeverageShares(req, caps);
      var r, l, n := d.qtyRisk, d.qtyLiquidity, d.qtyNotional;
      var levered := leverage.Some? && leverage.value < r && leverage.value < l && leverage.value < n;
      && d.binding.Some?
      && (d.binding == Some(ByLeverage) <==> levered)
      && (d.binding == Some(ByLiquidity) <==> !levered && l < r && l <= n)
      && (d.binding == Some(ByNotional) <==> !levered && n < r && n < l)
      && (!levered && r <= l && r <= n ==> d.binding == Some(CappedRisk(req, caps, volScalar, CapsKelly(caps)).1))
  {
    RiskIsNamedAfter(req, caps, volScalar, CapsKelly(caps));
  }

  /** The reported candidates are the shares each cap leaves on its own. */
  lemma CandidatesAre(req: RiskRequest, caps: SizingCaps, volScalar: real, n: int)
    requires Usable(req, caps, volScalar)
    ensures var d, l := Size(req, caps, volScalar), LimitsOf(req, caps, volScalar);
      && (n as real <= d.qtyRisk <==> RiskFits(req, n, LeastRisk(l)))
      && d.qtyLiquidity == l.shares
      && (n as real <= d.qtyNotional <==> NotionalFits(req, n, l.usd))
      && (d.ok ==> d.riskPct == LeastRisk(l))
  {
    CappedRiskIsLeast(req, caps, volScalar);
    RiskSharesFits(req, n, LeastRisk(LimitsOf(req, caps, volScalar)));
    NotionalSharesFits(req, n, caps.sleeveNotionalRoomUsd);
  }

  // ---- tightening ----------------------------------------------------------------------------

  /** Every cap of `b` is at least as loose as the cap of `a`. */
  predicate Tighter(a: SizingCaps, b: SizingCaps) {
    && a.sleeveRiskRemainingPct <= b.sleeveRiskRemainingPct
    && a.houseHeatRemainingPct <= b.houseHeatRemainingPct
    && a.sleeveNotionalRoomUsd <= b.sleeveNotionalRoomUsd
    && a.participationCapPct <= b.participationCapPct
    && a.kellyFraction <= b.kellyFraction
    && a.kellyShrink <= b.kellyShrink
    && a.kellyWinLossRatio == b.kellyWinLossRatio
    && (a.validatedEdge.Some? ==> b.validatedEdge.Some? && a.validatedEdge.value <= b.validatedEdge.value)
    && (b.maxLeveragePct.Some? ==> a.maxLeveragePct.Some? && a.maxLeveragePct.value <= b.maxLeveragePct.value)
  }

  predicate LimitsWithin(a: Limits, b: Limits) {
    && a.request <= b.request && a.sleeve <= b.sleeve && a.heat <= b.heat && a.kelly <= b.kelly
    && a.shares <= b.shares && a.usd <= b.usd
    && (b.leverageUsd.Some? ==> a.leverageUsd.Some? && a.leverageUsd.value <= b.leverageUsd.value)
  }

  lemma FitsLimitsMono(req: RiskRequest, a: Limits, b: Limits, n: int)
    requires n >= 1 && req.stopDistance > 0.0 && RisksNonNegative(a)
    requires LimitsWithin(a, b) && FitsLimits(req, a, n)
    ensures FitsLimits(req, b, n)
  {
    RiskFitsMono(req, n, a.request, b.request);
    RiskFitsMono(req, n, a.sleeve, b.sleeve);
    RiskFitsMono(req, n, a.heat, b.heat);
    RiskFitsMono(req, n, a.kelly, b.kelly);
  }

  lemma MulMono2(a: real, b: real, c: real, d: real)
    requires 0.0 <= a <= b && 0.0 <= c <= d
    ensures 0.0 <= a * c <= b * d
  {
    MulMono(a, b, c);
    MulMono(c, d, b);
  }

  lemma KellyProductMono(fa: real, fb: real, ea: real, eb: real, sa: real, sb: real, ratio: real)
    requires fa <= fb && ea <= eb && sa <= sb
    ensures KellyProduct(fa, ea, sa, ratio) <= KellyProduct(fb, eb, sb, ratio)
  {
    if fa > 0.0 && sa > 0.0 && ratio > 0.0 {
      var x, y := fa * ea * sa, fb * eb * sb;
      DivLe(x / ratio, y, ratio);
      DivLe(x / ratio, x, ratio);
      DivLe(x / ratio, 0.0, ratio);
      if ea > 0.0 {
        MulMono2(fa, fb, ea, eb);
        MulMono2(fa * ea, fb * eb, sa, sb);
      } else {
        MulMono(ea, 0.0, fa);
        MulMono(fa * ea, 0.0, sa);
      }
    }
  }

  lemma KellyMono(a: SizingCaps, b: SizingCaps)
    requires Tighter(a, b) && a.validatedEdge.Some?
    ensures CollapsedKelly(a) <= CollapsedKelly(b)
  {
    KellyProductMono(a.kellyFraction, b.kellyFraction, a.validatedEdge.value, b.validatedEdge.value,
                     a.kellyShrink, b.kellyShrink, a.kellyWinLossRatio.GetOr(1.0));
  }

  lemma LeverageMono(req: RiskRequest, a: SizingCaps, b: SizingCaps)
    requires Tighter(a, b) && req.equity > 0.0
    ensures LeverageUsd(req, b).Some? ==>
      LeverageUsd(req, a).Some? && LeverageUsd(req, a).value <= LeverageUsd(req, b).value
  {
    if b.maxLeveragePct.Some? { MulMono(a.maxLeveragePct.value, b.maxLeveragePct.value, req.equity); }
  }

  lemma LiquidityMono(req: RiskRequest, a: SizingCaps, b: SizingCaps)
    requires Tighter(a, b) && req.trailingVolume.GetOr(0.0) >= 0.0
    ensures LiquidityShares(req, a) <= LiquidityShares(req, b)
  {
    MulMono(a.participationCapPct, b.participationCapPct, req.trailingVolume.GetOr(0.0));
  }

  lemma TighterLimits(req: RiskRequest, a: SizingCaps, b: SizingCaps, volScalar: real)
    requires Tighter(a, b) && a.validatedEdge.Some? && volScalar > 0.0
    requires req.equity > 0.0 && req.trailingVolume.GetOr(0.0) >= 0.0
    ensures LimitsWithin(LimitsOf(req, a, volScalar), LimitsOf(req, b, volScalar))
  {
    VolRiskMono(a.sleeveRiskRemainingPct, b.sleeveRiskRemainingPct, volScalar);
    VolRiskMono(a.houseHeatRemainingPct, b.houseHeatRemainingPct, volScalar);
    KellyMono(a, b);
    LiquidityMono(req, a, b);
    LeverageMono(req, a, b);
  }

  /** Tightening any cap never raises the quantity (a traded volume is never negative). */
  lemma TighteningNeverRaisesQty(req: RiskRequest, a: SizingCaps, b: SizingCaps, volScalar: real)
    requires Tighter(a, b) && req.trailingVolume.GetOr(0.0) >= 0.0
    ensures Size(req, a, volScalar).qty <= Size(req, b, volScalar).qty
    ensures Size(req, a, volScalar).ok ==> Size(req, b, volScalar).ok
  {
    SizeIsGreatestFit(req, a, volScalar);
    SizeIsGreatestFit(req, b, volScalar);
    if Size(req, a, volScalar).ok {
      var n, la, lb := Size(req, a, volScalar).qty, LimitsOf(req, a, volScalar), LimitsOf(req, b, volScalar);
      CappedRiskIsLeast(req, a, volScalar);
      RiskFitsMono(req, n, la.request, la.request);
      TighterLimits(req, a, b, volScalar);
      FitsLimitsMono(req, la, lb, n);
      assert Fits(req, b, volScalar, n);
    }
  }

  // ---- the binding name ------------------------------------------------------------------------

  /** The candidate a binding name stands for, in shares. */
  function Candidate(req: RiskRequest, l: Limits, tightest: real, b: Binding): real
    requires req.stopDistance > 0.0 && req.price > 0.0
    requires b == ByLeverage ==> l.leverageUsd.Some?
  {
    match b
    case ByLiquidity => l.shares
    case ByNotional => NotionalShares(req, l.usd)
    case ByLeverage => NotionalShares(req, l.leverageUsd.value)
    case ByKelly => RiskShares(req, l.kelly)
    case ByRisk => RiskShares(req, l.request)
    case BySleeve => RiskShares(req, l.sleeve)
    case ByHeat => RiskShares(req, l.heat)
    case ByVol => RiskShares(req, tightest)
  }

  lemma CappedRiskNamed(req: RiskRequest, caps: SizingCaps, volScalar: real)
    requires Usable(req, caps, volScalar)
    ensures var c, l := CappedRisk(req, caps, volScalar, CapsKelly(caps)), LimitsOf(req, caps, volScalar);
            && c.1 in {ByRisk, BySleeve, ByHeat, ByVol, ByKelly}
            && (c.1 == ByVol ==> volScalar < 1.0)
            && c.0 == (match c.1
                       case ByKelly => l.kelly
                       case ByRisk => l.request
                       case BySleeve => l.sleeve
                       case ByHeat => l.heat
                       case _ => VolRisk(TightestBudget(req, caps).0, volScalar))
  {
    CapsKellyCollapses(caps);
  }

  /** The binding name is honest: the cap it names is the one that refuses one more share. */
  lemma BindingRefusesOneMore(req: RiskRequest, caps: SizingCaps, volScalar: real)
    requires Usable(req, caps, volScalar)
    ensures var d, l := Size(req, caps, volScalar), LimitsOf(req, caps, volScalar);
            var tightest := VolRisk(TightestBudget(req, caps).0, volScalar);
            && d.binding.Some?
            && (d.binding == Some(ByLeverage) ==> l.leverageUsd.Some?)
            && (d.binding == Some(ByVol) ==> volScalar < 1.0)
            && Candidate(req, l, tightest, d.binding.value) == RawQty(req, l)
            && Candidate(req, l, tightest, d.binding.value) < (d.qty + 1) as real
  {
    CappedRiskNamed(req, caps, volScalar);
    CappedRiskIsLeast(req, caps, volScalar);
    SizeIsFloor(req, caps, volScalar);
  }
}
