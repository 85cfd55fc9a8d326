/**
 * signald/order/policy.py: how one sized intent becomes child orders, where their limit lies and
 * how the quantity is sliced.
 */
module OrderPolicy {
  import opened Prelude
  import opened RiskState
  import opened Prices

  const MIN_DEVIATION_BPS := 5.0
  const PARTICIPATION_CAP := 0.05
  const MAX_CHILDREN := 5

  datatype Style = MarketableLimit | RestingLimit

  function StyleFor(setup: Setup): Style {
    if setup.VwapRevert? || setup.GapFade? then RestingLimit else MarketableLimit
  }

  function DeviationBps(spreadBps: Option<real>, costLiquidBps: real): real {
    var cap := RMax(MIN_DEVIATION_BPS, costLiquidBps / 2.0);
    if spreadBps.Some? then RMax(cap, 2.0 * spreadBps.value) else cap
  }

  /** The cap is the least that is at least five basis points, half the liquid cost, and twice a known spread. */
  lemma DeviationIsLeast(spreadBps: Option<real>, costLiquidBps: real, bps: real)
    ensures DeviationBps(spreadBps, costLiquidBps) <= bps
       <==> (bps >= 5.0 && 2.0 * bps >= costLiquidBps && (spreadBps.Some? ==> bps >= 2.0 * spreadBps.value))
  {
  }

  // ---- the limit -------------------------------------------------------------------------------

  /** The furthest price the deviation cap names. */
  function RawCap(price: real, side: Side, deviation: real): real {
    if side.Buy? then price * (1.0 + deviation / 10000.0) else price * (1.0 - deviation / 10000.0)
  }

  function MarketablePrice(rnd: real -> int, price: real, side: Side, raw: real): real {
    var limit := RoundPrice(rnd, raw);
    if side.Buy? && limit <= price then RoundPrice(rnd, limit + TickFor(limit))
    else if side.Sell? && limit >= price then RoundPrice(rnd, limit - TickFor(limit))
    else limit
  }

  function RestingPrice(rnd: real -> int, price: real, side: Side): real {
    var limit := RoundPrice(rnd, price);
    if side.Buy? && limit > price then RoundPrice(rnd, limit - TickFor(limit))
    else if side.Sell? && limit < price then RoundPrice(rnd, limit + TickFor(limit))
    else limit
  }

  function LimitPrice(rnd: real -> int, price: real, side: Side, deviation: real, style: Style): real {
    if style.MarketableLimit? then MarketablePrice(rnd, price, side, RawCap(price, side, deviation))
    else RestingPrice(rnd, price, side)
  }

  /** A marketable limit crosses the last price strictly and passes its cap by at most one tick. */
  predicate Crosses(limit: real, price: real, side: Side, raw: real) {
    if side.Buy? then price < limit <= raw + TickFor(limit) else raw - TICK_LARGE <= limit < price
  }

  /** A resting limit never crosses the last price and stays within one tick of it. */
  predicate Rests(limit: real, price: real, side: Side) {
    if side.Buy? then price - TICK_LARGE <= limit <= price else price <= limit <= price + TickFor(limit)
  }

  lemma CapIsBeyond(price: real, side: Side, deviation: real)
    requires price > 0.0 && deviation > 0.0
    ensures if side.Buy? then RawCap(price, side, deviation) > price else RawCap(price, side, deviation) < price
  {
    var d := deviation / 10000.0;
    assert price * d > 0.0;
    assert RawCap(price, side, deviation) == if side.Buy? then price + price * d else price - price * d;
  }

  lemma MarketableCrosses(rnd: real -> int, price: real, side: Side, raw: real)
    requires Nearest(rnd) && price > 0.0
    requires if side.Buy? then raw > price else raw < price
    ensures OnGrid(MarketablePrice(rnd, price, side, raw))
    ensures Crosses(MarketablePrice(rnd, price, side, raw), price, side, raw)
  {
    var limit := RoundPrice(rnd, raw);
    RoundedIsOnGrid(rnd, raw);
    if side.Buy? && limit <= price {
      assert limit >= 0.0 by { RoundNonNegative(rnd, raw); }
      StepStaysOnGrid(limit);
      GridIsFixedPoint(rnd, limit + TickFor(limit));
    } else if side.Sell? && limit >= price {
      StepStaysOnGrid(limit);
      GridIsFixedPoint(rnd, limit - TickFor(limit));
    }
  }

  lemma RoundNonNegative(rnd: real -> int, price: real)
    requires Nearest(rnd) && price >= 0.0
    ensures RoundPrice(rnd, price) >= 0.0
  {
    assert -0.5 <= rnd(price * 100.0) as real - price * 100.0;
    assert -0.5 <= rnd(price * 10000.0) as real - price * 10000.0;
  }

  lemma RestingRests(rnd: real -> int, price: real, side: Side)
    requires Nearest(rnd) && price > 0.0
    ensures OnGrid(RestingPrice(rnd, price, side))
    ensures Rests(RestingPrice(rnd, price, side), price, side)
  {
    var limit := RoundPrice(rnd, price);
    RoundedIsOnGrid(rnd, price);
    RoundNonNegative(rnd, price);
    StepStaysOnGrid(limit);
    GridIsFixedPoint(rnd, limit + TickFor(limit));
    GridIsFixedPoint(rnd, limit - TickFor(limit));
  }

  /** A resting bid under the smallest tick has nowhere to rest: its limit is zero. */
  lemma RestingBidIsPositiveExactlyWhen(rnd: real -> int, price: real)
    requires Nearest(rnd) && price > 0.0
    ensures RestingPrice(rnd, price, Buy) > 0.0 <==> price >= TICK_SMALL
  {
    var limit := RoundPrice(rnd, price);
    RoundedIsOnGrid(rnd, price);
    RoundNonNegative(rnd, price);
    RestingRests(rnd, price, Buy);
    var rest := RestingPrice(rnd, price, Buy);
    if price < 1.0 {
      assert limit * 10000.0 == rnd(price * 10000.0) as real;
      if rest != limit {
        StepStaysOnGrid(limit);
        GridIsFixedPoint(rnd, limit - TickFor(limit));
        assert rest == limit - TickFor(limit);
      }
      if price < TICK_SMALL {
        assert rest < TICK_SMALL;
        assert rest * 10000.0 <= 0.0;
      }
    }
  }

  /** A price on the grid is rested on as it is. */
  lemma RestsOnTheTouch(rnd: real -> int, price: real, side: Side)
    requires Nearest(rnd) && OnGrid(price)
    ensures RestingPrice(rnd, price, side) == price
  {
    GridIsFixedPoint(rnd, price);
  }

  // ---- slicing ---------------------------------------------------------------------------------

  function PerChild(adv: real): real {
    PARTICIPATION_CAP * adv
  }

  predicate KnownAdv(adv: Option<real>) {
    adv.Some? && adv.value > 0.0
  }

  function SliceCount(qty: nat, adv: Option<real>): int
    requires qty >= 1
  {
    if !KnownAdv(adv) then 1
    else IMin(IMin(MAX_CHILDREN, IMax(1, Ceil(qty as real / PerChild(adv.value)))), qty)
  }

  lemma SliceCountBounds(qty: nat, adv: Option<real>)
    requires qty >= 1
    ensures 1 <= SliceCount(qty, adv) <= IMin(MAX_CHILDREN, qty)
  {
  }

  function ChildSizes(qty: nat, count: nat): seq<int>
    requires count >= 1
  {
    var base, remainder := qty / count, qty % count;
    seq(count - 1, i => base) + [base + remainder]
  }

  lemma SizesAt(qty: nat, count: nat)
    requires count >= 1
    ensures var sizes := ChildSizes(qty, count);
      && |sizes| == count && sizes[count - 1] == qty / count + qty % count
      && forall i :: 0 <= i < count - 1 ==> sizes[i] == qty / count
  {
  }

  function Total(s: seq<int>): int {
    if s == [] then 0 else Total(s[..|s| - 1]) + s[|s| - 1]
  }

  lemma {:induction false} TotalOfEqual(s: seq<int>, base: int)
    requires forall i :: 0 <= i < |s| ==> s[i] == base
    ensures Total(s) == |s| * base
  {
    if s != [] { TotalOfEqual(s[..|s| - 1], base); }
  }

  /** The children carry the whole quantity, none is empty, and there are at most five. */
  lemma ChildrenCarryTheOrder(qty: nat, adv: Option<real>)
    requires qty >= 1
    ensures 1 <= SliceCount(qty, adv) <= MAX_CHILDREN
    ensures var sizes := ChildSizes(qty, SliceCount(qty, adv));
      && |sizes| == SliceCount(qty, adv) && Total(sizes) == qty
      && forall i :: 0 <= i < |sizes| ==> sizes[i] >= 1
  {
    var count := SliceCount(qty, adv);
    var base := qty / count;
    var equal := seq(count - 1, i => base);
    TotalOfEqual(equal, base);
    assert ChildSizes(qty, count)[..count - 1] == equal;
    DivMod(qty, count);
  }

  lemma DivMod(qty: nat, count: nat)
    requires 1 <= count <= qty
    ensures qty / count >= 1
    ensures qty == (count - 1) * (qty / count) + (qty / count + qty % count)
  {
    assert qty == count * (qty / count) + qty % count;
  }

  /** Neither the five-child cap nor the one-share floor decides the slice count. */
  predicate Unclamped(qty: nat, adv: real)
    requires adv > 0.0
  {
    Ceil(qty as real / PerChild(adv)) <= IMin(MAX_CHILDREN, qty)
  }

  lemma UnclampedCount(qty: nat, adv: real)
    requires qty >= 1 && adv > 0.0
    ensures Unclamped(qty, adv) <==> qty as real <= SliceCount(qty, Some(adv)) as real * PerChild(adv)
  {
    var per := PerChild(adv);
    var q := qty as real / per;
    var count := SliceCount(qty, Some(adv));
    DivLe(count as real, qty as real, per);
    assert Ceil(q) as real >= q > Ceil(q) as real - 1.0;
    assert q > 0.0 by { DivLe(0.0, qty as real, per); }
    assert q <= count as real <==> Ceil(q) <= count;
    assert q <= count as real <==> qty as real <= count as real * per;
  }

  /** Over plain numbers: `per` shares a child, `count` children of `base`, the last with `rem` more. */
  lemma SliceArithmetic(qty: int, count: int, base: int, rem: int, per: real)
    requires 1 <= count <= MAX_CHILDREN && 0 <= rem < count && qty == count * base + rem
    ensures qty as real <= count as real * per ==> base as real <= per
    ensures qty as real <= count as real * per ==> (base + rem) as real <= per + 3.2
    ensures base as real <= per && (base + rem) as real <= per ==> qty as real <= count as real * per
  {
    if count == 1 {
    } else if count == 2 {
    } else if count == 3 {
    } else if count == 4 {
    } else {
      assert count == 5;
    }
  }

  /**
   * The 5% participation cap, child by child. Where no clamp decides, every child but the last
   * keeps it and the last exceeds it by at most 3.2 shares; where one does, some child exceeds it.
   */
  lemma ParticipationOfChildren(qty: nat, adv: real)
    requires qty >= 1 && adv > 0.0
    ensures var sizes := ChildSizes(qty, SliceCount(qty, Some(adv)));
      && |sizes| >= 1
      && (Unclamped(qty, adv) ==>
            && (forall i :: 0 <= i < |sizes| - 1 ==> sizes[i] as real <= PerChild(adv))
            && sizes[|sizes| - 1] as real <= PerChild(adv) + 3.2)
      && (!Unclamped(qty, adv) ==> exists i :: 0 <= i < |sizes| && sizes[i] as real > PerChild(adv))
  {
    var count, per := SliceCount(qty, Some(adv)), PerChild(adv);
    SliceCountBounds(qty, Some(adv));
    UnclampedCount(qty, adv);
    assert qty == count * (qty / count) + qty % count;
    SliceArithmetic(qty, count, qty / count, qty % count, per);
    SizesAt(qty, count);
    if !Unclamped(qty, adv) {
      var i := if (qty / count) as real > per then 0 else count - 1;
      var sizes := ChildSizes(qty, count);
      assert 0 <= i < |sizes| && (sizes[i] == qty / count || sizes[i] == qty / count + qty % count);
    }
  }

  /** `count` children are the fewest that carry `qty` at `per` shares each, and the largest of them still fits. */
  predicate LargestFits(qty: nat, per: real, count: int)
    requires count >= 1
  {
    Fewest(qty, per, count) && Largest(qty, count) as real <= per
  }

  predicate Fewest(qty: nat, per: real, count: int) {
    (count - 1) as real * per < qty as real <= count as real * per
  }

  /** The last of `count` children: its own share and the remainder. */
  function Largest(qty: nat, count: int): int
    requires count >= 1
  {
    qty - (count - 1) * (qty / count)
  }

  lemma LargestChild(qty: nat, count: int)
    requires count >= 1
    ensures qty / count + qty % count == Largest(qty, count) >= qty / count
  {
    assert qty == count * (qty / count) + qty % count;
  }

  lemma FewestChildren(qty: nat, adv: real, count: int)
    requires qty >= 1 && adv > 0.0 && count >= 1
    ensures Fewest(qty, PerChild(adv), count) <==> Ceil(qty as real / PerChild(adv)) == count
  {
    var per := PerChild(adv);
    DivLe(count as real, qty as real, per);
    DivLe((count - 1) as real, qty as real, per);
    var q := qty as real / per;
    assert q * per == qty as real;
    assert q <= count as real <==> qty as real <= count as real * per by {
      if q <= count as real { MulMono(q, count as real, per); }
    }
  }

  lemma FewerSuffice(k: real, per: real, q: real)
    requires per > 0.0 && k * per < q <= per
    ensures k < 1.0
  {
    if k >= 1.0 { MulMono(1.0, k, per); }
  }

  /** A largest child that fits leaves every child at least a share. */
  lemma LargestFitsLeavesShares(qty: nat, per: real, count: int)
    requires qty >= 1 && per > 0.0 && count >= 1 && LargestFits(qty, per, count)
    ensures count <= qty
  {
    if count > qty {
      assert qty / count == 0 && (count - 1) * 0 == 0;
      assert Largest(qty, count) == qty;
      FewerSuffice((count - 1) as real, per, qty as real);
    }
  }

  predicate AllWithin(sizes: seq<int>, per: real) {
    forall i :: 0 <= i < |sizes| ==> sizes[i] as real <= per
  }

  /** The last child is the largest. */
  lemma AllWithinByTheLast(qty: nat, count: int, per: real)
    requires count >= 1
    ensures AllWithin(ChildSizes(qty, count), per) <==> Largest(qty, count) as real <= per
  {
    SizesAt(qty, count);
    LargestChild(qty, count);
    var sizes := ChildSizes(qty, count);
    assert forall i :: 0 <= i < |sizes| ==> sizes[i] <= sizes[count - 1];
  }

  /** Children that all fit are the fewest that carry the quantity. */
  lemma AllWithinIsFewest(qty: nat, adv: real)
    requires qty >= 1 && adv > 0.0
    ensures SliceCount(qty, Some(adv)) >= 1
    ensures AllWithin(ChildSizes(qty, SliceCount(qty, Some(adv))), PerChild(adv)) ==>
      Ceil(qty as real / PerChild(adv)) == SliceCount(qty, Some(adv))
  {
    SliceCountBounds(qty, Some(adv));
    ParticipationOfChildren(qty, adv);
    CeilPositive(qty, adv);
  }

  /**
   * The stated rule is that no child exceeds the participation cap. It holds exactly when some count
   * of at most five is the least that carries the quantity, and the largest of that many children,
   * which takes the remainder, fits.
   */
  lemma EveryChildFitsExactlyWhen(qty: nat, adv: real)
    requires qty >= 1 && adv > 0.0
    ensures SliceCount(qty, Some(adv)) >= 1
    ensures AllWithin(ChildSizes(qty, SliceCount(qty, Some(adv))), PerChild(adv))
       <==> exists count :: 1 <= count <= MAX_CHILDREN && LargestFits(qty, PerChild(adv), count)
  {
    var count, per := SliceCount(qty, Some(adv)), PerChild(adv);
    SliceCountBounds(qty, Some(adv));
    AllWithinIsFewest(qty, adv);
    AllWithinByTheLast(qty, count, per);
    FewestChildren(qty, adv, count);
    if AllWithin(ChildSizes(qty, count), per) {
      assert LargestFits(qty, per, count);
    }
    if c :| 1 <= c <= MAX_CHILDREN && LargestFits(qty, per, c) {
      FewestChildren(qty, adv, c);
      LargestFitsLeavesShares(qty, per, c);
      assert c == count;
    }
  }

  lemma CeilPositive(qty: nat, adv: real)
    requires qty >= 1 && adv > 0.0
    ensures Ceil(qty as real / PerChild(adv)) >= 1
  {
    DivLe(0.0, qty as real, PerChild(adv));
  }

  /** The bound of 3.2 shares is met: nine shares at a cap of 1.8 end in a child of five. */
  lemma LastChildOvershoots()
    ensures Unclamped(9, 36.0) && ChildSizes(9, SliceCount(9, Some(36.0))) == [1, 1, 1, 1, 5]
    ensures 5.0 == PerChild(36.0) + 3.2
  {
    var q := 9.0 / PerChild(36.0);
    assert q == 5.0;
    assert ChildSizes(9, 5) == [1, 1, 1, 1] + [5];
  }

  // ---- the plan --------------------------------------------------------------------------------

  datatype ChildOrder = ChildOrder(seqNo: nat, qty: int, style: Style, limit: real)

  datatype PlanError = NoQuantity | NoPrice

  datatype PlanResult = Planned(orders: seq<ChildOrder>, deviation: real) | Refused(error: PlanError)

  datatype PolicyConfig = PolicyConfig(costLiquidBps: real, costLowfloatBps: real)

  function Build(rnd: real -> int, qty: int, market: MarketState, side: Side, cfg: PolicyConfig,
                 style: Style, urgent: bool): PlanResult
  {
    if qty < 1 then Refused(NoQuantity)
    else if market.last.None? || market.last.value <= 0.0 then Refused(NoPrice)
    else
      var price := market.last.value;
      var base := DeviationBps(market.spreadBps, cfg.costLiquidBps);
      var deviation := if urgent then RMax(base, cfg.costLowfloatBps) else base;
      var count := SliceCount(qty, market.advShares);
      assert count >= 1 by { ChildrenCarryTheOrder(qty, market.advShares); }
      var sizes := ChildSizes(qty, count);
      var limit := LimitPrice(rnd, price, side, deviation, style);
      Planned(seq(|sizes|, i requires 0 <= i < |sizes| => ChildOrder(i, sizes[i], style, limit)), deviation)
  }

  /** What a limit must be, by style. */
  predicate SoundLimit(limit: real, price: real, side: Side, deviation: real, style: Style) {
    OnGrid(limit)
    && if style.RestingLimit? then Rests(limit, price, side)
       else Crosses(limit, price, side, RawCap(price, side, deviation))
  }

  lemma LimitIsSound(rnd: real -> int, price: real, side: Side, deviation: real, style: Style)
    requires Nearest(rnd) && price > 0.0 && deviation > 0.0
    ensures SoundLimit(LimitPrice(rnd, price, side, deviation, style), price, side, deviation, style)
  {
    CapIsBeyond(price, side, deviation);
    MarketableCrosses(rnd, price, side, RawCap(price, side, deviation));
    RestingRests(rnd, price, side);
  }

  function Quantities(orders: seq<ChildOrder>): seq<int> {
    seq(|orders|, i requires 0 <= i < |orders| => orders[i].qty)
  }

  /**
   * Every plan: priced on the grid, on the right side of the market, with a cap that an unknown
   * spread never widens, and carrying exactly the quantity asked for.
   */
  lemma PlanIsSound(rnd: real -> int, qty: int, market: MarketState, side: Side, cfg: PolicyConfig,
                    style: Style, urgent: bool)
    requires Nearest(rnd)
    ensures var plan := Build(rnd, qty, market, side, cfg, style, urgent);
      && (plan.Planned? <==> qty >= 1 && market.last.Some? && market.last.value > 0.0)
      && (plan.Planned? ==>
            && Total(Quantities(plan.orders)) == qty
            && 1 <= |plan.orders| <= MAX_CHILDREN
            && plan.deviation >= DeviationBps(None, cfg.costLiquidBps) >= MIN_DEVIATION_BPS
            && forall i :: 0 <= i < |plan.orders| ==>
                 && plan.orders[i].seqNo == i && plan.orders[i].qty >= 1
                 && SoundLimit(plan.orders[i].limit, market.last.value, side, plan.deviation, style))
  {
    var plan := Build(rnd, qty, market, side, cfg, style, urgent);
    if plan.Planned? {
      var price := market.last.value;
      ChildrenCarryTheOrder(qty, market.advShares);
      assert Quantities(plan.orders) == ChildSizes(qty, SliceCount(qty, market.advShares));
      LimitIsSound(rnd, price, side, plan.deviation, style);
    }
  }
}
