/**
 * signald/order/stops.py: where a protective stop-limit goes. The limit always lies beyond its
 * trigger; whether the trigger itself lies beyond the market depends on the stop distance.
 */
module Stops {
  import opened Prelude
  import opened Prices

  const TICK := 0.01
  const ROUND_STEP := 0.5

  datatype Protection = SellStop | BuyStop

  function StopDistance(atr: real, mae: real, mult: real): Option<real> {
    if atr <= 0.0 || mae < 0.0 then None else Some(RMax(RMax(mult * atr, mae), atr))
  }

  /** The distance is the least number that no component exceeds. */
  lemma StopDistanceIsLeastUpper(atr: real, mae: real, mult: real, bound: real)
    ensures var d := StopDistance(atr, mae, mult);
      && (d.Some? <==> atr > 0.0 && mae >= 0.0)
      && (d.Some? ==> d.value > 0.0)
      && (d.Some? ==> (d.value <= bound <==> mult * atr <= bound && mae <= bound && atr <= bound))
  {
  }

  function Offset(reference: real, deviationBps: real): (r: real)
    ensures r >= 0.0
  {
    MulMono(0.0, RAbs(reference), RAbs(deviationBps));
    RAbs(reference) * RAbs(deviationBps) / 10000.0
  }

  function ProtectiveLimit(rnd: real -> int, trigger0: real, side: Protection, deviationBps: real,
                           reference: real): real
  {
    var offset := Offset(reference, deviationBps);
    var trigger := RoundPrice(rnd, trigger0);
    if side.SellStop? then
      var limit := RoundPrice(rnd, trigger - offset);
      if limit >= trigger then RoundPrice(rnd, trigger - TICK) else limit
    else
      var limit := RoundPrice(rnd, trigger + offset);
      if limit <= trigger then RoundPrice(rnd, trigger + TICK) else limit
  }

  /** The offset is the deviation's share of the reference price. */
  lemma OffsetIs(reference: real, deviationBps: real)
    requires reference >= 0.0 && deviationBps >= 0.0
    ensures Offset(reference, deviationBps) * 10000.0 == reference * deviationBps
    ensures Offset(reference, -deviationBps) == Offset(reference, deviationBps)
  {
  }

  /** A protective limit is a grid price beyond its rounded trigger, by a bounded gap. */
  lemma ProtectiveLimitIsSafe(rnd: real -> int, trigger0: real, side: Protection, deviationBps: real,
                              reference: real)
    requires Nearest(rnd)
    ensures var offset := Offset(reference, deviationBps);
      var trigger, limit := RoundPrice(rnd, trigger0), ProtectiveLimit(rnd, trigger0, side, deviationBps, reference);
      var gap := if side.SellStop? then trigger - limit else limit - trigger;
      OnGrid(limit) && OnGrid(trigger) && 0.0 < gap <= RMax(offset, TICK) + TICK_LARGE / 2.0
  {
    var offset := Offset(reference, deviationBps);
    var trigger := RoundPrice(rnd, trigger0);
    RoundedIsOnGrid(rnd, trigger0);
    if side.SellStop? {
      RoundedIsOnGrid(rnd, trigger - offset);
      RoundedIsOnGrid(rnd, trigger - TICK);
    } else {
      RoundedIsOnGrid(rnd, trigger + offset);
      RoundedIsOnGrid(rnd, trigger + TICK);
    }
  }

  // ---- cluster avoidance -----------------------------------------------------------------------

  predicate CloseTo(price: real, level: real) {
    RAbs(price - level) <= TICK
  }

  function Keep(price: real, level: Option<real>): seq<real> {
    if level.Some? && CloseTo(price, level.value) then [level.value] else []
  }

  /** The whole or half dollar, the prior high and the prior low, where they lie within one tick. */
  function ClusterLevels(rnd: real -> int, price: real, high: Option<real>, low: Option<real>): seq<real> {
    Keep(price, Some(rnd(price / ROUND_STEP) as real * ROUND_STEP)) + Keep(price, high) + Keep(price, low)
  }

  /** Python's `min` with a key: the first level at the least distance. */
  function Closest(price: real, levels: seq<real>): (r: real)
    requires levels != []
    ensures r in levels && forall l :: l in levels ==> RAbs(price - r) <= RAbs(price - l)
  {
    if |levels| == 1 then levels[0]
    else
      var best, last := Closest(price, levels[..|levels| - 1]), levels[|levels| - 1];
      assert levels == levels[..|levels| - 1] + [last];
      if RAbs(price - last) < RAbs(price - best) then last else best
  }

  function Clearance(rnd: real -> int, price: real, high: Option<real>, low: Option<real>): Option<real> {
    if price <= 0.0 then None
    else
      var levels := ClusterLevels(rnd, price, high, low);
      if levels == [] then Some(price)
      else if price <= Closest(price, levels) then Some(RoundPrice(rnd, price - TICK))
      else Some(RoundPrice(rnd, price + TICK))
  }

  /** A clear price is kept; otherwise the move goes away from the nearest level and clears it. */
  lemma ClearanceLeavesTheNearest(rnd: real -> int, price: real, high: Option<real>, low: Option<real>)
    requires Nearest(rnd) && price > 0.0
    ensures var levels := ClusterLevels(rnd, price, high, low);
      var moved := Clearance(rnd, price, high, low).value;
      && RAbs(moved - price) <= TICK + TICK_LARGE / 2.0
      && (levels == [] ==> moved == price)
      && (levels != [] ==>
            var near := Closest(price, levels);
            && CloseTo(price, near) && OnGrid(moved)
            && (if price <= near then moved <= near - TICK / 2.0 else moved > near + TICK / 2.0))
  {
    RoundedIsOnGrid(rnd, price - TICK);
    RoundedIsOnGrid(rnd, price + TICK);
    var levels := ClusterLevels(rnd, price, high, low);
    if levels != [] {
      var near := Closest(price, levels);
      assert near in Keep(price, Some(rnd(price / ROUND_STEP) as real * ROUND_STEP))
          || near in Keep(price, high) || near in Keep(price, low);
    }
  }

  datatype StopPlan = StopPlan(trigger: real, limit: real, adjusted: bool)

  /** The plan at a known distance from the reference price. */
  function PlanAt(rnd: real -> int, reference: real, distance: real, long: bool, deviationBps: real,
                  high: Option<real>, low: Option<real>): Option<StopPlan>
  {
    var raw := if long then reference - distance else reference + distance;
    var cleared := Clearance(rnd, raw, high, low);
    if cleared.None? then None
    else
      var trigger := RoundPrice(rnd, cleared.value);
      Some(StopPlan(trigger,
                    ProtectiveLimit(rnd, trigger, if long then SellStop else BuyStop, deviationBps, reference),
                    cleared.value != raw))
  }

  /** `plan_stop`: no plan without an ATR, a reference price and a stop level above zero. */
  function PlanStop(rnd: real -> int, reference: Option<real>, atr: real, mult: real, maePctl: real,
                    long: bool, deviationBps: real, high: Option<real>, low: Option<real>): Option<StopPlan>
  {
    if reference.None? || reference.value <= 0.0 then None
    else
      var distance := StopDistance(atr, maePctl * atr, mult);
      if distance.None? then None else PlanAt(rnd, reference.value, distance.value, long, deviationBps, high, low)
  }

  /** The stop level before anything moves it. */
  function LevelAt(reference: real, distance: real, long: bool): real {
    if long then reference - distance else reference + distance
  }

  /** At a level above zero there is a plan: its trigger is the level, unless that lies at a cluster, which it says. */
  lemma PlanStartsAtTheLevel(rnd: real -> int, reference: real, distance: real, long: bool, deviationBps: real,
                             high: Option<real>, low: Option<real>)
    requires Nearest(rnd)
    ensures var plan, level := PlanAt(rnd, reference, distance, long, deviationBps, high, low),
                               LevelAt(reference, distance, long);
      && (plan.Some? <==> level > 0.0)
      && (plan.Some? ==>
            && (plan.value.adjusted <==> ClusterLevels(rnd, level, high, low) != [])
            && (!plan.value.adjusted ==> plan.value.trigger == RoundPrice(rnd, level)))
  {
    var level := LevelAt(reference, distance, long);
    if level > 0.0 { MovedIsElsewhere(rnd, level, high, low); }
  }

  /** A stop is planned exactly with a price, an ATR, a fitting MAE multiple and a level that are above zero. */
  lemma PlannedExactlyWhen(rnd: real -> int, reference: Option<real>, atr: real, mult: real, maePctl: real,
                           long: bool, deviationBps: real, high: Option<real>, low: Option<real>)
    requires Nearest(rnd)
    ensures var plan, distance := PlanStop(rnd, reference, atr, mult, maePctl, long, deviationBps, high, low),
                                  StopDistance(atr, maePctl * atr, mult);
      plan.Some? <==>
        && reference.Some? && reference.value > 0.0 && distance.Some?
        && LevelAt(reference.value, distance.value, long) > 0.0
  {
    var distance := StopDistance(atr, maePctl * atr, mult);
    if reference.Some? && distance.Some? {
      PlanStartsAtTheLevel(rnd, reference.value, distance.value, long, deviationBps, high, low);
    }
  }

  lemma MovedIsElsewhere(rnd: real -> int, price: real, high: Option<real>, low: Option<real>)
    requires Nearest(rnd) && price > 0.0
    ensures Clearance(rnd, price, high, low).Some?
    ensures Clearance(rnd, price, high, low).value != price <==> ClusterLevels(rnd, price, high, low) != []
  {
    RoundedIsOnGrid(rnd, price - TICK);
    RoundedIsOnGrid(rnd, price + TICK);
  }

  /** The trigger lies strictly beyond the reference price on the losing side. */
  predicate BeyondReference(plan: StopPlan, reference: real, long: bool) {
    if long then plan.trigger < reference else plan.trigger > reference
  }

  predicate LimitBeyondTrigger(plan: StopPlan, long: bool) {
    if long then plan.limit < plan.trigger else plan.limit > plan.trigger
  }

  /**
   * Every plan has its limit beyond its trigger, both on the grid. The trigger lies beyond the
   * market too as soon as the stop distance exceeds one and a half ticks: the step off a cluster
   * takes up to one tick and the rounding up to half of one.
   */
  lemma PlannedStopIsOrdered(rnd: real -> int, reference: Option<real>, atr: real, mult: real, maePctl: real,
                             long: bool, deviationBps: real, high: Option<real>, low: Option<real>)
    requires Nearest(rnd)
    ensures var plan := PlanStop(rnd, reference, atr, mult, maePctl, long, deviationBps, high, low);
      var distance := StopDistance(atr, maePctl * atr, mult);
      plan.Some? ==>
        && OnGrid(plan.value.trigger) && OnGrid(plan.value.limit) && LimitBeyondTrigger(plan.value, long)
        && reference.Some? && distance.Some?
        && (distance.value > 1.5 * TICK ==> BeyondReference(plan.value, reference.value, long))
  {
    var distance := StopDistance(atr, maePctl * atr, mult);
    if reference.Some? && distance.Some? {
      PlanAtIsOrdered(rnd, reference.value, distance.value, long, deviationBps, high, low);
    }
  }

  lemma PlanAtIsOrdered(rnd: real -> int, reference: real, distance: real, long: bool, deviationBps: real,
                        high: Option<real>, low: Option<real>)
    requires Nearest(rnd)
    ensures var plan := PlanAt(rnd, reference, distance, long, deviationBps, high, low);
      plan.Some? ==>
        && OnGrid(plan.value.trigger) && OnGrid(plan.value.limit) && LimitBeyondTrigger(plan.value, long)
        && (distance > 1.5 * TICK ==> BeyondReference(plan.value, reference, long))
  {
    var plan := PlanAt(rnd, reference, distance, long, deviationBps, high, low);
    if plan.Some? {
      TriggerNearRaw(rnd, if long then reference - distance else reference + distance, high, low);
      ProtectiveLimitIsSafe(rnd, plan.value.trigger, if long then SellStop else BuyStop, deviationBps, reference);
    }
  }

  /** The trigger is a grid price within one and a half ticks of the level the distance names. */
  lemma TriggerNearRaw(rnd: real -> int, raw: real, high: Option<real>, low: Option<real>)
    requires Nearest(rnd) && raw > 0.0
    ensures var trigger := RoundPrice(rnd, Clearance(rnd, raw, high, low).value);
      OnGrid(trigger) && RoundPrice(rnd, trigger) == trigger && RAbs(trigger - raw) <= 1.5 * TICK
  {
    var cleared := Clearance(rnd, raw, high, low).value;
    ClearanceLeavesTheNearest(rnd, raw, high, low);
    RoundedIsOnGrid(rnd, cleared);
    GridIsFixedPoint(rnd, cleared);
    RoundIdempotent(rnd, cleared);
  }

  /** A stop closer than that can be pushed onto the market by the prior low it steps away from. */
  lemma CloseStopMeetsTheMarket(rnd: real -> int)
    requires Nearest(rnd)
    ensures var plan := PlanStop(rnd, Some(10.25), 0.01, 1.0, 0.0, true, 5.0, None, Some(10.235));
      plan.Some? && plan.value.trigger == 10.25
  {
    var raw := 10.24;
    assert -0.5 <= rnd(raw / ROUND_STEP) as real - 20.48 <= 0.5;
    assert rnd(raw / ROUND_STEP) == 20;
    assert ClusterLevels(rnd, raw, None, Some(10.235)) == [10.235];
    assert OnGrid(10.25);
    GridIsFixedPoint(rnd, 10.25);
  }

  // ---- exactly which distances keep the trigger off the market ---------------------------------

  /** The plan keeps its trigger beyond the market, at every reference price and prior extremes. */
  ghost predicate AlwaysBeyond(rnd: real -> int, distance: real, long: bool, deviationBps: real) {
    forall reference: real, high: Option<real>, low: Option<real> ::
      PlanAt(rnd, reference, distance, long, deviationBps, high, low).Some? ==>
        BeyondReference(PlanAt(rnd, reference, distance, long, deviationBps, high, low).value, reference, long)
  }

  /** Half a cent above or below a whole number of cents, in cents. */
  function HalfBelow(cents: int): real {
    cents as real - 0.5
  }

  function HalfAbove(cents: int): real {
    cents as real + 0.5
  }

  /** Ties between cents, from a dollar up, are broken away from the market. */
  ghost predicate TiesAwayFromMarket(rnd: real -> int, long: bool) {
    if long then forall cents: int :: cents >= 101 ==> rnd(HalfBelow(cents)) == cents - 1
    else forall cents: int :: cents >= 100 ==> rnd(HalfAbove(cents)) == cents + 1
  }

  lemma NearestOfHalf(rnd: real -> int, y: real)
    requires Nearest(rnd)
    ensures -0.5 <= rnd(y) as real - y <= 0.5
  {
  }

  /** One tick towards the market and a rounding: at a distance of 1.5 ticks only a tie reaches it. */
  lemma StepTowardsMarket(rnd: real -> int, reference: real, long: bool)
    requires Nearest(rnd) && TiesAwayFromMarket(rnd, long)
    ensures long && reference - 0.005 > 0.0 ==> RoundPrice(rnd, reference - 0.005) < reference
    ensures !long && reference + 0.005 > 0.0 ==> RoundPrice(rnd, reference + 0.005) > reference
  {
    if long {
      var m := reference - 0.005;
      RoundedIsOnGrid(rnd, m);
      NearestOfHalf(rnd, m * 100.0);
      var cents := rnd(m * 100.0);
      assert m * 100.0 == HalfBelow(cents) && cents >= 101 ==> rnd(m * 100.0) == cents - 1;
    } else {
      var m := reference + 0.005;
      RoundedIsOnGrid(rnd, m);
      NearestOfHalf(rnd, m * 100.0);
      var cents := rnd(m * 100.0);
      assert m * 100.0 == HalfAbove(cents) && cents >= 100 ==> rnd(m * 100.0) == cents + 1;
    }
  }

  lemma TightDistanceHolds(rnd: real -> int, reference: real, long: bool, deviationBps: real,
                           high: Option<real>, low: Option<real>)
    requires Nearest(rnd) && TiesAwayFromMarket(rnd, long)
    ensures var plan := PlanAt(rnd, reference, 0.015, long, deviationBps, high, low);
      plan.Some? ==> BeyondReference(plan.value, reference, long)
  {
    var plan := PlanAt(rnd, reference, 0.015, long, deviationBps, high, low);
    if plan.Some? {
      var raw := if long then reference - 0.015 else reference + 0.015;
      var cleared := Clearance(rnd, raw, high, low).value;
      RoundedIsOnGrid(rnd, raw);
      RoundedIsOnGrid(rnd, raw - TICK);
      RoundedIsOnGrid(rnd, raw + TICK);
      RoundIdempotent(rnd, raw - TICK);
      RoundIdempotent(rnd, raw + TICK);
      StepTowardsMarket(rnd, reference, long);
      assert raw + TICK == reference - 0.005 || raw - TICK == reference + 0.005;
    }
  }

  /** A prior extreme a hair behind the stop sends it one tick towards the market. */
  lemma PushedTowardsMarket(rnd: real -> int, raw: real, long: bool)
    requires Nearest(rnd) && raw > 0.0 && RAbs(raw - rnd(raw / ROUND_STEP) as real * ROUND_STEP) > 0.001
    ensures long ==> Clearance(rnd, raw, None, Some(raw - 0.001)) == Some(RoundPrice(rnd, raw + TICK))
    ensures !long ==> Clearance(rnd, raw, Some(raw + 0.001), None) == Some(RoundPrice(rnd, raw - TICK))
  {
    var half := rnd(raw / ROUND_STEP) as real * ROUND_STEP;
    if long {
      var levels := ClusterLevels(rnd, raw, None, Some(raw - 0.001));
      assert levels == Keep(raw, Some(half)) + [raw - 0.001];
      assert raw - 0.001 in levels;
      var near := Closest(raw, levels);
      assert near == raw - 0.001;
    } else {
      var levels := ClusterLevels(rnd, raw, Some(raw + 0.001), None);
      assert levels == Keep(raw, Some(half)) + [raw + 0.001];
      assert raw + 0.001 in levels;
      var near := Closest(raw, levels);
      assert near == raw + 0.001;
    }
  }

  /** A stop off the half dollars is pushed; when the rounded push reaches the market, the plan fails. */
  lemma PushedPlan(rnd: real -> int, reference: real, distance: real, long: bool, deviationBps: real)
    requires Nearest(rnd)
    requires var raw := if long then reference - distance else reference + distance;
      && raw > 0.0 && RAbs(raw - rnd(raw / ROUND_STEP) as real * ROUND_STEP) > 0.001
      && (if long then RoundPrice(rnd, raw + TICK) >= reference else RoundPrice(rnd, raw - TICK) <= reference)
    ensures !AlwaysBeyond(rnd, distance, long, deviationBps)
  {
    var raw := if long then reference - distance else reference + distance;
    PushedTowardsMarket(rnd, raw, long);
    RoundIdempotent(rnd, if long then raw + TICK else raw - TICK);
    var high, low := if long then None else Some(raw + 0.001), if long then Some(raw - 0.001) else None;
    var plan := PlanAt(rnd, reference, distance, long, deviationBps, high, low);
    assert plan.Some? && !BeyondReference(plan.value, reference, long);
  }

  lemma AroundTenAndAQuarter(rnd: real -> int, x: real)
    requires Nearest(rnd) && 10.2 < x < 10.3
    ensures RAbs(x - rnd(x / ROUND_STEP) as real * ROUND_STEP) > 0.001
    ensures x > 10.245 ==> RoundPrice(rnd, x) >= 10.25
    ensures x < 10.255 ==> RoundPrice(rnd, x) <= 10.25
  {
    NearestOfHalf(rnd, x / ROUND_STEP);
    assert rnd(x / ROUND_STEP) == 20 || rnd(x / ROUND_STEP) == 21;
    NearestOfHalf(rnd, x * 100.0);
  }

  /** Under 1.5 ticks the plan at 10.25 is pushed onto the market, whatever the rounding rule. */
  lemma CloserStopsMeetTheMarket(rnd: real -> int, distance: real, long: bool, deviationBps: real)
    requires Nearest(rnd) && 0.0 < distance < 0.015
    ensures !AlwaysBeyond(rnd, distance, long, deviationBps)
  {
    var raw := if long then 10.25 - distance else 10.25 + distance;
    AroundTenAndAQuarter(rnd, raw);
    AroundTenAndAQuarter(rnd, if long then raw + TICK else raw - TICK);
    PushedPlan(rnd, 10.25, distance, long, deviationBps);
  }

  /** At exactly 1.5 ticks a tie broken towards the market reaches it. */
  lemma TieMeetsTheMarket(rnd: real -> int, cents: int, long: bool, deviationBps: real)
    requires Nearest(rnd)
    requires if long then cents >= 101 && rnd(HalfBelow(cents)) != cents - 1
             else cents >= 100 && rnd(HalfAbove(cents)) != cents + 1
    ensures !AlwaysBeyond(rnd, 0.015, long, deviationBps)
  {
    var reference := cents as real / 100.0;
    var raw := if long then reference - 0.015 else reference + 0.015;
    HalfCentIsOffHalfDollars(rnd, raw, if long then cents - 2 else cents + 1);
    TieRoundsToWhole(rnd, cents, long, if long then raw + TICK else raw - TICK);
    PushedPlan(rnd, reference, 0.015, long, deviationBps);
  }

  lemma TieRoundsToWhole(rnd: real -> int, cents: int, long: bool, m: real)
    requires Nearest(rnd) && m * 100.0 == if long then HalfBelow(cents) else HalfAbove(cents)
    requires if long then cents >= 101 && rnd(HalfBelow(cents)) != cents - 1
             else cents >= 100 && rnd(HalfAbove(cents)) != cents + 1
    ensures RoundPrice(rnd, m) == cents as real / 100.0
  {
    NearestOfHalf(rnd, m * 100.0);
  }

  lemma HalfCentIsOffHalfDollars(rnd: real -> int, price: real, cents: int)
    requires price * 100.0 == HalfAbove(cents)
    ensures RAbs(price - rnd(price / ROUND_STEP) as real * ROUND_STEP) > 0.001
  {
    var k := 50 * rnd(price / ROUND_STEP);
    assert k <= cents || k >= cents + 1;
    assert rnd(price / ROUND_STEP) as real * ROUND_STEP * 100.0 == k as real;
  }

  /**
   * The exact distance: a stop's trigger lies beyond the market at every reference price and every
   * prior high and low exactly when its distance exceeds one and a half ticks, or is one and a half
   * ticks with ties broken away from the market.
   */
  lemma TriggerIsBeyondExactlyWhen(rnd: real -> int, distance: real, long: bool, deviationBps: real)
    requires Nearest(rnd) && distance > 0.0
    ensures AlwaysBeyond(rnd, distance, long, deviationBps)
       <==> distance > 0.015 || (distance == 0.015 && TiesAwayFromMarket(rnd, long))
  {
    if distance > 0.015 {
      forall reference: real, high: Option<real>, low: Option<real>
        | PlanAt(rnd, reference, distance, long, deviationBps, high, low).Some?
        ensures BeyondReference(PlanAt(rnd, reference, distance, long, deviationBps, high, low).value, reference, long)
      {
        PlanAtIsOrdered(rnd, reference, distance, long, deviationBps, high, low);
      }
    } else if distance < 0.015 {
      CloserStopsMeetTheMarket(rnd, distance, long, deviationBps);
    } else {
      TightDistance(rnd, long, deviationBps);
    }
  }

  lemma TightDistance(rnd: real -> int, long: bool, deviationBps: real)
    requires Nearest(rnd)
    ensures AlwaysBeyond(rnd, 0.015, long, deviationBps) <==> TiesAwayFromMarket(rnd, long)
  {
    if TiesAwayFromMarket(rnd, long) {
      forall reference: real, high: Option<real>, low: Option<real>
        | PlanAt(rnd, reference, 0.015, long, deviationBps, high, low).Some?
        ensures BeyondReference(PlanAt(rnd, reference, 0.015, long, deviationBps, high, low).value, reference, long)
      {
        TightDistanceHolds(rnd, reference, long, deviationBps, high, low);
      }
    } else {
      var cents: int :| if long then cents >= 101 && rnd(HalfBelow(cents)) != cents - 1
                        else cents >= 100 && rnd(HalfAbove(cents)) != cents + 1;
      TieMeetsTheMarket(rnd, cents, long, deviationBps);
    }
  }

  // ---- exactly when a moved level is off every cluster -----------------------------------------

  function HalfDollar(k: int): real {
    k as real * ROUND_STEP
  }

  /** Where the move goes: one tick away from the nearest level, on the grid. */
  function Target(rnd: real -> int, price: real, near: real): real {
    RoundPrice(rnd, if price <= near then price - TICK else price + TICK)
  }

  /** No level but the one stepped off, neither a prior extreme nor a half dollar, lies within a tick. */
  ghost predicate OnlyNear(price: real, near: real, high: Option<real>, low: Option<real>) {
    && (high.Some? && CloseTo(price, high.value) ==> high.value == near)
    && (low.Some? && CloseTo(price, low.value) ==> low.value == near)
    && (forall k: int :: CloseTo(price, HalfDollar(k)) ==> HalfDollar(k) == near)
  }

  lemma ScanFindsHalfDollars(rnd: real -> int, price: real, k: int)
    requires Nearest(rnd) && CloseTo(price, HalfDollar(k))
    ensures rnd(price / ROUND_STEP) == k
  {
    NearestOfHalf(rnd, price / ROUND_STEP);
    assert price / ROUND_STEP == price * 2.0;
  }

  /**
   * A level moved off its nearest cluster is clear of every other one, by the scan the move itself
   * uses, exactly when no other prior extreme and no other half dollar lies within a tick of the
   * grid price it moves to.
   */
  lemma MovedIsClearExactlyWhen(rnd: real -> int, price: real, high: Option<real>, low: Option<real>)
    requires Nearest(rnd) && price > 0.0 && ClusterLevels(rnd, price, high, low) != []
    ensures var near := Closest(price, ClusterLevels(rnd, price, high, low));
      var target := Target(rnd, price, near);
      && Clearance(rnd, price, high, low) == Some(target)
      && ((forall level :: level in ClusterLevels(rnd, target, high, low) ==> level == near)
        <==> OnlyNear(target, near, high, low))
  {
    var near := Closest(price, ClusterLevels(rnd, price, high, low));
    ScanIsOnlyNear(rnd, Target(rnd, price, near), near, high, low);
  }

  lemma ScanMembers(rnd: real -> int, price: real, high: Option<real>, low: Option<real>, level: real)
    ensures level in ClusterLevels(rnd, price, high, low) <==>
      CloseTo(price, level)
      && (level == HalfDollar(rnd(price / ROUND_STEP)) || high == Some(level) || low == Some(level))
  {
    var half := Some(HalfDollar(rnd(price / ROUND_STEP)));
    assert ClusterLevels(rnd, price, high, low) == Keep(price, half) + Keep(price, high) + Keep(price, low);
    assert level in ClusterLevels(rnd, price, high, low) <==>
      level in Keep(price, half) || level in Keep(price, high) || level in Keep(price, low);
  }

  lemma ScanIsOnlyNear(rnd: real -> int, price: real, near: real, high: Option<real>, low: Option<real>)
    requires Nearest(rnd)
    ensures (forall level :: level in ClusterLevels(rnd, price, high, low) ==> level == near)
      <==> OnlyNear(price, near, high, low)
  {
    var half := rnd(price / ROUND_STEP);
    forall k: int | CloseTo(price, HalfDollar(k)) ensures k == half {
      ScanFindsHalfDollars(rnd, price, k);
    }
    ScanMembers(rnd, price, high, low, HalfDollar(half));
    if high.Some? { ScanMembers(rnd, price, high, low, high.value); }
    if low.Some? { ScanMembers(rnd, price, high, low, low.value); }
    forall level | OnlyNear(price, near, high, low) && level in ClusterLevels(rnd, price, high, low)
      ensures level == near
    {
      ScanMembers(rnd, price, high, low, level);
    }
  }

  /** A cluster sits exactly here: a prior extreme or a half dollar. */
  ghost predicate IsLevel(x: real, high: Option<real>, low: Option<real>) {
    high == Some(x) || low == Some(x) || exists k: int :: HalfDollar(k) == x
  }

  lemma ScanListsLevels(rnd: real -> int, price: real, high: Option<real>, low: Option<real>, x: real)
    requires Nearest(rnd) && CloseTo(price, x)
    ensures IsLevel(x, high, low) <==> x in ClusterLevels(rnd, price, high, low)
  {
    ScanMembers(rnd, price, high, low, x);
    forall k: int | HalfDollar(k) == x ensures k == rnd(price / ROUND_STEP) {
      ScanFindsHalfDollars(rnd, price, k);
    }
  }

  lemma WholeTick(rnd: real -> int, price: real)
    requires Nearest(rnd) && price >= 1.01 && OnGrid(price)
    ensures RoundPrice(rnd, price - TICK) == price - TICK && RoundPrice(rnd, price + TICK) == price + TICK
  {
    StepStaysOnGrid(price);
    GridIsFixedPoint(rnd, price - TICK);
    GridIsFixedPoint(rnd, price + TICK);
  }

  /**
   * The level is a whole number of ticks and nearest to `x`: by less than half a tick, or at a tie by
   * the choice `k`.
   */
  predicate NearestTick(k: int, x: real, level: real, perDollar: real) {
    var ticks, off := level * perDollar, RAbs(x - level) * perDollar;
    Whole(ticks) && (off < 0.5 || (off == 0.5 && k as real == ticks))
  }

  predicate RoundsTo(rnd: real -> int, x: real, level: real) {
    if RAbs(x) >= 1.0 then NearestTick(rnd(x * 100.0), x, level, 100.0)
    else NearestTick(rnd(x * 10000.0), x, level, 10000.0)
  }

  lemma RoundsToExactly(rnd: real -> int, x: real, level: real)
    requires Nearest(rnd)
    ensures RoundPrice(rnd, x) == level <==> RoundsTo(rnd, x, level)
  {
    if RAbs(x) >= 1.0 {
      NearestOfHalf(rnd, x * 100.0);
      NearestLevel(rnd(x * 100.0), x, level, 100.0);
    } else {
      NearestOfHalf(rnd, x * 10000.0);
      NearestLevel(rnd(x * 10000.0), x, level, 10000.0);
    }
  }

  lemma NearestLevel(k: int, x: real, level: real, perDollar: real)
    requires (perDollar == 100.0 || perDollar == 10000.0) && -0.5 <= k as real - x * perDollar <= 0.5
    ensures k as real / perDollar == level <==> NearestTick(k, x, level, perDollar)
  {
    OffInTicks(x, level, perDollar);
    NearestChoice(k, x * perDollar, level * perDollar);
    SameTicks(k, level, perDollar);
  }

  /** In ticks: the nearest integer is `t` exactly when `t` is whole and within half, a tie being its own choice. */
  lemma NearestChoice(k: int, y: real, t: real)
    requires -0.5 <= k as real - y <= 0.5
    ensures k as real == t <==> Whole(t) && (RAbs(y - t) < 0.5 || (RAbs(y - t) == 0.5 && k as real == t))
  {
    if k as real == t { WholeOf(t, k); }
    if Whole(t) && RAbs(y - t) < 0.5 { assert -1 < k - t.Floor < 1; }
  }

  lemma SameTicks(k: int, level: real, per: real)
    requires per == 100.0 || per == 10000.0
    ensures k as real / per == level <==> k as real == level * per
  {
  }

  lemma OffInTicks(x: real, level: real, per: real)
    requires per == 100.0 || per == 10000.0
    ensures RAbs(x - level) * per == RAbs(x * per - level * per)
  {
  }

  lemma RoundsToAHalfDollar(rnd: real -> int, x: real, k: int)
    requires Nearest(rnd) && RoundsTo(rnd, x, HalfDollar(k))
    ensures rnd(x / ROUND_STEP) == k
  {
    ScanFindsHalfDollars(rnd, x, k);
  }

  /** Does the moved price `x` round onto a prior extreme, or onto the half dollar nearest to it? */
  predicate LandsOnALevel(rnd: real -> int, x: real, high: Option<real>, low: Option<real>) {
    || (high.Some? && RoundsTo(rnd, x, high.value))
    || (low.Some? && RoundsTo(rnd, x, low.value))
    || RoundsTo(rnd, x, HalfDollar(rnd(x / ROUND_STEP)))
  }

  /**
   * At every price near a cluster: the stop is moved one tick off the nearest level and rounded, and
   * it parks exactly on a level exactly when a prior extreme or the nearest half dollar is the tick
   * price closest to where the move goes.
   */
  lemma ParksOnALevelExactlyWhen(rnd: real -> int, price: real, high: Option<real>, low: Option<real>)
    requires Nearest(rnd) && price > 0.0 && ClusterLevels(rnd, price, high, low) != []
    ensures var near := Closest(price, ClusterLevels(rnd, price, high, low));
      var moved := if price <= near then price - TICK else price + TICK;
      && Clearance(rnd, price, high, low) == Some(Target(rnd, price, near))
      && (IsLevel(Target(rnd, price, near), high, low) <==> LandsOnALevel(rnd, moved, high, low))
  {
    var near := Closest(price, ClusterLevels(rnd, price, high, low));
    LandsExactly(rnd, if price <= near then price - TICK else price + TICK, high, low);
  }

  lemma LandsExactly(rnd: real -> int, x: real, high: Option<real>, low: Option<real>)
    requires Nearest(rnd)
    ensures IsLevel(RoundPrice(rnd, x), high, low) <==> LandsOnALevel(rnd, x, high, low)
  {
    if high.Some? { RoundsToExactly(rnd, x, high.value); }
    if low.Some? { RoundsToExactly(rnd, x, low.value); }
    RoundsToExactly(rnd, x, HalfDollar(rnd(x / ROUND_STEP)));
    if k: int :| HalfDollar(k) == RoundPrice(rnd, x) {
      RoundsToExactly(rnd, x, HalfDollar(k));
      RoundsToAHalfDollar(rnd, x, k);
    }
  }

  /** Off the grid too: a stop at 9.9949 is moved onto a prior low its own scan did not list. */
  lemma ClearanceParksOnAnUnseenLow(rnd: real -> int)
    requires Nearest(rnd)
    ensures Clearance(rnd, 9.9949, None, Some(9.98)) == Some(9.98)
    ensures 9.98 !in ClusterLevels(rnd, 9.9949, None, Some(9.98))
  {
    NearestOfHalf(rnd, 9.9949 / ROUND_STEP);
    assert rnd(9.9949 / ROUND_STEP) == 20;
    assert ClusterLevels(rnd, 9.9949, None, Some(9.98)) == [10.0];
    RoundsToExactly(rnd, 9.9849, 9.98);
    WholeOf(9.98 * 100.0, 998);
  }

  /**
   * On a grid price from 1.01 up the move is one whole tick, so it parks exactly on a level if and
   * only if the scan before the move already lists a level one tick off on that side.
   */
  lemma GridStopParksExactlyWhen(rnd: real -> int, price: real, high: Option<real>, low: Option<real>)
    requires Nearest(rnd) && price >= 1.01 && OnGrid(price) && ClusterLevels(rnd, price, high, low) != []
    ensures var levels := ClusterLevels(rnd, price, high, low);
      var target := if price <= Closest(price, levels) then price - TICK else price + TICK;
      Clearance(rnd, price, high, low) == Some(target) && (IsLevel(target, high, low) <==> target in levels)
  {
    WholeTick(rnd, price);
    ScanListsLevels(rnd, price, high, low, price - TICK);
    ScanListsLevels(rnd, price, high, low, price + TICK);
  }

  /** The input that fails: stepping off the round number at 10.00 parks the stop on the prior low. */
  lemma ClearanceParksOnPriorLow(rnd: real -> int)
    requires Nearest(rnd)
    ensures Clearance(rnd, 10.0, None, Some(9.99)) == Some(9.99)
  {
    NearestOfHalf(rnd, 10.0 / ROUND_STEP);
    assert rnd(10.0 / ROUND_STEP) == 20;
    assert ClusterLevels(rnd, 10.0, None, Some(9.99)) == [10.0, 9.99];
    assert [10.0, 9.99][..1] == [10.0];
    GridIsFixedPoint(rnd, 9.99);
  }
}
