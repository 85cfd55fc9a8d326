/**
 * Where the trades of a replay come from: every one was judged, sized and filled as its signal says,
 * and ends at the first bar that meets one of its exits.
 */
module ReplayTrades {
  import opened Prelude
  import opened RiskState
  import opened Replay
  import opened ReplayTheorems

  // ---- one decision ----------------------------------------------------------------------------

  predicate InWindow(inp: Input, bar: Bar) {
    inp.window.Some? ==> inp.window.value.0 <= TimeOf(bar.ts) <= inp.window.value.1
  }

  /** Everything an entry needs short of the judgement: a next bar with an open, the window, and a stop. */
  predicate Enterable(inp: Input, s: nat, idx: nat)
    requires s < |inp.bars| && idx < |inp.bars[s]|
  {
    && idx + 1 < |inp.bars[s]| && InWindow(inp, inp.bars[s][idx])
    && inp.bars[s][idx].stop.Some? && inp.bars[s][idx + 1].open.Some?
  }

  function Distance(a: real, b: real): real {
    if a < b then b - a else a - b
  }

  predicate ValueOf(shares: real, px: real, usd: real) {
    usd == shares * px
  }

  /** The judgement of a signal, in the state it meets. */
  function JudgementAt(inp: Input, st: State, s: nat, idx: nat): Judged
    requires s < |inp.bars| && idx < |inp.bars[s]| && |inp.names| == |inp.bars| && inp.bars[s][idx].stop.Some?
  {
    inp.judge(ContextAt(inp, st, s, idx, inp.bars[s][idx].stop.value))
  }

  /** A signal is taken exactly when it can be entered and is judged to be worth shares, and for that many. */
  lemma TakenExactlyWhen(inp: Input, st: State, s: nat, idx: nat)
    requires s < |inp.bars| && idx < |inp.bars[s]| && |inp.names| == |inp.bars|
    ensures var d, bar := Decide(inp, st, s, idx), inp.bars[s][idx];
      && (d.Take? <==> Enterable(inp, s, idx) && JudgementAt(inp, st, s, idx).Shares?)
      && (d.Take? ==>
            && JudgementAt(inp, st, s, idx) == Shares(d.spec.qty) && d.spec.fill == idx + 1
            && d.spec.side == bar.side && bar.stop == Some(d.spec.stop) && d.spec.target == bar.target
            && d.spec.stopDistance == Distance(bar.close, d.spec.stop) && d.spec.last == bar.close
            && d.spec.sigma == bar.sigma
            && (bar.advUsd.Some? ==> d.spec.advUsd == bar.advUsd)
            && (bar.advUsd.None? && bar.advShares.None? ==> d.spec.advUsd.None?)
            && (bar.advUsd.None? && bar.advShares.Some? ==>
                  d.spec.advUsd.Some? && ValueOf(bar.advShares.value, bar.close, d.spec.advUsd.value)))
      && (d.NoTrade? && Enterable(inp, s, idx) ==> JudgementAt(inp, st, s, idx) == Declined(d.reason))
      && (d.NoTrade? && !Enterable(inp, s, idx) ==>
            match d.reason
            case NoNextBar => idx + 1 == |inp.bars[s]|
            case OutsideEntryWindow => !InWindow(inp, bar)
            case NoStop => bar.stop.None?
            case NoEntryPrice => idx + 1 < |inp.bars[s]| && inp.bars[s][idx + 1].open.None?
            case _ => false)
  {
  }

  /** The open position of a symbol, as a judgement is shown it. */
  predicate Shown(inp: Input, open: map<nat, Spec>, q: nat, p: Position) {
    && q in open && q < |inp.names|
    && p.symbol == inp.names[q] && p.qty == open[q].qty as real && p.sleeve == inp.sleeve
    && p.last == Some(open[q].last) && p.stop == Some(open[q].stop) && p.cluster.None? && p.sector.None?
    && p.avgEntry == EntryPx(inp, q, open[q])
  }

  /** The symbols below `n` that have an open position, in order. */
  function OpenSymbols(inp: Input, open: map<nat, Spec>, n: nat): seq<nat> {
    if n == 0 then []
    else OpenSymbols(inp, open, n - 1) + if n - 1 in open && n - 1 < |inp.names| then [n - 1] else []
  }

  lemma {:induction false} OpenSymbolsAre(inp: Input, open: map<nat, Spec>, n: nat)
    ensures forall q: nat :: q in OpenSymbols(inp, open, n) <==> q < n && q in open && q < |inp.names|
    ensures forall k, l :: 0 <= k < l < |OpenSymbols(inp, open, n)| ==>
      OpenSymbols(inp, open, n)[k] < OpenSymbols(inp, open, n)[l]
  {
    if n > 0 {
      OpenSymbolsAre(inp, open, n - 1);
      var before := OpenSymbols(inp, open, n - 1);
      forall k | 0 <= k < |before| ensures before[k] < n - 1 { assert before[k] in before; }
    }
  }

  /** A judgement is shown the open positions in the order of their symbols, each once and none left out. */
  lemma {:induction false} PositionsAreShown(inp: Input, open: map<nat, Spec>, n: nat, k: nat)
    ensures |Positions(inp, open, n)| == |OpenSymbols(inp, open, n)|
    ensures k < |Positions(inp, open, n)| ==> Shown(inp, open, OpenSymbols(inp, open, n)[k], Positions(inp, open, n)[k])
  {
    if n > 0 { PositionsAreShown(inp, open, n - 1, k); }
  }

  /** What they deploy is the sum of their values. */
  lemma DeployedAdds(ps: seq<Position>, p: Position, px: real, usd: real)
    requires p.last == Some(px) && p.qty >= 0.0 && ValueOf(p.qty, px, usd)
    ensures Deployed([]) == 0.0 && Deployed(ps + [p]) == Deployed(ps) + usd
  {
    PositionAppended(ps, p);
  }

  /**
   * What a judgement is put: the bars so far, an order on this bar at the replay's risk and on the
   * equity realised so far, the bar's quote, and a book with that equity, the positions held, and as
   * cash what they leave of it.
   */
  lemma JudgedOn(inp: Input, st: State, s: nat, idx: nat)
    requires s < |inp.bars| && idx < |inp.bars[s]| && |inp.names| == |inp.bars| && inp.bars[s][idx].stop.Some?
    ensures var bar := inp.bars[s][idx];
      var ctx, equity := ContextAt(inp, st, s, idx, bar.stop.value), inp.startingEquity + st.realized;
      var spread := if bar.spreadBps.Some? then bar.spreadBps.value else inp.costs.spreadBps;
      && ctx.symbol == s && ctx.ts == bar.ts && ctx.bars == inp.bars[s][..idx + 1]
      && ctx.quote == Quote(bar.close, spread, bar.advShares, bar.atr)
      && ctx.request.symbol == inp.names[s] && ctx.request.sleeve == inp.sleeve && ctx.request.side == bar.side
      && ctx.request.setup == bar.setup && ctx.request.price == bar.close && ctx.request.equity == equity
      && ctx.request.stopDistance == Distance(bar.close, bar.stop.value) && ctx.request.requestedRiskPct == inp.riskPct
      && ctx.request.stopPrice == bar.stop && ctx.request.targetPrice == bar.target
      && ctx.request.trailingVolume == bar.volume && ctx.request.plannedNotionalUsd.None?
      && ctx.book.positions == Positions(inp, st.open, |inp.names|) && ctx.book.equity == equity
      && ctx.book.cash == (if equity < Deployed(ctx.book.positions) then 0.0 else equity - Deployed(ctx.book.positions))
      && ctx.book.heatPct == 0.0 && ctx.book.tradesToday == map[] && ctx.book.sleeveTradesToday == map[]
  {
  }

  // ---- one exit --------------------------------------------------------------------------------

  predicate StopTouched(spec: Spec, bar: Bar) {
    if spec.side.Buy? then bar.low <= spec.stop else bar.high >= spec.stop
  }

  predicate TargetTouched(spec: Spec, bar: Bar) {
    spec.target.Some? && if spec.side.Buy? then bar.high >= spec.target.value else bar.low <= spec.target.value
  }

  predicate PastFlatBy(bar: Bar, flatTime: Option<int>) {
    flatTime.Some? && TimeOf(bar.ts) >= flatTime.value
  }

  /**
   * A position leaves at a bar exactly when the bar touches its stop or its target, is past the flat-by
   * time, or is the last one; in that order, the stop at its level or a worse open, the target at its
   * level or a better open, the others at the close.
   */
  lemma ExitsExactlyWhen(spec: Spec, bar: Bar, isLast: bool, flatTime: Option<int>)
    requires bar.open.Some?
    ensures var exit, open := ExitFor(spec, bar, isLast, flatTime), bar.open.value;
      && (exit.Some? <==> StopTouched(spec, bar) || TargetTouched(spec, bar) || PastFlatBy(bar, flatTime) || isLast)
      && (exit.Some? ==>
            exit.value ==
              if StopTouched(spec, bar) then
                (if spec.side.Buy? then RMin(spec.stop, open) else RMax(spec.stop, open), StopHit)
              else if TargetTouched(spec, bar) then
                (if spec.side.Buy? then RMax(spec.target.value, open) else RMin(spec.target.value, open), TargetHit)
              else (bar.close, if PastFlatBy(bar, flatTime) then FlatBy else EndOfData))
  {
  }

  // ---- money -----------------------------------------------------------------------------------

  /** The slippage of one leg, in basis points: the spread and, where it can be estimated, the impact. */
  predicate LegCosts(inp: Input, spec: Spec, usd: real, bps: real) {
    match inp.impact(usd, spec.advUsd, spec.sigma)
    case None => bps == inp.costs.spreadBps
    case Some(impact) => bps == inp.costs.spreadBps + impact
  }

  /** Days between two timestamps, none when the second is not later. */
  predicate DaysHeld(from: int, to: int, days: real) {
    if to <= from then days == 0.0 else days * 86400.0 == (to - from) as real
  }

  lemma Scaling(usd: real, bps: real)
    ensures Bps(usd, bps) * 10000.0 == usd * bps
  {
  }

  lemma DaysBetween(from: int, to: int)
    ensures DaysHeld(from, to, RMax(0.0, (to - from) as real / DAY as real))
  {
    if to <= from {
      DivLe(0.0, (to - from) as real, DAY as real);
      assert (to - from) as real / DAY as real <= 0.0;
    } else {
      DivLe(0.0, (to - from) as real, DAY as real);
    }
  }

  /** Shares at a price. */
  predicate Worth(qty: nat, px: real, usd: real) {
    usd == qty as real * px
  }

  /**
   * What a trade earns: the move of its shares in the direction it was taken, less the slippage of both
   * legs, the fees on both, and for a short the borrow of the entry for the days it was held.
   */
  lemma NetIs(inp: Input, spec: Spec, entry: real, exit: real, a: real, x: real, entryTs: int, exitTs: int)
    returns (inBps: real, outBps: real, days: real)
    requires Worth(spec.qty, entry, a) && Worth(spec.qty, exit, x)
    ensures LegCosts(inp, spec, a, inBps) && LegCosts(inp, spec, x, outBps) && DaysHeld(entryTs, exitTs, days)
    ensures NetPnl(inp, spec, entry, exit, entryTs, exitTs)
         == (if spec.side.Buy? then x - a else a - x) - (a * inBps / 10000.0 + x * outBps / 10000.0)
            - (a + x) * inp.costs.feesBps / 10000.0
            - if spec.side.Sell? then a * inp.costs.borrowBpsPerDay / 10000.0 * days else 0.0
  {
    assert Value(spec.qty, entry) == a && Value(spec.qty, exit) == x;
    inBps, outBps := LegBps(inp, spec, a), LegBps(inp, spec, x);
    days := RMax(0.0, (exitTs - entryTs) as real / DAY as real);
    DaysBetween(entryTs, exitTs);
  }

  /** A row repeats its trade: shares, prices, the mean slippage of its legs, the fees, and the result per risk. */
  lemma RowIs(inp: Input, s: nat, spec: Spec, exit: real, why: ExitReason, exitTs: int, a: real, x: real, risk: real)
    returns (inBps: real, outBps: real)
    requires Worth(spec.qty, EntryPx(inp, s, spec), a) && Worth(spec.qty, exit, x)
    requires Worth(spec.qty, spec.stopDistance, risk)
    ensures LegCosts(inp, spec, a, inBps) && LegCosts(inp, spec, x, outBps)
    ensures var row := CloseTrade(inp, s, spec, exit, why, exitTs);
      && row.symbol == s && row.qty == spec.qty && row.exitPx == exit && row.exitReason == why && row.exitTs == exitTs
      && row.slippageBps == (inBps + outBps) / 2.0
      && row.feesUsd == (a + x) * inp.costs.feesBps / 10000.0
      && row.rMultiple == if risk > 0.0 then NetPnl(inp, spec, row.entryPx, exit, row.entryTs, exitTs) / risk else 0.0
  {
    assert Value(spec.qty, EntryPx(inp, s, spec)) == a && Value(spec.qty, exit) == x;
    inBps, outBps := LegBps(inp, spec, a), LegBps(inp, spec, x);
  }

  /**
   * The result the equity curve is built from takes every row for a long. For a short it therefore
   * counts the move the wrong way round, and leaves out the borrow.
   */
  lemma RowPnlOfShort(inp: Input, s: nat, spec: Spec, exit: real, why: ExitReason, exitTs: int)
    requires spec.side.Sell?
    ensures var row := CloseTrade(inp, s, spec, exit, why, exitTs);
      var a, x := Value(spec.qty, row.entryPx), Value(spec.qty, exit);
      var days := RMax(0.0, (exitTs - row.entryTs) as real / DAY as real);
      RowPnl(row) == NetPnl(inp, spec, row.entryPx, exit, row.entryTs, exitTs)
        + 2.0 * (x - a) + Bps(x - a, LegBps(inp, spec, x)) + Bps(a, inp.costs.borrowBpsPerDay) * days
  {
    var row, long := CloseTrade(inp, s, spec, exit, why, exitTs), spec.(side := Buy);
    RowPnlOfLong(inp, s, long, exit, why, exitTs);
  }

  /** So a short that costs nothing and gains moves the curve down, by as much as it gained. */
  lemma WinningShortLowersTheCurve(inp: Input, s: nat, spec: Spec, exit: real, why: ExitReason, exitTs: int)
    requires spec.side.Sell? && spec.qty > 0 && exit < EntryPx(inp, s, spec)
    requires inp.costs == Costs(0.0, 0.0, 0.0) && forall usd, adv, sigma :: inp.impact(usd, adv, sigma) == Some(0.0)
    ensures var row := CloseTrade(inp, s, spec, exit, why, exitTs);
      && NetPnl(inp, spec, row.entryPx, exit, row.entryTs, exitTs) > 0.0
      && RowPnl(row) == -NetPnl(inp, spec, row.entryPx, exit, row.entryTs, exitTs)
  {
    MulPositive(spec.qty as real, EntryPx(inp, s, spec) - exit);
  }

  /** The note on missing impact: written with the first trade one of whose legs has no estimate. */
  lemma ImpactIsNoted(inp: Input, st: State, s: nat, idx: nat, a: real, x: real)
    requires s < |inp.bars| && idx < |inp.bars[s]| && s in st.open && s !in ExitStep(inp, st, s, idx).open
    requires var next := ExitStep(inp, st, s, idx);
      && next.trades != [] && Worth(st.open[s].qty, next.trades[|next.trades| - 1].entryPx, a)
      && Worth(st.open[s].qty, next.trades[|next.trades| - 1].exitPx, x)
    ensures var next, spec := ExitStep(inp, st, s, idx), st.open[s];
      && (next.impactNoted <==>
            || st.impactNoted || inp.impact(a, spec.advUsd, spec.sigma).None?
            || inp.impact(x, spec.advUsd, spec.sigma).None?)
      && next.skipped == st.skipped + if next.impactNoted && !st.impactNoted
                                      then [Skip(s, ImpactUnavailable, Some(inp.bars[s][idx].ts))] else []
  {
    var row := ExitStep(inp, st, s, idx).trades[|st.trades|];
    assert Value(st.open[s].qty, row.entryPx) == a && Value(st.open[s].qty, row.exitPx) == x;
  }

  // ---- whole replays ---------------------------------------------------------------------------

  /** The position was decided at that timestamp, on the judgement given then. */
  predicate JudgedAt(inp: Input, s: nat, spec: Spec, i: nat) {
    && i < |inp.timeline| && s < |inp.bars| == |inp.names| && 0 < spec.fill < |inp.bars[s]|
    && IndexAt(inp.bars[s], inp.timeline[i]) == Some(spec.fill - 1)
    && var idx, bar := spec.fill - 1, inp.bars[s][spec.fill - 1];
    && bar.signal && Enterable(inp, s, idx)
    && bar.stop == Some(spec.stop) && bar.target == spec.target && bar.side == spec.side
    && JudgementAt(inp, ExitStep(inp, After(inp, i, s), s, idx), s, idx) == Shares(spec.qty)
  }

  predicate IsJudged(inp: Input, s: nat, spec: Spec) {
    exists i :: 0 <= i < |inp.timeline| && JudgedAt(inp, s, spec, i)
  }

  /** The loop visits this bar: it is the last of its timestamp. */
  predicate Visited(bars: seq<Bar>, k: nat) {
    k < |bars| && IndexAt(bars, bars[k].ts) == Some(k)
  }

  predicate Meets(inp: Input, s: nat, spec: Spec, k: nat)
    requires s < |inp.bars| && k < |inp.bars[s]|
  {
    inp.bars[s][k].open.Some?
    && ExitFor(spec, inp.bars[s][k], k == |inp.bars[s]| - 1, inp.flatTime).Some?
  }

  /** No bar the loop has visited since the fill, up to `now`, met an exit. */
  predicate Spared(inp: Input, s: nat, spec: Spec, now: int)
    requires s < |inp.bars|
  {
    forall k :: spec.fill <= k < |inp.bars[s]| && inp.bars[s][k].ts <= now && Visited(inp.bars[s], k) ==>
      !Meets(inp, s, spec, k)
  }

  predicate OpenStands(inp: Input, s: nat, spec: Spec, done: nat) {
    && s < |inp.bars| && 0 < done <= |inp.timeline|
    && IsJudged(inp, s, spec) && Spared(inp, s, spec, inp.timeline[done - 1])
  }

  /** The row of a position that was judged, filled at the next open, and left at bar `k`, its first exit. */
  predicate Traded(inp: Input, row: Row, spec: Spec, k: nat) {
    && row.symbol < |inp.bars| && IsJudged(inp, row.symbol, spec) && Visited(inp.bars[row.symbol], k)
    && var bars := inp.bars[row.symbol];
    && 0 <= spec.fill <= k && bars[k].open.Some?
    && (forall b :: spec.fill <= b < k && Visited(bars, b) ==> !Meets(inp, row.symbol, spec, b))
    && ExitFor(spec, bars[k], k == |bars| - 1, inp.flatTime) == Some((row.exitPx, row.exitReason))
    && row.exitTs == bars[k].ts && row.qty == spec.qty
    && row.entryTs == bars[spec.fill].ts && bars[spec.fill].open == Some(row.entryPx)
  }

  ghost predicate Stands(inp: Input, row: Row) {
    exists spec, k: nat :: Traded(inp, row, spec, k)
  }

  predicate OpensStand(inp: Input, open: map<nat, Spec>, i: nat, j: nat) {
    forall s :: s in open ==> OpenStands(inp, s, open[s], Done(i, j, s))
  }

  ghost predicate RowsStand(inp: Input, trades: seq<Row>) {
    forall a :: 0 <= a < |trades| ==> Stands(inp, trades[a])
  }

  /** A bar of a visit is the only one with its timestamp that the loop visits. */
  lemma VisitedOnce(inp: Input, s: nat, idx: nat, ts: int)
    requires s < |inp.bars| && IndexAt(inp.bars[s], ts) == Some(idx)
    ensures idx < |inp.bars[s]| && Visited(inp.bars[s], idx)
    ensures forall k :: 0 <= k < |inp.bars[s]| && Visited(inp.bars[s], k) && inp.bars[s][k].ts == ts ==> k == idx
  {
  }

  /** No bar of the symbol lies strictly between two neighbours of the timeline. */
  lemma NothingBetween(inp: Input, s: nat, i: nat, k: nat)
    requires Wellformed(inp) && 0 < i < |inp.timeline| && s < |inp.bars| && k < |inp.bars[s]|
    requires inp.bars[s][k].ts <= inp.timeline[i]
    ensures inp.bars[s][k].ts <= inp.timeline[i - 1] || inp.bars[s][k].ts == inp.timeline[i]
  {
    assert inp.bars[s][k].ts in inp.timeline;
    var a :| 0 <= a < |inp.timeline| && inp.timeline[a] == inp.bars[s][k].ts;
    assert a <= i - 1 || a == i;
  }

  /** A position that this visit keeps was not met by its bar. */
  lemma SparedOnce(inp: Input, s: nat, spec: Spec, i: nat)
    requires Wellformed(inp) && 0 < i < |inp.timeline| && s < |inp.bars| && Spared(inp, s, spec, inp.timeline[i - 1])
    requires var at := IndexAt(inp.bars[s], inp.timeline[i]);
      at.Some? && at.value < |inp.bars[s]| && spec.fill <= at.value ==> !Meets(inp, s, spec, at.value)
    ensures Spared(inp, s, spec, inp.timeline[i])
  {
    var bars, at := inp.bars[s], IndexAt(inp.bars[s], inp.timeline[i]);
    forall k | spec.fill <= k < |bars| && bars[k].ts <= inp.timeline[i] && Visited(bars, k)
      ensures !Meets(inp, s, spec, k)
    {
      NothingBetween(inp, s, i, k);
      if bars[k].ts == inp.timeline[i] { VisitedOnce(inp, s, k, inp.timeline[i]); }
    }
  }

  /** The mark of a position does not matter to where it came from or where it leaves. */
  lemma MarkDoesNotMatter(inp: Input, s: nat, spec: Spec, last: real)
    requires s < |inp.bars|
    ensures IsJudged(inp, s, spec) ==> IsJudged(inp, s, spec.(last := last))
    ensures forall now :: Spared(inp, s, spec, now) ==> Spared(inp, s, spec.(last := last), now)
  {
    if i :| 0 <= i < |inp.timeline| && JudgedAt(inp, s, spec, i) { assert JudgedAt(inp, s, spec.(last := last), i); }
    forall now | Spared(inp, s, spec, now) ensures Spared(inp, s, spec.(last := last), now) {
      forall k | spec.fill <= k < |inp.bars[s]| && inp.bars[s][k].ts <= now && Visited(inp.bars[s], k)
        ensures !Meets(inp, s, spec.(last := last), k)
      {
        assert !Meets(inp, s, spec, k);
      }
    }
  }

  /** The first exit is met: the row of the trade stands. */
  lemma CloseStands(inp: Input, s: nat, spec: Spec, i: nat, idx: nat, exit: real, why: ExitReason)
    requires Wellformed(inp) && 0 < i < |inp.timeline| && s < |inp.bars| && idx < |inp.bars[s]|
    requires OpenStands(inp, s, spec, i) && Held(inp.bars[s], spec, inp.timeline[i - 1])
    requires IndexAt(inp.bars[s], inp.timeline[i]) == Some(idx) && inp.bars[s][idx].open.Some?
    requires ExitFor(spec, inp.bars[s][idx], idx == |inp.bars[s]| - 1, inp.flatTime) == Some((exit, why))
    ensures Stands(inp, CloseTrade(inp, s, spec, exit, why, inp.bars[s][idx].ts))
  {
    var bars, row := inp.bars[s], CloseTrade(inp, s, spec, exit, why, inp.bars[s][idx].ts);
    VisitedOnce(inp, s, idx, inp.timeline[i]);
    FillHasHappened(bars, spec, inp.timeline[i - 1], idx);
    forall b | spec.fill <= b < idx && Visited(bars, b) ensures !Meets(inp, s, spec, b) {
      NothingBetween(inp, s, i, b);
    }
    assert Traded(inp, row, spec, idx);
  }

  /** A position that was just decided fills after this timestamp, so nothing can have met it yet. */
  lemma EnterStands(inp: Input, s: nat, i: nat, idx: nat)
    requires Wellformed(inp) && i < |inp.timeline| && s < |inp.bars| && idx < |inp.bars[s]|
    requires IndexAt(inp.bars[s], inp.timeline[i]) == Some(idx)
    requires var mid := ExitStep(inp, After(inp, i, s), s, idx);
      Considers(inp, mid, s, idx) && Decide(inp, mid, s, idx).Take?
    ensures var mid := ExitStep(inp, After(inp, i, s), s, idx);
      OpenStands(inp, s, Decide(inp, mid, s, idx).spec, i + 1)
  {
    var mid := ExitStep(inp, After(inp, i, s), s, idx);
    var spec := Decide(inp, mid, s, idx).spec;
    TakenExactlyWhen(inp, mid, s, idx);
    assert JudgedAt(inp, s, spec, i);
    assert forall k :: spec.fill <= k < |inp.bars[s]| ==> inp.bars[s][k].ts > inp.timeline[i];
  }

  /** A bar that meets no exit leaves the position standing, at a new mark. */
  lemma HoldStands(inp: Input, s: nat, spec: Spec, i: nat, idx: nat, last: real)
    requires Wellformed(inp) && 0 < i < |inp.timeline| && s < |inp.bars| && idx < |inp.bars[s]|
    requires OpenStands(inp, s, spec, i) && IndexAt(inp.bars[s], inp.timeline[i]) == Some(idx)
    requires !Meets(inp, s, spec.(last := last), idx)
    ensures OpenStands(inp, s, spec.(last := last), i + 1)
  {
    MarkDoesNotMatter(inp, s, spec, last);
    SparedOnce(inp, s, spec.(last := last), i);
  }

  lemma RowAppended(inp: Input, trades: seq<Row>, row: Row)
    requires RowsStand(inp, trades) && Stands(inp, row)
    ensures RowsStand(inp, trades + [row])
  {
  }

  /** What the exit step makes of a held position. */
  lemma ExitStands(inp: Input, st: State, i: nat, s: nat, idx: nat) returns (row: Row)
    requires Wellformed(inp) && 0 < i < |inp.timeline| && s < |inp.bars| && idx < |inp.bars[s]| && !st.raised
    requires IndexAt(inp.bars[s], inp.timeline[i]) == Some(idx) && s in st.open
    requires Held(inp.bars[s], st.open[s], inp.timeline[i - 1]) && OpenStands(inp, s, st.open[s], i)
    ensures var mid := ExitStep(inp, st, s, idx);
      !mid.raised ==>
        && (s in mid.open ==> OpenStands(inp, s, mid.open[s], i + 1) && mid.trades == st.trades)
        && (s !in mid.open ==> Stands(inp, row) && mid.trades == st.trades + [row])
  {
    var bar := inp.bars[s][idx];
    row := Row(0, 0, 0, 0, 0.0, 0.0, 0.0, 0.0, 0.0, StopHit);
    if bar.open.Some? {
      var spec := st.open[s].(last := bar.close);
      var exit := ExitFor(spec, bar, idx == |inp.bars[s]| - 1, inp.flatTime);
      if exit.Some? {
        MarkDoesNotMatter(inp, s, st.open[s], bar.close);
        CloseStands(inp, s, spec, i, idx, exit.value.0, exit.value.1);
        row := CloseTrade(inp, s, spec, exit.value.0, exit.value.1, bar.ts);
      } else {
        HoldStands(inp, s, st.open[s], i, idx, bar.close);
      }
    }
  }

  /** The positions of the other symbols do not notice a visit. */
  lemma OthersStand(inp: Input, open: map<nat, Spec>, next: map<nat, Spec>, i: nat, s: nat)
    requires OpensStand(inp, open, i, s)
    requires forall q: nat :: q != s && q in next ==> q in open && next[q] == open[q]
    requires s in next ==> OpenStands(inp, s, next[s], i + 1)
    ensures OpensStand(inp, next, i, s + 1)
  {
    forall q | q in next ensures OpenStands(inp, q, next[q], Done(i, s + 1, q)) {
      if q != s { assert OpenStands(inp, q, open[q], Done(i, s, q)); }
    }
  }

  lemma IdleStands(inp: Input, st: State, i: nat, s: nat)
    requires Wellformed(inp) && i < |inp.timeline| && s < |inp.bars| && Tidy(inp, st, i, s)
    requires OpensStand(inp, st.open, i, s) && IndexAt(inp.bars[s], inp.timeline[i]).None?
    ensures OpensStand(inp, st.open, i, s + 1)
  {
    if s in st.open {
      assert HeldAt(inp, s, st.open[s], Done(i, s, s)) && OpenStands(inp, s, st.open[s], Done(i, s, s));
      SparedOnce(inp, s, st.open[s], i);
    }
    OthersStand(inp, st.open, st.open, i, s);
  }

  /** The exit half of a visit: the symbol's position and every row stand behind it. */
  lemma VisitExits(inp: Input, st: State, i: nat, s: nat, idx: nat)
    requires Wellformed(inp) && i < |inp.timeline| && s < |inp.bars| && idx < |inp.bars[s]| && !st.raised
    requires Tidy(inp, st, i, s) && IndexAt(inp.bars[s], inp.timeline[i]) == Some(idx)
    requires OpensStand(inp, st.open, i, s) && RowsStand(inp, st.trades) && !ExitStep(inp, st, s, idx).raised
    ensures var mid := ExitStep(inp, st, s, idx);
      RowsStand(inp, mid.trades) && (s in mid.open ==> OpenStands(inp, s, mid.open[s], i + 1))
  {
    var mid := ExitStep(inp, st, s, idx);
    if s in st.open {
      assert HeldAt(inp, s, st.open[s], Done(i, s, s)) && OpenStands(inp, s, st.open[s], Done(i, s, s));
      var row := ExitStands(inp, st, i, s, idx);
      if s !in mid.open { RowAppended(inp, st.trades, row); }
    }
  }

  /** The entry half: what it adds, if anything, stands. */
  lemma VisitEnters(inp: Input, i: nat, s: nat, idx: nat)
    requires Wellformed(inp) && i < |inp.timeline| && s < |inp.bars| && idx < |inp.bars[s]|
    requires IndexAt(inp.bars[s], inp.timeline[i]) == Some(idx)
    requires var mid := ExitStep(inp, After(inp, i, s), s, idx);
      s in mid.open ==> OpenStands(inp, s, mid.open[s], i + 1)
    ensures var mid := ExitStep(inp, After(inp, i, s), s, idx);
      var next := EntryStep(inp, mid, s, idx);
      next.trades == mid.trades && (s in next.open ==> OpenStands(inp, s, next.open[s], i + 1))
  {
    var mid := ExitStep(inp, After(inp, i, s), s, idx);
    if Considers(inp, mid, s, idx) && Decide(inp, mid, s, idx).Take? { EnterStands(inp, s, i, idx); }
  }

  lemma VisitOthers(inp: Input, st: State, s: nat, idx: nat)
    requires |inp.names| == |inp.bars| && s < |inp.bars| && idx < |inp.bars[s]| && !st.raised
    ensures var next := EntryStep(inp, ExitStep(inp, st, s, idx), s, idx);
      forall q: nat :: q != s && q in next.open ==> q in st.open && next.open[q] == st.open[q]
  {
    var row := ExitShape(inp, st, s, idx);
    EntryShape(inp, ExitStep(inp, st, s, idx), s, idx);
  }

  lemma VisitStands(inp: Input, i: nat, s: nat)
    requires Wellformed(inp) && i < |inp.timeline| && s < |inp.bars|
    requires var st := After(inp, i, s); OpensStand(inp, st.open, i, s) && RowsStand(inp, st.trades)
    requires !Visit(inp, After(inp, i, s), inp.timeline[i], s).raised
    ensures var next := Visit(inp, After(inp, i, s), inp.timeline[i], s);
      OpensStand(inp, next.open, i, s + 1) && RowsStand(inp, next.trades)
  {
    var st, ts := After(inp, i, s), inp.timeline[i];
    RaisedStays(inp, st, ts, s);
    EveryMomentIsTidy(inp, i, s);
    var at := IndexAt(inp.bars[s], ts);
    if at.None? {
      IdleStands(inp, st, i, s);
    } else {
      VisitExits(inp, st, i, s, at.value);
      VisitEnters(inp, i, s, at.value);
      VisitOthers(inp, st, s, at.value);
      OthersStand(inp, st.open, Visit(inp, st, ts, s).open, i, s);
    }
  }

  lemma RowEnds(inp: Input, open: map<nat, Spec>, i: nat)
    requires OpensStand(inp, open, i, |inp.bars|)
    ensures OpensStand(inp, open, i + 1, 0)
  {
    forall s | s in open ensures OpenStands(inp, s, open[s], Done(i + 1, 0, s)) {
      assert OpenStands(inp, s, open[s], Done(i, |inp.bars|, s));
    }
  }

  lemma NextMoment(inp: Input, i: nat, j: nat)
    requires Wellformed(inp) && j < |inp.bars| && i < |inp.timeline|
    ensures After(inp, i, j + 1) == Visit(inp, After(inp, i, j), inp.timeline[i], j)
  {
  }

  lemma NextRow(inp: Input, i: nat)
    requires i < |inp.timeline|
    ensures After(inp, i + 1, 0) == After(inp, i, |inp.bars|)
  {
  }

  /** Every open position and every trade of that moment stands. */
  ghost predicate AllStand(inp: Input, st: State, i: nat, j: nat) {
    !st.raised ==> OpensStand(inp, st.open, i, j) && RowsStand(inp, st.trades)
  }

  lemma VisitKeepsAll(inp: Input, i: nat, j: nat)
    requires Wellformed(inp) && j < |inp.bars| && i < |inp.timeline| && AllStand(inp, After(inp, i, j), i, j)
    ensures AllStand(inp, Visit(inp, After(inp, i, j), inp.timeline[i], j), i, j + 1)
  {
    if !Visit(inp, After(inp, i, j), inp.timeline[i], j).raised {
      RaisedStays(inp, After(inp, i, j), inp.timeline[i], j);
      VisitStands(inp, i, j);
    }
  }

  /**
   * At every moment of every replay: an open position was judged when its signal was met, holds the
   * shares of that judgement, and no bar since its fill has met one of its exits. Every trade row is
   * of such a position, filled at the open of the bar behind its signal, and left at the first bar
   * that met an exit, at that exit's price.
   */
  lemma {:induction false} EveryTradeStands(inp: Input, i: nat, j: nat)
    requires Wellformed(inp) && j <= |inp.bars| && i <= |inp.timeline| && (i == |inp.timeline| ==> j == 0)
    ensures AllStand(inp, After(inp, i, j), i, j)
    decreases i, j
  {
    if j > 0 {
      EveryTradeStands(inp, i, j - 1);
      VisitKeepsAll(inp, i, j - 1);
      NextMoment(inp, i, j - 1);
    } else if i > 0 {
      EveryTradeStands(inp, i - 1, |inp.bars|);
      NextRow(inp, i - 1);
      if !After(inp, i, j).raised { RowEnds(inp, After(inp, i, j).open, i - 1); }
    }
  }

  // ---- what was skipped ------------------------------------------------------------------------

  /** The visit meets a signal of a flat symbol and does not take it. */
  predicate Declines(inp: Input, st: State, ts: int, s: nat) {
    && s < |inp.bars| == |inp.names| && !st.raised
    && var at := IndexAt(inp.bars[s], ts);
    at.Some?
    && var mid := ExitStep(inp, st, s, at.value);
    Considers(inp, mid, s, at.value) && Decide(inp, mid, s, at.value).NoTrade?
  }

  function DeclinesOf(inp: Input): (State, int, nat) -> bool {
    (st: State, ts: int, s: nat) => Declines(inp, st, ts, s)
  }

  /** How many signals were met and not taken. */
  function DeclinedSignals(inp: Input, i: nat, j: nat): nat
    requires j <= |inp.bars| && i <= |inp.timeline| && (i == |inp.timeline| ==> j == 0)
  {
    Count(Stepper(inp), DeclinesOf(inp), Start(inp), inp.timeline, |inp.bars|, i, j)
  }

  /** The skip rows, without the one note that some cost had no impact estimate. */
  function SkipsOf(st: State): int {
    |st.skipped| - if st.impactNoted then 1 else 0
  }

  function SkipMeasure(): State -> int {
    (st: State) => SkipsOf(st)
  }

  lemma SkippedVisit(inp: Input, st: State, ts: int, s: nat)
    requires |inp.names| == |inp.bars| && s < |inp.bars|
    ensures SkipsOf(Visit(inp, st, ts, s)) == SkipsOf(st) + if Declines(inp, st, ts, s) then 1 else 0
  {
  }

  /**
   * Every signal is accounted for: at every moment the skip rows are those of the symbols with too few
   * bars, one for each signal that was met and not taken, and at most one note on missing impact.
   */
  lemma EverySignalIsAccounted(inp: Input, i: nat, j: nat)
    requires Wellformed(inp) && j <= |inp.bars| && i <= |inp.timeline| && (i == |inp.timeline| ==> j == 0)
    ensures var st := After(inp, i, j);
      |st.skipped| == |StartSkips(inp, |inp.bars|)| + DeclinedSignals(inp, i, j) + if st.impactNoted then 1 else 0
  {
    var step, takes, measure := Stepper(inp), DeclinesOf(inp), SkipMeasure();
    forall st, ts, s: nat | s < |inp.bars|
      ensures measure(step(st, ts, s)) == measure(st) + if takes(st, ts, s) then 1 else 0
    {
      SkippedVisit(inp, st, ts, s);
    }
    FoldCounts(step, takes, Start(inp), inp.timeline, |inp.bars|, measure, i, j);
  }

  /** The skip rows a replay starts with are those of the symbols with too few bars. */
  lemma {:induction false} ShortSymbolsAreSkipped(inp: Input, n: nat, skip: Skip)
    requires n <= |inp.bars|
    ensures skip in StartSkips(inp, n) <==>
      && skip.symbol < n && |inp.bars[skip.symbol]| < MIN_BARS && skip.reason == InsufficientBars
      && skip.ts == if inp.bars[skip.symbol] == [] then None else Some(inp.bars[skip.symbol][0].ts)
  {
    if n > 0 { ShortSymbolsAreSkipped(inp, n - 1, skip); }
  }
}
