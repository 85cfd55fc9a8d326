/**
 * signald/validation/harness.py `replay`: bars are visited in time order, symbol by symbol; every
 * visit may close a position and may open one that fills at the open of the next bar. Bars and
 * symbols arrive sorted, and a symbol is named by its rank.
 */
module Replay {
  import opened Prelude
  import opened RiskState
  import Gate
  import Sizing

  datatype Bar = Bar(
    ts: int, open: Option<real>, high: real, low: real, close: real, signal: bool,
    stop: Option<real>, target: Option<real>, side: Side, setup: Setup,
    spreadBps: Option<real>, advUsd: Option<real>, advShares: Option<real>,
    sigma: Option<real>, volume: Option<real>, atr: Option<real>)

  datatype Costs = Costs(spreadBps: real, feesBps: real, borrowBpsPerDay: real)

  datatype Quote = Quote(last: real, spreadBps: real, advShares: Option<real>, atr: Option<real>)

  /** Everything a judgement at one bar gets to see. */
  datatype Context = Context(symbol: nat, ts: int, bars: seq<Bar>, quote: Quote, request: RiskRequest, book: BookState)

  datatype Input = Input(
    names: seq<string>, bars: seq<seq<Bar>>, timeline: seq<int>, startingEquity: real, sleeve: Sleeve,
    riskPct: real, window: Option<(int, int)>, flatTime: Option<int>, costs: Costs,
    impact: (real, Option<real>, Option<real>) -> Option<real>,
    judge: Context -> Judged)

  /** What the gate and the sizer make of a signal. */
  datatype Judged = Declined(reason: SkipReason) | Shares(qty: nat)

  /**
   * An open position. `fill` is the bar it fills at: the source copies that bar's open and timestamp
   * into the record, which are `EntryPx` and `EntryTs` below.
   */
  datatype Spec = Spec(
    fill: nat, qty: nat, side: Side, stop: real, target: Option<real>, stopDistance: real, last: real,
    advUsd: Option<real>, sigma: Option<real>)

  datatype ExitReason = StopHit | TargetHit | FlatBy | EndOfData

  datatype Row = Row(
    symbol: nat, entryTs: int, exitTs: int, qty: nat, entryPx: real, exitPx: real,
    slippageBps: real, feesUsd: real, rMultiple: real, exitReason: ExitReason)

  datatype SkipReason =
    | InsufficientBars | ImpactUnavailable | NoNextBar | OutsideEntryWindow | NoStop | NoEntryPrice
    | Refused(verdict: Gate.Verdict, binding: Option<Gate.Check>) | Unsized(reason: Sizing.Reason)

  datatype Skip = Skip(symbol: nat, reason: SkipReason, ts: Option<int>)

  /** `raised`: a held symbol met a bar without an open, which the source answers with an exception. */
  datatype State = State(
    open: map<nat, Spec>, trades: seq<Row>, skipped: seq<Skip>, curve: seq<real>, realized: real,
    impactNoted: bool, raised: bool)

  const MIN_BARS := 2
  const DAY := 86400

  function TimeOf(ts: int): int {
    ts % DAY
  }

  // ---- one visit -------------------------------------------------------------------------------

  function ExitFor(spec: Spec, bar: Bar, isLast: bool, flatTime: Option<int>): Option<(real, ExitReason)>
    requires bar.open.Some?
  {
    var open := bar.open.value;
    if spec.side.Buy? && bar.low <= spec.stop then Some((if open > spec.stop then spec.stop else open, StopHit))
    else if spec.side.Buy? && spec.target.Some? && bar.high >= spec.target.value then
      Some((if open >= spec.target.value then open else spec.target.value, TargetHit))
    else if spec.side.Sell? && bar.high >= spec.stop then
      Some((if open < spec.stop then spec.stop else open, StopHit))
    else if spec.side.Sell? && spec.target.Some? && bar.low <= spec.target.value then
      Some((if open <= spec.target.value then open else spec.target.value, TargetHit))
    else if flatTime.Some? && TimeOf(bar.ts) >= flatTime.value then Some((bar.close, FlatBy))
    else if isLast then Some((bar.close, EndOfData))
    else None
  }

  function EntryPx(inp: Input, s: nat, spec: Spec): real {
    if s < |inp.bars| && spec.fill < |inp.bars[s]| then inp.bars[s][spec.fill].open.GetOr(0.0) else 0.0
  }

  function EntryTs(inp: Input, s: nat, spec: Spec): int {
    if s < |inp.bars| && spec.fill < |inp.bars[s]| then inp.bars[s][spec.fill].ts else 0
  }

  /** Basis points of an amount. */
  function Bps(usd: real, bps: real): real {
    usd * bps / 10000.0
  }

  function Value(qty: nat, px: real): real {
    qty as real * px
  }

  function LegBps(inp: Input, spec: Spec, notional: real): real {
    inp.costs.spreadBps + inp.impact(notional, spec.advUsd, spec.sigma).GetOr(0.0)
  }

  function ImpactMissing(inp: Input, spec: Spec, entry: real, exit: real): bool {
    inp.impact(Value(spec.qty, entry), spec.advUsd, spec.sigma).None?
    || inp.impact(Value(spec.qty, exit), spec.advUsd, spec.sigma).None?
  }

  function NetPnl(inp: Input, spec: Spec, entry: real, exit: real, entryTs: int, exitTs: int): real {
    var entryUsd, exitUsd := Value(spec.qty, entry), Value(spec.qty, exit);
    var slippage := Bps(entryUsd, LegBps(inp, spec, entryUsd)) + Bps(exitUsd, LegBps(inp, spec, exitUsd));
    var fees := Bps(entryUsd + exitUsd, inp.costs.feesBps);
    var days := RMax(0.0, (exitTs - entryTs) as real / DAY as real);
    var borrow := if spec.side.Sell? then Bps(entryUsd, inp.costs.borrowBpsPerDay) * days else 0.0;
    (if spec.side.Buy? then exitUsd - entryUsd else entryUsd - exitUsd) - slippage - fees - borrow
  }

  function CloseTrade(inp: Input, s: nat, spec: Spec, exit: real, why: ExitReason, exitTs: int): Row {
    var entry, entryTs := EntryPx(inp, s, spec), EntryTs(inp, s, spec);
    var entryUsd, exitUsd := Value(spec.qty, entry), Value(spec.qty, exit);
    var risk := spec.qty as real * spec.stopDistance;
    Row(s, entryTs, exitTs, spec.qty, entry, exit,
        (LegBps(inp, spec, entryUsd) + LegBps(inp, spec, exitUsd)) / 2.0,
        Bps(entryUsd + exitUsd, inp.costs.feesBps),
        if risk > 0.0 then NetPnl(inp, spec, entry, exit, entryTs, exitTs) / risk else 0.0, why)
  }

  /** `_row_pnl_usd`, rebuilt from the row alone. */
  function RowPnl(row: Row): real {
    Value(row.qty, row.exitPx) - Value(row.qty, row.entryPx) - row.feesUsd
    - 2.0 * Bps(Value(row.qty, row.entryPx), row.slippageBps)
  }

  function ExitStep(inp: Input, st: State, s: nat, idx: nat): State
    requires s < |inp.bars| && idx < |inp.bars[s]|
  {
    var bar := inp.bars[s][idx];
    if s !in st.open then st
    else if bar.open.None? then st.(raised := true)
    else
      var spec := st.open[s].(last := bar.close);
      var exit := ExitFor(spec, bar, idx == |inp.bars[s]| - 1, inp.flatTime);
      if exit.None? then st.(open := st.open[s := spec])
      else
        var row := CloseTrade(inp, s, spec, exit.value.0, exit.value.1, bar.ts);
        var missing := ImpactMissing(inp, spec, row.entryPx, row.exitPx);
        var realized := st.realized + RowPnl(row);
        State(st.open - {s}, st.trades + [row],
              st.skipped + if missing && !st.impactNoted then [Skip(s, ImpactUnavailable, Some(bar.ts))] else [],
              st.curve + [inp.startingEquity + realized], realized, st.impactNoted || missing, false)
  }

  /** The open positions in the order of their symbols. */
  function Positions(inp: Input, open: map<nat, Spec>, n: nat): seq<Position> {
    if n == 0 then []
    else
      Positions(inp, open, n - 1)
      + if n - 1 in open && n - 1 < |inp.names| then [PositionOf(inp, n - 1, open[n - 1])] else []
  }

  function PositionOf(inp: Input, s: nat, spec: Spec): Position
    requires s < |inp.names|
  {
    Position(inp.names[s], spec.qty as real, EntryPx(inp, s, spec), inp.sleeve, Some(spec.last), Some(spec.stop),
      None, None)
  }

  function RequestAt(inp: Input, st: State, s: nat, bar: Bar, stop: real): RiskRequest
    requires s < |inp.names|
  {
    RiskRequest(inp.sleeve, inp.names[s], bar.setup, bar.side, RAbs(bar.close - stop), bar.close,
                inp.startingEquity + st.realized, inp.riskPct, Some(stop), bar.target, None, None, bar.volume,
                None, None, false, None)
  }

  function ContextAt(inp: Input, st: State, s: nat, idx: nat, stop: real): Context
    requires s < |inp.bars| && idx < |inp.bars[s]| && |inp.names| == |inp.bars|
  {
    var bar := inp.bars[s][idx];
    var equity := inp.startingEquity + st.realized;
    var positions := Positions(inp, st.open, |inp.names|);
    Context(s, bar.ts, inp.bars[s][..idx + 1],
            Quote(bar.close, bar.spreadBps.GetOr(inp.costs.spreadBps), bar.advShares, bar.atr),
            RequestAt(inp, st, s, bar, stop),
            BookState(equity, RMax(0.0, equity - Deployed(positions)), positions, 0.0, map[], map[]))
  }

  function Deployed(positions: seq<Position>): real {
    if positions == [] then 0.0
    else Deployed(positions[..|positions| - 1]) + positions[|positions| - 1].Notional()
  }

  function AdvUsd(bar: Bar): Option<real> {
    if bar.advUsd.Some? then bar.advUsd
    else if bar.advShares.Some? then Some(bar.advShares.value * bar.close)
    else None
  }

  datatype Decision = NoTrade(reason: SkipReason) | Take(spec: Spec)

  /** What one signal leads to; the bar after it supplies the fill, and only the fill. */
  function Decide(inp: Input, st: State, s: nat, idx: nat): Decision
    requires s < |inp.bars| && idx < |inp.bars[s]| && |inp.names| == |inp.bars|
  {
    var bar := inp.bars[s][idx];
    if idx + 1 >= |inp.bars[s]| then NoTrade(NoNextBar)
    else if inp.window.Some? && !(inp.window.value.0 <= TimeOf(bar.ts) <= inp.window.value.1)
      then NoTrade(OutsideEntryWindow)
    else if bar.stop.None? then NoTrade(NoStop)
    else if inp.bars[s][idx + 1].open.None? then NoTrade(NoEntryPrice)
    else
      match inp.judge(ContextAt(inp, st, s, idx, bar.stop.value))
      case Declined(reason) => NoTrade(reason)
      case Shares(qty) =>
        Take(Spec(idx + 1, qty, bar.side, bar.stop.value, bar.target, RAbs(bar.close - bar.stop.value), bar.close,
                  AdvUsd(bar), bar.sigma))
  }

  predicate Considers(inp: Input, st: State, s: nat, idx: nat)
    requires s < |inp.bars| && idx < |inp.bars[s]|
  {
    !st.raised && s !in st.open && inp.bars[s][idx].signal
  }

  function EntryStep(inp: Input, st: State, s: nat, idx: nat): State
    requires s < |inp.bars| && idx < |inp.bars[s]| && |inp.names| == |inp.bars|
  {
    if !Considers(inp, st, s, idx) then st
    else
      match Decide(inp, st, s, idx)
      case NoTrade(reason) => st.(skipped := st.skipped + [Skip(s, reason, Some(inp.bars[s][idx].ts))])
      case Take(spec) => st.(open := st.open[s := spec])
  }

  /** The bar of a timestamp; of several, the last. */
  function IndexAt(bars: seq<Bar>, ts: int): (r: Option<nat>)
    ensures r.Some? ==> r.value < |bars| && bars[r.value].ts == ts
    ensures r.Some? ==> forall k :: r.value < k < |bars| ==> bars[k].ts != ts
    ensures r.None? ==> forall k :: 0 <= k < |bars| ==> bars[k].ts != ts
  {
    if bars == [] then None
    else if bars[|bars| - 1].ts == ts then Some(|bars| - 1)
    else IndexAt(bars[..|bars| - 1], ts)
  }

  function Visit(inp: Input, st: State, ts: int, s: nat): State
    requires s < |inp.bars| && |inp.names| == |inp.bars|
  {
    var at := IndexAt(inp.bars[s], ts);
    if st.raised || at.None? then st
    else EntryStep(inp, ExitStep(inp, st, s, at.value), s, at.value)
  }

  /** The caller's gate and, with the risk it leaves, the sizer at its caps. */
  function Judge(gate: Context -> Gate.GateDecision, caps: Context -> Sizing.SizingCaps, ctx: Context): Judged {
    var decision := gate(ctx);
    if !decision.Allowed() then Declined(Refused(decision.verdict, decision.binding))
    else
      var req := ctx.request.(requestedRiskPct := decision.adjusted.GetOr(ctx.request.requestedRiskPct));
      var sized := Sizing.Size(req, caps(ctx), 1.0);
      if !sized.ok || sized.qty < 1 then Declined(Unsized(sized.reason)) else Shares(sized.qty)
  }

  function JudgeOf(gate: Context -> Gate.GateDecision, caps: Context -> Sizing.SizingCaps): Context -> Judged {
    ctx => Judge(gate, caps, ctx)
  }

  // ---- the run ---------------------------------------------------------------------------------

  function StartSkips(inp: Input, n: nat): seq<Skip>
    requires n <= |inp.bars|
  {
    if n == 0 then []
    else
      var bars := inp.bars[n - 1];
      StartSkips(inp, n - 1)
      + if |bars| < MIN_BARS then [Skip(n - 1, InsufficientBars, if bars == [] then None else Some(bars[0].ts))] else []
  }

  /** The nested loop over timestamps and symbols: `i` whole timestamps and `j` symbols of the next. */
  function Fold(step: (State, int, nat) -> State, start: State, timeline: seq<int>, n: nat, i: nat, j: nat): State
    requires j <= n && i <= |timeline| && (i == |timeline| ==> j == 0)
    decreases i, j
  {
    if j > 0 then step(Fold(step, start, timeline, n, i, j - 1), timeline[i], j - 1)
    else if i == 0 then start
    else Fold(step, start, timeline, n, i - 1, n)
  }

  function Stepper(inp: Input): (State, int, nat) -> State {
    (st: State, ts: int, s: nat) => if s < |inp.bars| && |inp.names| == |inp.bars| then Visit(inp, st, ts, s) else st
  }

  function Start(inp: Input): State {
    State(map[], [], StartSkips(inp, |inp.bars|), [inp.startingEquity], 0.0, false, false)
  }

  /** The state at a moment of the replay. */
  function After(inp: Input, i: nat, j: nat): State
    requires j <= |inp.bars| && i <= |inp.timeline| && (i == |inp.timeline| ==> j == 0)
  {
    Fold(Stepper(inp), Start(inp), inp.timeline, |inp.bars|, i, j)
  }

  predicate Sorted(bars: seq<Bar>) {
    forall a, b :: 0 <= a < b < |bars| ==> bars[a].ts <= bars[b].ts
  }

  predicate IsTimeline(inp: Input) {
    && (forall a, b :: 0 <= a < b < |inp.timeline| ==> inp.timeline[a] < inp.timeline[b])
    && (forall s, k :: 0 <= s < |inp.bars| && 0 <= k < |inp.bars[s]| ==> inp.bars[s][k].ts in inp.timeline)
  }

  predicate Wellformed(inp: Input) {
    && |inp.names| == |inp.bars| && IsTimeline(inp)
    && (forall s :: 0 <= s < |inp.bars| ==> Sorted(inp.bars[s]))
  }

  /** `ts_index` of one symbol. */
  method BuildIndex(bars: seq<Bar>) returns (index: map<int, nat>)
    ensures forall ts :: IndexAt(bars, ts) == if ts in index then Some(index[ts]) else None
  {
    index := map[];
    for i := 0 to |bars|
      invariant forall ts :: IndexAt(bars[..i], ts) == if ts in index then Some(index[ts]) else None
    {
      assert bars[..i + 1][..i] == bars[..i];
      index := index[bars[i].ts := i];
    }
    assert bars[..|bars|] == bars;
  }

  /** The body of the loop: the exit of a held position, then the entry of a signal. */
  method VisitOne(inp: Input, st: State, ts: int, s: nat, index: map<int, nat>) returns (next: State)
    requires s < |inp.bars| && |inp.names| == |inp.bars|
    requires IndexAt(inp.bars[s], ts) == if ts in index then Some(index[ts]) else None
    ensures next == Visit(inp, st, ts, s)
  {
    next := st;
    if !st.raised && ts in index {
      next := ExitStep(inp, next, s, index[ts]);
      next := EntryStep(inp, next, s, index[ts]);
    }
  }

  /** `replay`: the nested loop over timestamps and symbols. */
  method RunReplay(inp: Input) returns (trades: seq<Row>, skipped: seq<Skip>, curve: seq<real>, raised: bool)
    requires Wellformed(inp)
    ensures var end := After(inp, |inp.timeline|, 0);
      trades == end.trades && skipped == end.skipped && curve == end.curve && raised == end.raised
  {
    var n := |inp.bars|;
    var index: seq<map<int, nat>> := [];
    skipped := [];
    for s := 0 to n
      invariant skipped == StartSkips(inp, s) && |index| == s
      invariant forall k, ts :: 0 <= k < s ==>
        IndexAt(inp.bars[k], ts) == if ts in index[k] then Some(index[k][ts]) else None
    {
      var m := BuildIndex(inp.bars[s]);
      index := index + [m];
      if |inp.bars[s]| < MIN_BARS {
        skipped := skipped + [Skip(s, InsufficientBars, if inp.bars[s] == [] then None else Some(inp.bars[s][0].ts))];
      }
    }
    var st := State(map[], [], skipped, [inp.startingEquity], 0.0, false, false);
    assert st == Start(inp);
    for i := 0 to |inp.timeline|
      invariant st == After(inp, i, 0)
    {
      for s := 0 to n
        invariant st == After(inp, i, s)
      {
        st := VisitOne(inp, st, inp.timeline[i], s, index[s]);
      }
    }
    return st.trades, st.skipped, st.curve, st.raised;
  }
}
