/**
 * signald/engine.py: one intraday session. Every candidate is gated on the book with this session's
 * trade counts, sized, sliced, and submitted child by child until one is acknowledged.
 *
 * A submit may go unanswered although its order was created, so what the engine counts and what is
 * live at the broker are kept apart.
 */
module SessionEngine {
  import opened Prelude
  import opened RiskState
  import opened Ladder
  import opened Gate
  import opened GateVerdict
  import opened Sizing
  import opened EndToEnd
  import OrderPolicy
  import Manager = OrderManager

  const VALIDATED_EDGE := 0.05

  datatype EngineConfig = EngineConfig(
    riskPerTradePct: real, maxHeatPct: real, kellyFraction: real, policy: OrderPolicy.PolicyConfig)

  // ---- answers ---------------------------------------------------------------------------------

  /**
   * What becomes of one child: the guard denies it, or it is submitted and acknowledged, refused,
   * or left without a usable answer, in which case its order may have been created all the same.
   */
  datatype Answer = Denied | Acked | Refused | Unanswered(created: bool)

  /** The manager's result as the engine reads it: only "submitted" counts. */
  function AnswerOf(created: bool, r: Manager.Reply): Answer {
    match Manager.Classify(r)
    case Submitted => Acked
    case Rejected => Refused
    case Duplicate => Refused
    case _ => Unanswered(created)
  }

  predicate Creates(a: Answer) {
    a == Acked || a == Unanswered(true)
  }

  /** Over everything the broker can do, the answer tells exactly whether an order was created. */
  lemma AnswersTellTheOrder(created: bool, r: Manager.Reply)
    requires Manager.SubmitOutcome(created, r)
    ensures Creates(AnswerOf(created, r)) <==> created
  {
  }

  /** A scanned candidate: all of its gate context but the book, and what becomes of its children. */
  datatype Candidate = Candidate(ctx: GateContext, answers: seq<Answer>)

  function AnswerAt(answers: seq<Answer>, k: nat): Answer {
    if k < |answers| then answers[k] else Denied
  }

  /** One submitted child: the context it was gated in, what was sized, what was sent, and the answer. */
  datatype Sent = Sent(ctx: GateContext, sized: nat, children: nat, child: nat, qty: int, answer: Answer)

  // ---- counting trades -------------------------------------------------------------------------

  function CountOf(trades: map<string, nat>, symbol: string): nat {
    if symbol in trades then trades[symbol] else 0
  }

  ghost function SumOver(keys: set<string>, trades: map<string, nat>): nat
    requires keys <= trades.Keys
  {
    if keys == {} then 0
    else
      var k :| k in keys;
      trades[k] + SumOver(keys - {k}, trades)
  }

  lemma {:induction false} SumOverTake(keys: set<string>, trades: map<string, nat>, k: string)
    requires keys <= trades.Keys && k in keys
    ensures SumOver(keys, trades) == trades[k] + SumOver(keys - {k}, trades)
    decreases |keys|
  {
    var c :| c in keys && SumOver(keys, trades) == trades[c] + SumOver(keys - {c}, trades);
    if c != k {
      SumOverTake(keys - {c}, trades, k);
      SumOverTake(keys - {k}, trades, c);
      assert keys - {c} - {k} == keys - {k} - {c};
    }
  }

  lemma {:induction false} SumOverSame(keys: set<string>, a: map<string, nat>, b: map<string, nat>)
    requires keys <= a.Keys && keys <= b.Keys && forall k :: k in keys ==> a[k] == b[k]
    ensures SumOver(keys, a) == SumOver(keys, b)
    decreases |keys|
  {
    if keys != {} {
      var c :| c in keys;
      SumOverTake(keys, a, c);
      SumOverTake(keys, b, c);
      SumOverSame(keys - {c}, a, b);
    }
  }

  ghost function Total(trades: map<string, nat>): nat {
    SumOver(trades.Keys, trades)
  }

  function Counted(trades: map<string, nat>, symbol: string): map<string, nat> {
    trades[symbol := CountOf(trades, symbol) + 1]
  }

  lemma TotalCounted(trades: map<string, nat>, symbol: string)
    ensures Total(Counted(trades, symbol)) == Total(trades) + 1
  {
    var after := Counted(trades, symbol);
    SumOverTake(after.Keys, after, symbol);
    SumOverSame(after.Keys - {symbol}, after, trades);
    if symbol in trades {
      SumOverTake(trades.Keys, trades, symbol);
      assert after.Keys == trades.Keys;
    } else {
      assert after.Keys - {symbol} == trades.Keys;
    }
  }

  function MergeCounts(a: map<string, nat>, b: map<string, nat>): map<string, nat> {
    map s | s in a.Keys + b.Keys :: CountOf(a, s) + CountOf(b, s)
  }

  /** `book_with_trades`: per-name counts are added, the sleeve's count is the session's alone. */
  ghost function WithTrades(book: BookState, trades: map<string, nat>): BookState {
    if trades == map[] && book.tradesToday == map[] then book
    else book.(tradesToday := MergeCounts(book.tradesToday, trades),
                    sleeveTradesToday := map[Intraday := Total(trades)])
  }

  // ---- one candidate ---------------------------------------------------------------------------

  function CapsFor(cfg: EngineConfig, ctx: GateContext): SizingCaps {
    SizingCaps(RMax(0.0, cfg.riskPerTradePct), RMax(0.0, cfg.maxHeatPct - ctx.book.heatPct),
               RMax(0.0, RMax(0.0, ctx.sleeveCeilingPct - ctx.sleeveDeployedPct) * ctx.book.equity),
               ctx.config.maxAdvPct, cfg.kellyFraction, Some(VALIDATED_EDGE), Some(1.0), 1.0, None)
  }

  /** The market `_submit` prices with: the entry price as last, and no spread. */
  function SubmitMarket(ctx: GateContext): MarketState {
    ctx.market.(last := Some(ctx.request.price), spreadBps := None)
  }

  function PlanFor(rnd: real -> int, cfg: EngineConfig, ctx: GateContext, qty: nat): OrderPolicy.PlanResult {
    OrderPolicy.Build(rnd, qty, SubmitMarket(ctx), ctx.request.side, cfg.policy,
                      OrderPolicy.StyleFor(ctx.request.setup), false)
  }

  /** The loop has returned: its last submit was acknowledged. */
  predicate Done(sent: seq<Sent>) {
    sent != [] && sent[|sent| - 1].answer == Acked
  }

  /** The submits among the first `n` children: every one the guard passes, up to the first acknowledged. */
  function SubmitsOf(ctx: GateContext, sized: nat, orders: seq<OrderPolicy.ChildOrder>, answers: seq<Answer>,
                     n: nat): seq<Sent>
    requires n <= |orders|
  {
    if n == 0 then []
    else
      var earlier, answer := SubmitsOf(ctx, sized, orders, answers, n - 1), AnswerAt(answers, n - 1);
      if Done(earlier) || answer == Denied then earlier
      else earlier + [Sent(ctx, sized, |orders|, n - 1, orders[n - 1].qty, answer)]
  }

  function SendFrom(ctx: GateContext, sized: nat, plan: OrderPolicy.PlanResult, answers: seq<Answer>): seq<Sent> {
    if plan.Refused? then [] else SubmitsOf(ctx, sized, plan.orders, answers, |plan.orders|)
  }

  /** The gate, then the sizer at the engine's caps. */
  function SizedQty(cfg: EngineConfig, ctx: GateContext): Option<nat> {
    var sized := GateThenSize(ctx, CapsFor(cfg, ctx));
    if sized.None? || !sized.value.ok then None else Some(sized.value.qty)
  }

  function Evaluate(rnd: real -> int, cfg: EngineConfig, ctx: GateContext, answers: seq<Answer>): seq<Sent> {
    var sized := SizedQty(cfg, ctx);
    if sized.None? then [] else SendFrom(ctx, sized.value, PlanFor(rnd, cfg, ctx, sized.value), answers)
  }

  // ---- the session -----------------------------------------------------------------------------

  /** What one candidate submits, as a function value. */
  type Handler = (GateContext, seq<Answer>) -> seq<Sent>

  function Evaluator(rnd: real -> int, cfg: EngineConfig): Handler {
    (ctx: GateContext, answers: seq<Answer>) => Evaluate(rnd, cfg, ctx, answers)
  }

  lemma EvaluatorEvaluates(rnd: real -> int, cfg: EngineConfig, ctx: GateContext, answers: seq<Answer>)
    ensures Evaluator(rnd, cfg)(ctx, answers) == Evaluate(rnd, cfg, ctx, answers)
  {
  }

  /** The engine's counters and every submit so far. */
  datatype Progress = Progress(trades: map<string, nat>, sent: seq<Sent>)

  ghost function Submitted(eval: Handler, book: BookState, trades: map<string, nat>, c: Candidate): seq<Sent> {
    eval(c.ctx.(book := WithTrades(book, trades)), c.answers)
  }

  ghost function Step(eval: Handler, book: BookState, s: Progress, c: Candidate): Progress {
    var sent := Submitted(eval, book, s.trades, c);
    Progress(if Done(sent) then Counted(s.trades, c.ctx.request.symbol) else s.trades, s.sent + sent)
  }

  /** The candidates in order, from the counters an earlier run of the engine left. */
  ghost function RunOver(eval: Handler, book: BookState, start: map<string, nat>, cands: seq<Candidate>): Progress
    decreases cands
  {
    if cands == [] then Progress(start, [])
    else Step(eval, book, RunOver(eval, book, start, cands[..|cands| - 1]), cands[|cands| - 1])
  }

  class Engine {
    const book: BookState
    const cfg: EngineConfig
    var tradesToday: map<string, nat>

    constructor (book: BookState, cfg: EngineConfig)
      ensures this.book == book && this.cfg == cfg && tradesToday == map[]
    {
      this.book, this.cfg, tradesToday := book, cfg, map[];
    }

    method BookWithTrades() returns (b: BookState)
      ensures b == WithTrades(book, tradesToday)
    {
      if tradesToday == map[] && book.tradesToday == map[] { return book; }
      var merged := MergedWith(book.tradesToday, tradesToday);
      var total := SumOf(tradesToday);
      return book.(tradesToday := merged, sleeveTradesToday := map[Intraday := total]);
    }

    /** `_submit`: children in order; the first acknowledged one is counted and ends the candidate. */
    method Submit(rnd: real -> int, ctx: GateContext, sized: nat, answers: seq<Answer>) returns (sent: seq<Sent>)
      modifies this
      ensures sent == SendFrom(ctx, sized, PlanFor(rnd, cfg, ctx, sized), answers)
      ensures tradesToday == if Done(sent) then Counted(old(tradesToday), ctx.request.symbol) else old(tradesToday)
    {
      sent := [];
      var plan := PlanFor(rnd, cfg, ctx, sized);
      if plan.Refused? { return; }
      for k := 0 to |plan.orders|
        invariant sent == SubmitsOf(ctx, sized, plan.orders, answers, k)
        invariant !Done(sent) && tradesToday == old(tradesToday)
      {
        var answer := AnswerAt(answers, k);
        if answer != Denied {
          sent := sent + [Sent(ctx, sized, |plan.orders|, k, plan.orders[k].qty, answer)];
          if answer == Acked {
            tradesToday := Counted(tradesToday, ctx.request.symbol);
            SubmitsStay(ctx, sized, plan.orders, answers, k + 1, |plan.orders|);
            return;
          }
        }
      }
    }

    /** One candidate: gate, size, submit. */
    method Handle(rnd: real -> int, c: Candidate) returns (sent: seq<Sent>)
      modifies this
      ensures sent == Submitted(Evaluator(rnd, cfg), book, old(tradesToday), c)
      ensures tradesToday == if Done(sent) then Counted(old(tradesToday), c.ctx.request.symbol) else old(tradesToday)
    {
      var current := BookWithTrades();
      var ctx := c.ctx.(book := current);
      EvaluatorEvaluates(rnd, cfg, ctx, c.answers);
      var sized := SizedQty(cfg, ctx);
      if sized.None? { return []; }
      sent := Submit(rnd, ctx, sized.value, c.answers);
    }

    method Run(rnd: real -> int, cands: seq<Candidate>) returns (sent: seq<Sent>)
      modifies this
      ensures Progress(tradesToday, sent) == RunOver(Evaluator(rnd, cfg), book, old(tradesToday), cands)
    {
      sent := [];
      ghost var eval := Evaluator(rnd, cfg);
      for i := 0 to |cands|
        invariant Progress(tradesToday, sent) == RunOver(eval, book, old(tradesToday), cands[..i])
      {
        assert cands[..i + 1][..i] == cands[..i];
        var submitted := Handle(rnd, cands[i]);
        sent := sent + submitted;
      }
      assert cands[..|cands|] == cands;
    }
  }

  /** The loop of `book_with_trades`: every traded name's count is added to the broker's. */
  method MergedWith(counts: map<string, nat>, trades: map<string, nat>) returns (merged: map<string, nat>)
    ensures merged == MergeCounts(counts, trades)
  {
    merged := counts;
    var keys := trades.Keys;
    while keys != {}
      invariant keys <= trades.Keys
      invariant forall s :: s in merged <==> s in counts || (s in trades && s !in keys)
      invariant forall s :: CountOf(merged, s) == CountOf(counts, s) + if s in keys then 0 else CountOf(trades, s)
      decreases |keys|
    {
      var k :| k in keys;
      merged := merged[k := CountOf(merged, k) + trades[k]];
      keys := keys - {k};
    }
    MergedIsMerge(counts, trades, merged);
  }

  lemma MergedIsMerge(counts: map<string, nat>, trades: map<string, nat>, merged: map<string, nat>)
    requires forall s :: s in merged <==> s in counts || s in trades
    requires forall s :: CountOf(merged, s) == CountOf(counts, s) + CountOf(trades, s)
    ensures merged == MergeCounts(counts, trades)
  {
    forall s | s in merged ensures merged[s] == MergeCounts(counts, trades)[s] {
      assert CountOf(merged, s) == merged[s];
    }
  }

  method SumOf(trades: map<string, nat>) returns (total: nat)
    ensures total == Total(trades)
  {
    total := 0;
    var keys := trades.Keys;
    while keys != {}
      invariant keys <= trades.Keys && total + SumOver(keys, trades) == Total(trades)
      decreases |keys|
    {
      var k :| k in keys;
      SumOverTake(keys, trades, k);
      total := total + trades[k];
      keys := keys - {k};
    }
  }

  lemma {:induction false} SubmitsStay(ctx: GateContext, sized: nat, orders: seq<OrderPolicy.ChildOrder>,
                                       answers: seq<Answer>, m: nat, n: nat)
    requires m <= n <= |orders| && Done(SubmitsOf(ctx, sized, orders, answers, m))
    ensures SubmitsOf(ctx, sized, orders, answers, n) == SubmitsOf(ctx, sized, orders, answers, m)
  {
    if m < n { SubmitsStay(ctx, sized, orders, answers, m, n - 1); }
  }

  // ---- what every submitted order keeps --------------------------------------------------------

  /** The engine's own cap beyond the gate's: the book's heat plus this order's stop risk. */
  predicate HeatHolds(cfg: EngineConfig, ctx: GateContext, qty: real) {
    ctx.book.heatPct < cfg.maxHeatPct && Carries(ctx, qty, cfg.maxHeatPct - ctx.book.heatPct)
  }

  lemma CarriesFewer(ctx: GateContext, few: real, many: real, risk: real)
    requires few <= many && ctx.request.stopDistance > 0.0 && Carries(ctx, many, risk)
    ensures Carries(ctx, few, risk)
  {
    MulMono(few, many, ctx.request.stopDistance);
  }

  /** What was sized carries the risk the gate left, and keeps the heat cap. */
  lemma SizedQtyCarries(cfg: EngineConfig, ctx: GateContext)
    requires EngineShape(ctx) && IsRung(ctx.ladder) && SizedQty(cfg, ctx).Some?
    ensures Granted(ctx, EffectiveRisk(ctx)) && Carries(ctx, SizedQty(cfg, ctx).value as real, EffectiveRisk(ctx))
    ensures HeatHolds(cfg, ctx, SizedQty(cfg, ctx).value as real)
  {
    var req, caps := SizedRequest(ctx), CapsFor(cfg, ctx);
    AllowedIsGranted(ctx);
    SizedRiskWithinRequest(req, caps);
    RiskFitsCarries(ctx, SizedQty(cfg, ctx).value, EffectiveRisk(ctx));
    SizedRiskWithinHeat(req, caps);
    RiskFitsCarries(ctx, SizedQty(cfg, ctx).value, caps.houseHeatRemainingPct);
    HeatFromCap(cfg, ctx, SizedQty(cfg, ctx).value as real);
  }

  lemma HeatFromCap(cfg: EngineConfig, ctx: GateContext, qty: real)
    requires ctx.request.stopDistance > 0.0 && qty > 0.0
    requires Carries(ctx, qty, RMax(0.0, cfg.maxHeatPct - ctx.book.heatPct))
    ensures HeatHolds(cfg, ctx, qty)
  {
    MulPositive(qty, ctx.request.stopDistance);
    var heat := RMax(0.0, cfg.maxHeatPct - ctx.book.heatPct);
    assert heat == 0.0 ==> OfEquity(ctx, heat) == 0.0;
  }

  // ---- what one candidate submits ----------------------------------------------------------------

  /** Is child `k` submitted: the guard passes it and no earlier child was acknowledged. */
  predicate Tried(answers: seq<Answer>, k: nat) {
    AnswerAt(answers, k) != Denied && forall j :: 0 <= j < k ==> AnswerAt(answers, j) != Acked
  }

  predicate AllTried(answers: seq<Answer>, n: nat) {
    forall k :: 0 <= k < n ==> Tried(answers, k)
  }

  /** The shares of a list of submits. */
  function Quantity(sent: seq<Sent>): int {
    if sent == [] then 0 else Quantity(sent[..|sent| - 1]) + sent[|sent| - 1].qty
  }

  lemma QuantityNext(sent: seq<Sent>, order: Sent)
    ensures Quantity(sent + [order]) == Quantity(sent) + order.qty
  {
    assert (sent + [order])[..|sent|] == sent;
  }

  /** What a candidate submits: its own context, no denied or empty child, an acknowledgement only at the end. */
  predicate OneCandidate(ctx: GateContext, sent: seq<Sent>) {
    && (forall i :: 0 <= i < |sent| ==> sent[i].ctx == ctx && sent[i].answer != Denied && sent[i].qty >= 1)
    && forall i :: 0 <= i < |sent| - 1 ==> sent[i].answer != Acked
  }

  lemma {:induction false} SubmitsAreOneCandidate(ctx: GateContext, sized: nat, orders: seq<OrderPolicy.ChildOrder>,
                                                  answers: seq<Answer>, n: nat)
    requires n <= |orders| && forall i :: 0 <= i < |orders| ==> orders[i].qty >= 1
    ensures OneCandidate(ctx, SubmitsOf(ctx, sized, orders, answers, n))
  {
    if n > 0 { SubmitsAreOneCandidate(ctx, sized, orders, answers, n - 1); }
  }

  /** The loop is over exactly behind an acknowledged child. */
  lemma {:induction false} DoneExactlyWhen(ctx: GateContext, sized: nat, orders: seq<OrderPolicy.ChildOrder>,
                                           answers: seq<Answer>, n: nat)
    requires n <= |orders|
    ensures Done(SubmitsOf(ctx, sized, orders, answers, n)) <==>
      exists j :: 0 <= j < n && AnswerAt(answers, j) == Acked
  {
    if n > 0 { DoneExactlyWhen(ctx, sized, orders, answers, n - 1); }
  }

  /** Exactly the tried children are submitted, each with its own quantity and answer. */
  lemma {:induction false} SubmittedExactlyWhenTried(ctx: GateContext, sized: nat, orders: seq<OrderPolicy.ChildOrder>,
                                                     answers: seq<Answer>, n: nat)
    requires n <= |orders|
    ensures forall order :: order in SubmitsOf(ctx, sized, orders, answers, n) <==>
      && order.child < n && Tried(answers, order.child)
      && order == Sent(ctx, sized, |orders|, order.child, orders[order.child].qty, AnswerAt(answers, order.child))
  {
    if n > 0 {
      SubmittedExactlyWhenTried(ctx, sized, orders, answers, n - 1);
      DoneExactlyWhen(ctx, sized, orders, answers, n - 1);
    }
  }

  /** One child on: what the first `n` carry, and whether each was tried. */
  lemma OneChildOn(orders: seq<OrderPolicy.ChildOrder>, answers: seq<Answer>, n: nat)
    requires 1 <= n <= |orders|
    ensures var qs := OrderPolicy.Quantities(orders);
      OrderPolicy.Total(qs[..n]) == OrderPolicy.Total(qs[..n - 1]) + orders[n - 1].qty
    ensures AllTried(answers, n) <==> AllTried(answers, n - 1) && Tried(answers, n - 1)
  {
    var qs := OrderPolicy.Quantities(orders);
    assert qs[..n][..n - 1] == qs[..n - 1];
  }

  /** The children submitted carry part of the first `n`, and all of it exactly when each was tried. */
  lemma {:induction false} SubmitsCarryAtMost(ctx: GateContext, sized: nat, orders: seq<OrderPolicy.ChildOrder>,
                                              answers: seq<Answer>, n: nat)
    requires n <= |orders| && forall i :: 0 <= i < |orders| ==> orders[i].qty >= 1
    ensures var whole := OrderPolicy.Total(OrderPolicy.Quantities(orders)[..n]);
      && 0 <= Quantity(SubmitsOf(ctx, sized, orders, answers, n)) <= whole
      && (Quantity(SubmitsOf(ctx, sized, orders, answers, n)) == whole <==> AllTried(answers, n))
  {
    if n > 0 {
      var earlier := SubmitsOf(ctx, sized, orders, answers, n - 1);
      SubmitsCarryAtMost(ctx, sized, orders, answers, n - 1);
      DoneExactlyWhen(ctx, sized, orders, answers, n - 1);
      assert Tried(answers, n - 1) <==> !Done(earlier) && AnswerAt(answers, n - 1) != Denied;
      OneChildOn(orders, answers, n);
      QuantityNext(earlier, Sent(ctx, sized, |orders|, n - 1, orders[n - 1].qty, AnswerAt(answers, n - 1)));
    }
  }

  /** Everything a candidate submits, however it is answered. */
  lemma SentIsWholeExactlyWhen(rnd: real -> int, cfg: EngineConfig, ctx: GateContext, answers: seq<Answer>)
    requires Evaluate(rnd, cfg, ctx, answers) != []
    ensures SizedQty(cfg, ctx).Some? && PlanFor(rnd, cfg, ctx, SizedQty(cfg, ctx).value).Planned?
    ensures var sent, sized := Evaluate(rnd, cfg, ctx, answers), SizedQty(cfg, ctx).value;
      var children := |PlanFor(rnd, cfg, ctx, sized).orders|;
      && OneCandidate(ctx, sent) && 0 <= Quantity(sent) <= sized
      && (Quantity(sent) == sized <==> AllTried(answers, children))
  {
    var sized := SizedQty(cfg, ctx).value;
    var plan := PlanFor(rnd, cfg, ctx, sized);
    PlanCarries(rnd, cfg, ctx, sized);
    SubmitsAreOneCandidate(ctx, sized, plan.orders, answers, |plan.orders|);
    SubmitsCarryAtMost(ctx, sized, plan.orders, answers, |plan.orders|);
  }

  /** A plan's children are non-empty and carry the quantity, whatever the rounding. */
  lemma PlanCarries(rnd: real -> int, cfg: EngineConfig, ctx: GateContext, sized: nat)
    ensures var plan := PlanFor(rnd, cfg, ctx, sized);
      plan.Planned? ==>
        && |plan.orders| >= 1 && (forall i :: 0 <= i < |plan.orders| ==> plan.orders[i].qty >= 1)
        && OrderPolicy.Total(OrderPolicy.Quantities(plan.orders)[..|plan.orders|]) == sized
  {
    var plan, adv := PlanFor(rnd, cfg, ctx, sized), SubmitMarket(ctx).advShares;
    if plan.Planned? {
      OrderPolicy.ChildrenCarryTheOrder(sized, adv);
      var qs := OrderPolicy.Quantities(plan.orders);
      assert qs == OrderPolicy.ChildSizes(sized, OrderPolicy.SliceCount(sized, adv));
      assert qs[..|plan.orders|] == qs;
    }
  }

  /** One candidate's submits together, live or not, fit every numeric cap of the gate and the heat cap. */
  lemma CandidateFitsTogether(rnd: real -> int, cfg: EngineConfig, ctx: GateContext, answers: seq<Answer>)
    ensures WithinCaps(cfg, ctx, Evaluate(rnd, cfg, ctx, answers))
  {
    var sent := Evaluate(rnd, cfg, ctx, answers);
    if sent != [] && EngineRequest(ctx) && IsRung(ctx.ladder) {
      SizedHasShape(ctx, CapsFor(cfg, ctx));
      SizedQtyCarries(cfg, ctx);
      SentIsWholeExactlyWhen(rnd, cfg, ctx, answers);
      FewerFit(cfg, ctx, Quantity(sent) as real, SizedQty(cfg, ctx).value as real, EffectiveRisk(ctx));
    }
  }

  /** For the engine's requests, on the ladder's own states: the shares of `sent` fit as one order. */
  predicate WithinCaps(cfg: EngineConfig, ctx: GateContext, sent: seq<Sent>) {
    sent != [] && EngineRequest(ctx) && IsRung(ctx.ladder) ==>
      FitsEveryCap(ctx, Quantity(sent) as real) && HeatHolds(cfg, ctx, Quantity(sent) as real)
  }

  lemma FewerFit(cfg: EngineConfig, ctx: GateContext, few: real, many: real, risk: real)
    requires EngineShape(ctx) && IsRung(ctx.ladder) && Granted(ctx, risk) && Carries(ctx, many, risk)
    requires few <= many && HeatHolds(cfg, ctx, many)
    ensures FitsEveryCap(ctx, few) && HeatHolds(cfg, ctx, few)
  {
    CarriesFewer(ctx, few, many, risk);
    GrantedFitsEveryCap(ctx, risk, few);
    CarriesFewer(ctx, few, many, cfg.maxHeatPct - ctx.book.heatPct);
  }

  // ---- what every session keeps ----------------------------------------------------------------

  predicate IsAcked(order: Sent) {
    order.answer == Acked
  }

  /** The order is at the broker. */
  predicate IsLive(order: Sent) {
    Creates(order.answer)
  }

  /** The order is at the broker and the engine does not know. */
  predicate IsLost(order: Sent) {
    order.answer == Unanswered(true)
  }

  /** A kind of order in one name. */
  function In(symbol: string, kind: Sent -> bool): Sent -> bool {
    (order: Sent) => order.ctx.request.symbol == symbol && kind(order)
  }

  function Count(kind: Sent -> bool, sent: seq<Sent>): nat {
    if sent == [] then 0 else Count(kind, sent[..|sent| - 1]) + if kind(sent[|sent| - 1]) then 1 else 0
  }

  lemma {:induction false} CountConcat(kind: Sent -> bool, a: seq<Sent>, b: seq<Sent>)
    ensures Count(kind, a + b) == Count(kind, a) + Count(kind, b)
  {
    if b == [] {
      assert a + b == a;
    } else {
      assert (a + b)[..|a + b| - 1] == a + b[..|b| - 1];
      CountConcat(kind, a, b[..|b| - 1]);
    }
  }

  /** Every live order was acknowledged or lost, in total and per name. */
  lemma {:induction false} LiveIsAckedOrLost(sent: seq<Sent>, symbol: string)
    ensures Count(IsLive, sent) == Count(IsAcked, sent) + Count(IsLost, sent)
    ensures Count(In(symbol, IsLive), sent) == Count(In(symbol, IsAcked), sent) + Count(In(symbol, IsLost), sent)
  {
    if sent != [] { LiveIsAckedOrLost(sent[..|sent| - 1], symbol); }
  }

  /** What the sessions below need of a handler: it submits for one candidate at a time. */
  ghost predicate Records(eval: Handler) {
    forall ctx, answers :: OneCandidate(ctx, eval(ctx, answers))
  }

  lemma {:induction false} NoneAcked(kind: Sent -> bool, sent: seq<Sent>)
    requires forall i :: 0 <= i < |sent| ==> !kind(sent[i])
    ensures Count(kind, sent) == 0
  {
    if sent != [] { NoneAcked(kind, sent[..|sent| - 1]); }
  }

  /** One candidate counts once, and exactly when it was acknowledged. */
  lemma AckedOfCandidate(ctx: GateContext, sent: seq<Sent>, symbol: string)
    requires OneCandidate(ctx, sent)
    ensures Count(IsAcked, sent) == if Done(sent) then 1 else 0
    ensures Count(In(symbol, IsAcked), sent) == if Done(sent) && ctx.request.symbol == symbol then 1 else 0
  {
    if sent != [] {
      NoneAcked(IsAcked, sent[..|sent| - 1]);
      NoneAcked(In(symbol, IsAcked), sent[..|sent| - 1]);
    }
  }

  /** The engine's counters move with the acknowledged orders, in total and per name. */
  lemma {:induction false} CountersAreAcks(eval: Handler, book: BookState, start: map<string, nat>,
                                           cands: seq<Candidate>, symbol: string)
    requires Records(eval)
    ensures var s := RunOver(eval, book, start, cands);
      && Total(s.trades) == Total(start) + Count(IsAcked, s.sent)
      && CountOf(s.trades, symbol) == CountOf(start, symbol) + Count(In(symbol, IsAcked), s.sent)
    decreases cands
  {
    if cands != [] {
      var before, c := RunOver(eval, book, start, cands[..|cands| - 1]), cands[|cands| - 1];
      var sent := Submitted(eval, book, before.trades, c);
      CountersAreAcks(eval, book, start, cands[..|cands| - 1], symbol);
      AckedOfCandidate(c.ctx.(book := WithTrades(book, before.trades)), sent, symbol);
      CountConcat(IsAcked, before.sent, sent);
      CountConcat(In(symbol, IsAcked), before.sent, sent);
      TotalCounted(before.trades, c.ctx.request.symbol);
    }
  }

  /**
   * What is live at the broker, against what the engine counts: its counters are short by exactly
   * the orders whose answers were lost, in total and per name.
   */
  lemma LiveIsCountedOrLost(rnd: real -> int, cfg: EngineConfig, book: BookState, start: map<string, nat>,
                            cands: seq<Candidate>, symbol: string)
    ensures var s := RunOver(Evaluator(rnd, cfg), book, start, cands);
      && Count(IsLive, s.sent) == Total(s.trades) - Total(start) + Count(IsLost, s.sent)
      && Count(In(symbol, IsLive), s.sent)
         == CountOf(s.trades, symbol) - CountOf(start, symbol) + Count(In(symbol, IsLost), s.sent)
  {
    EvaluatorIsGated(rnd, cfg);
    CountersAreAcks(Evaluator(rnd, cfg), book, start, cands, symbol);
    LiveIsAckedOrLost(RunOver(Evaluator(rnd, cfg), book, start, cands).sent, symbol);
  }

  /** What candidate `i` of a run submits, and the context it is gated in. */
  ghost function ContextOf(eval: Handler, book: BookState, start: map<string, nat>, cands: seq<Candidate>,
                           i: nat): GateContext
    requires i < |cands|
  {
    cands[i].ctx.(book := WithTrades(book, RunOver(eval, book, start, cands[..i]).trades))
  }

  ghost function SubmitsAt(eval: Handler, book: BookState, start: map<string, nat>, cands: seq<Candidate>,
                           i: nat): seq<Sent>
    requires i < |cands|
  {
    eval(ContextOf(eval, book, start, cands, i), cands[i].answers)
  }

  /** Every candidate of every session: its submits together fit every cap in the context they were gated in. */
  lemma SessionOrdersFit(rnd: real -> int, cfg: EngineConfig, book: BookState, start: map<string, nat>,
                         cands: seq<Candidate>, i: nat)
    requires i < |cands|
    ensures var eval := Evaluator(rnd, cfg);
      && RunOver(eval, book, start, cands[..i + 1]).sent
         == RunOver(eval, book, start, cands[..i]).sent + SubmitsAt(eval, book, start, cands, i)
      && WithinCaps(cfg, ContextOf(eval, book, start, cands, i), SubmitsAt(eval, book, start, cands, i))
  {
    var eval := Evaluator(rnd, cfg);
    assert cands[..i + 1][..i] == cands[..i];
    CandidateFitsTogether(rnd, cfg, ContextOf(eval, book, start, cands, i), cands[i].answers);
  }

  // ---- the daily cap and the cap per name --------------------------------------------------------

  predicate IntradayOnly(cands: seq<Candidate>) {
    forall i :: 0 <= i < |cands| ==> cands[i].ctx.request.sleeve == Intraday
  }

  /** A submit under a daily cap was admitted below it. */
  ghost predicate AdmitsUnderDailyCap(eval: Handler) {
    forall ctx, answers :: eval(ctx, answers) != [] && ctx.mandate.maxDailyTrades > 0 ==>
      SleeveTrades(ctx) < ctx.mandate.maxDailyTrades
  }

  /** The name cap reduced this order, so the trade count behind it was never asked. */
  predicate NameReduced(ctx: GateContext) {
    ReducesOn(Concentration, ctx)
  }

  predicate NameCapped(ctx: GateContext) {
    ctx.stage == OrderStage && ctx.request.sleeve == Intraday && ctx.config.intradayMaxTradesPerName > 0
  }

  /** A submit the name cap did not reduce was admitted below the per-name count. */
  ghost predicate AdmitsUnderNameCap(eval: Handler) {
    forall ctx, answers :: eval(ctx, answers) != [] && NameCapped(ctx) ==>
      NameReduced(ctx) || ctx.book.TradesFor(ctx.request.symbol) < ctx.config.intradayMaxTradesPerName
  }

  lemma UnblockedDaily(ctx: GateContext)
    requires !BlocksOn(MandateCheck, ctx) && ctx.mandate.maxDailyTrades > 0
    ensures SleeveTrades(ctx) < ctx.mandate.maxDailyTrades
  {
  }

  lemma UnblockedName(ctx: GateContext)
    requires !BlocksOn(Concentration, ctx) && NameCapped(ctx) && !NameReduced(ctx)
    ensures ctx.book.TradesFor(ctx.request.symbol) < ctx.config.intradayMaxTradesPerName
  {
  }

  lemma EvaluatedWasAllowed(rnd: real -> int, cfg: EngineConfig, ctx: GateContext, answers: seq<Answer>)
    ensures Evaluate(rnd, cfg, ctx, answers) != [] ==> Decide(ctx).Allowed()
  {
  }

  /** What a handler keeps, as the sessions below use it. */
  ghost predicate Gated(eval: Handler) {
    Records(eval) && AdmitsUnderDailyCap(eval) && AdmitsUnderNameCap(eval)
  }

  /**
   * The engine is such a handler: it submits for one candidate at a time, and the gate tests the daily
   * cap before anything it may reduce, and the name's trades unless it reduced.
   */
  lemma EvaluatorIsGated(rnd: real -> int, cfg: EngineConfig)
    ensures Gated(Evaluator(rnd, cfg))
  {
    var eval := Evaluator(rnd, cfg);
    forall ctx, answers ensures OneCandidate(ctx, eval(ctx, answers)) {
      if Evaluate(rnd, cfg, ctx, answers) != [] { SentIsWholeExactlyWhen(rnd, cfg, ctx, answers); }
    }
    forall ctx, answers | eval(ctx, answers) != [] && ctx.mandate.maxDailyTrades > 0
      ensures SleeveTrades(ctx) < ctx.mandate.maxDailyTrades
    {
      EvaluatedWasAllowed(rnd, cfg, ctx, answers);
      NothingBlocks(ctx, MandateCheck);
      UnblockedDaily(ctx);
    }
    forall ctx, answers | eval(ctx, answers) != [] && NameCapped(ctx) && !NameReduced(ctx)
      ensures ctx.book.TradesFor(ctx.request.symbol) < ctx.config.intradayMaxTradesPerName
    {
      EvaluatedWasAllowed(rnd, cfg, ctx, answers);
      NothingBlocks(ctx, Concentration);
      UnblockedName(ctx);
    }
  }

  predicate SameDailyCap(cands: seq<Candidate>, cap: int) {
    forall i :: 0 <= i < |cands| ==> cands[i].ctx.mandate.maxDailyTrades == cap
  }

  /**
   * The orders acknowledged to a gated handler, over all its runs of the day, never exceed the
   * mandate's daily cap.
   */
  lemma {:induction false} SessionKeepsDailyCap(eval: Handler, book: BookState, start: map<string, nat>,
                                                cands: seq<Candidate>, cap: int)
    requires Gated(eval) && cap > 0 && IntradayOnly(cands) && SameDailyCap(cands, cap)
    ensures Count(IsAcked, RunOver(eval, book, start, cands).sent) <= IMax(0, cap - Total(start))
    decreases cands
  {
    if cands != [] {
      var before, c := RunOver(eval, book, start, cands[..|cands| - 1]), cands[|cands| - 1];
      var sent := Submitted(eval, book, before.trades, c);
      SessionKeepsDailyCap(eval, book, start, cands[..|cands| - 1], cap);
      CountersAreAcks(eval, book, start, cands[..|cands| - 1], "");
      AckedOfCandidate(c.ctx.(book := WithTrades(book, before.trades)), sent, "");
      CountConcat(IsAcked, before.sent, sent);
      SleeveCountSeen(c.ctx.(book := WithTrades(book, before.trades)), book, before.trades);
    }
  }

  /** The per-name cap at one submit: the broker's trades, earlier runs and the acknowledged ones so far. */
  predicate NameBound(book: BookState, start: map<string, nat>, cap: int, sent: seq<Sent>, order: Sent) {
    var symbol := order.ctx.request.symbol;
    NameReduced(order.ctx) || book.TradesFor(symbol) + CountOf(start, symbol) + Count(In(symbol, IsAcked), sent) < cap
  }

  /**
   * Trades per name: every submit of a candidate the name cap did not reduce, however it is
   * answered, was made below the per-name cap, earlier trades and earlier acknowledgements counted in.
   */
  lemma SessionKeepsNameCap(rnd: real -> int, cfg: EngineConfig, book: BookState, start: map<string, nat>,
                            cands: seq<Candidate>, i: nat)
    requires i < |cands| && NameCapped(cands[i].ctx)
    ensures var eval := Evaluator(rnd, cfg);
      forall order :: order in SubmitsAt(eval, book, start, cands, i) ==>
        NameBound(book, start, cands[i].ctx.config.intradayMaxTradesPerName,
                  RunOver(eval, book, start, cands[..i]).sent, order)
  {
    var eval := Evaluator(rnd, cfg);
    var ctx, sent := ContextOf(eval, book, start, cands, i), SubmitsAt(eval, book, start, cands, i);
    EvaluatorIsGated(rnd, cfg);
    assert OneCandidate(ctx, sent);
    CountersAreAcks(eval, book, start, cands[..i], ctx.request.symbol);
    MergedCount(book, RunOver(eval, book, start, cands[..i]).trades, ctx.request.symbol);
  }

  lemma MergedCount(book: BookState, trades: map<string, nat>, symbol: string)
    ensures WithTrades(book, trades).TradesFor(symbol) == book.TradesFor(symbol) + CountOf(trades, symbol)
  {
  }

  /** What the daily cap is compared with: the broker's count is used only while nothing was traded. */
  lemma SleeveCountSeen(ctx: GateContext, book: BookState, trades: map<string, nat>)
    requires ctx.book == WithTrades(book, trades) && ctx.request.sleeve == Intraday
    ensures SleeveTrades(ctx) == (if trades == map[] && book.tradesToday == map[] && Intraday in book.sleeveTradesToday
                                  then book.sleeveTradesToday[Intraday] else Total(trades))
  {
  }
}
