/**
 * The exposure cap over a session. Every order is gated on the same positions, so exposure is tested
 * order by order; this module says what the orders of a session add up to all the same.
 */
module SessionExposure {
  import opened Prelude
  import opened RiskState
  import opened Ladder
  import opened Gate
  import opened GateVerdict
  import opened EndToEnd
  import opened SessionEngine
  import opened SessionCaps

  /** A candidate as the engine builds its context for this book and mandate. */
  predicate FromEngine(ctx: GateContext, book: BookState, m: Mandate) {
    && ctx.stage == OrderStage && ctx.request.sleeve == Intraday && ctx.request.equity == book.equity
    && ctx.request.plannedNotionalUsd.None? && ctx.positionsValueUsd.None? && IsRung(ctx.ladder) && ctx.mandate == m
  }

  predicate UnderMandate(cands: seq<Candidate>, book: BookState, m: Mandate) {
    forall i :: 0 <= i < |cands| ==> FromEngine(cands[i].ctx, book, m)
  }

  lemma UnderMandateIsIntraday(cands: seq<Candidate>, book: BookState, m: Mandate)
    requires UnderMandate(cands, book, m)
    ensures IntradayOnly(cands) && SameDailyCap(cands, m.maxDailyTrades)
  {
  }

  /** What the orders of a kind cost, at the prices they were sized on. */
  function Dollars(kind: Sent -> bool, sent: seq<Sent>): real {
    if sent == [] then 0.0
    else
      var order := sent[|sent| - 1];
      Dollars(kind, sent[..|sent| - 1]) + if kind(order) then NotionalOf(order.ctx, order.qty as real) else 0.0
  }

  lemma {:induction false} DollarsConcat(kind: Sent -> bool, a: seq<Sent>, b: seq<Sent>)
    ensures Dollars(kind, a + b) == Dollars(kind, a) + Dollars(kind, b)
  {
    if b == [] {
      assert a + b == a;
    } else {
      assert (a + b)[..|a + b| - 1] == a + b[..|b| - 1];
      DollarsConcat(kind, a, b[..|b| - 1]);
    }
  }

  function Room(book: BookState, m: Mandate): real {
    m.maxTotalExposureUsd - book.Notional()
  }

  lemma {:induction false} NoDollars(kind: Sent -> bool, sent: seq<Sent>)
    requires forall i :: 0 <= i < |sent| ==> !kind(sent[i])
    ensures Dollars(kind, sent) == 0.0
  {
    if sent != [] { NoDollars(kind, sent[..|sent| - 1]); }
  }

  lemma AddShares(ctx: GateContext, a: int, b: int)
    requires ctx.request.price > 0.0 && b >= 1
    ensures NotionalOf(ctx, (a + b) as real) == NotionalOf(ctx, a as real) + NotionalOf(ctx, b as real)
    ensures NotionalOf(ctx, b as real) >= ctx.request.price && NotionalOf(ctx, 0.0) == 0.0
  {
    MulMono(1.0, b as real, ctx.request.price);
  }

  /** The orders of one kind among a candidate's submits cost no more than all of them. */
  lemma {:induction false} DollarsOfSome(kind: Sent -> bool, ctx: GateContext, sent: seq<Sent>)
    requires ctx.request.price > 0.0 && forall i :: 0 <= i < |sent| ==> sent[i].ctx == ctx && sent[i].qty >= 1
    ensures Dollars(kind, sent) <= NotionalOf(ctx, Quantity(sent) as real)
  {
    AddShares(ctx, 0, 1);
    if sent != [] {
      var init, last := sent[..|sent| - 1], sent[|sent| - 1];
      DollarsOfSome(kind, ctx, init);
      AddShares(ctx, Quantity(init), last.qty);
    }
  }

  /** Whatever one candidate has at the broker, of any kind, fits the room the book leaves. */
  lemma CandidateFitsTheRoom(kind: Sent -> bool, rnd: real -> int, cfg: EngineConfig, book: BookState, m: Mandate,
                             trades: map<string, nat>, c: Candidate)
    requires FromEngine(c.ctx, book, m)
    ensures var sent := Submitted(Evaluator(rnd, cfg), book, trades, c);
      sent != [] ==> Dollars(kind, sent) <= Room(book, m)
  {
    var ctx := c.ctx.(book := WithTrades(book, trades));
    var sent := Submitted(Evaluator(rnd, cfg), book, trades, c);
    if sent != [] {
      EvaluatorEvaluates(rnd, cfg, ctx, c.answers);
      CandidateFitsTogether(rnd, cfg, ctx, c.answers);
      SentIsWholeExactlyWhen(rnd, cfg, ctx, c.answers);
      SizedHasShape(ctx, CapsFor(cfg, ctx));
      DollarsOfSome(kind, ctx, sent);
      assert Held(ctx) == book.Notional();
    }
  }

  /** One candidate's acknowledged orders: none, or one that fits the room. */
  predicate SpentOnce(sent: seq<Sent>, room: real) {
    || (Count(IsAcked, sent) == 0 && Dollars(IsAcked, sent) == 0.0)
    || (Count(IsAcked, sent) == 1 && Dollars(IsAcked, sent) <= room)
  }

  ghost predicate SpendsOnce(eval: Handler, book: BookState, m: Mandate) {
    forall trades, c: Candidate :: FromEngine(c.ctx, book, m) ==>
      SpentOnce(Submitted(eval, book, trades, c), Room(book, m))
  }

  lemma EvaluatorSpendsOnce(rnd: real -> int, cfg: EngineConfig, book: BookState, m: Mandate)
    ensures SpendsOnce(Evaluator(rnd, cfg), book, m)
  {
    EvaluatorIsGated(rnd, cfg);
    forall trades, c: Candidate | FromEngine(c.ctx, book, m)
      ensures SpentOnce(Submitted(Evaluator(rnd, cfg), book, trades, c), Room(book, m))
    {
      var sent := Submitted(Evaluator(rnd, cfg), book, trades, c);
      AckedOfCandidate(c.ctx.(book := WithTrades(book, trades)), sent, "");
      CandidateFitsTheRoom(IsAcked, rnd, cfg, book, m, trades, c);
      if !Done(sent) { NoDollars(IsAcked, sent); }
    }
  }

  lemma SpentOnceMore(before: seq<Sent>, sent: seq<Sent>, room: real)
    requires Dollars(IsAcked, before) <= Copies(Count(IsAcked, before), room) && SpentOnce(sent, room)
    ensures Dollars(IsAcked, before + sent) <= Copies(Count(IsAcked, before + sent), room)
  {
    CountConcat(IsAcked, before, sent);
    DollarsConcat(IsAcked, before, sent);
    CopiesNext(Count(IsAcked, before), room);
  }

  /** The acknowledged orders of a session spend the room of the book at most once each. */
  lemma {:induction false} AckedDollarsAreBounded(eval: Handler, book: BookState, m: Mandate, start: map<string, nat>,
                                                  cands: seq<Candidate>)
    requires SpendsOnce(eval, book, m) && UnderMandate(cands, book, m)
    ensures var sent := RunOver(eval, book, start, cands).sent;
      Dollars(IsAcked, sent) <= Copies(Count(IsAcked, sent), Room(book, m))
    decreases cands
  {
    CopiesNext(0, Room(book, m));
    if cands != [] {
      var init, c := cands[..|cands| - 1], cands[|cands| - 1];
      var before := RunOver(eval, book, start, init);
      AckedDollarsAreBounded(eval, book, m, start, init);
      SpentOnceMore(before.sent, Submitted(eval, book, before.trades, c), Room(book, m));
    }
  }

  /** With a daily cap that is a bound in dollars, whatever the candidates. */
  lemma DailyCapBoundsDollars(eval: Handler, book: BookState, m: Mandate, start: map<string, nat>,
                              cands: seq<Candidate>)
    requires Gated(eval) && SpendsOnce(eval, book, m) && UnderMandate(cands, book, m) && m.maxDailyTrades > 0
    ensures Dollars(IsAcked, RunOver(eval, book, start, cands).sent)
         <= Copies(IMax(0, m.maxDailyTrades - Total(start)), RMax(0.0, Room(book, m)))
  {
    var sent := RunOver(eval, book, start, cands).sent;
    UnderMandateIsIntraday(cands, book, m);
    SessionKeepsDailyCap(eval, book, start, cands, m.maxDailyTrades);
    AckedDollarsAreBounded(eval, book, m, start, cands);
    MoreRooms(Count(IsAcked, sent), IMax(0, m.maxDailyTrades - Total(start)), Room(book, m));
  }

  lemma MoreRooms(few: nat, many: nat, room: real)
    requires few <= many
    ensures Copies(few, room) <= Copies(many, RMax(0.0, room))
  {
    MulMono(room, RMax(0.0, room), few as real);
    MulMono(few as real, many as real, RMax(0.0, room));
  }

  /** Everything a session has at the broker spends that room at most once per candidate. */
  lemma {:induction false} LiveDollarsAreBounded(rnd: real -> int, cfg: EngineConfig, book: BookState, m: Mandate,
                                                 start: map<string, nat>, cands: seq<Candidate>)
    requires UnderMandate(cands, book, m)
    ensures Dollars(IsLive, RunOver(Evaluator(rnd, cfg), book, start, cands).sent)
         <= Copies(|cands|, RMax(0.0, Room(book, m)))
    decreases cands
  {
    CopiesNext(0, RMax(0.0, Room(book, m)));
    if cands != [] {
      var eval, init, c := Evaluator(rnd, cfg), cands[..|cands| - 1], cands[|cands| - 1];
      var before := RunOver(eval, book, start, init);
      LiveDollarsAreBounded(rnd, cfg, book, m, start, init);
      DollarsConcat(IsLive, before.sent, Submitted(eval, book, before.trades, c));
      CandidateFitsTheRoom(IsLive, rnd, cfg, book, m, before.trades, c);
      CopiesNext(|init|, RMax(0.0, Room(book, m)));
    }
  }

  /** Orders of at least a share each, at one price. */
  lemma {:induction false} DollarsAtLeast(kind: Sent -> bool, sent: seq<Sent>, price: real)
    requires price > 0.0
    requires forall i :: 0 <= i < |sent| ==> kind(sent[i]) && sent[i].qty >= 1 && sent[i].ctx.request.price == price
    ensures Dollars(kind, sent) >= Copies(|sent|, price)
  {
    CopiesNext(0, price);
    if sent != [] {
      DollarsAtLeast(kind, sent[..|sent| - 1], price);
      CopiesNext(|sent| - 1, price);
      AddShares(sent[|sent| - 1].ctx, 0, sent[|sent| - 1].qty);
    }
  }

  /** The witness: its price is the whole room its mandate leaves. */
  lemma WitnessAsksForTheRoom(cfg: EngineConfig, book: BookState, cap: int, a: Answer)
    requires CanTrade(cfg, book)
    ensures var c := WitnessCandidate(cfg, book, cap, 0, a);
      && FromEngine(c.ctx, book, c.ctx.mandate) && c.ctx.mandate.maxDailyTrades == cap
      && 0.0 < Room(book, c.ctx.mandate) == c.ctx.request.price
  {
    StakeIsSmall(cfg, book);
    assert Room(book, WitnessCandidate(cfg, book, cap, 0, a).ctx.mandate) == FiguresFor(cfg, book).stake;
  }

  /** Copies that all go out at that price cost at least the room once each. */
  lemma CopiesSpendTheRoom(kind: Sent -> bool, s: Progress, book: BookState, c: Candidate, a: Answer, n: nat)
    requires AllSubmitted(s, c, a, n) && 0.0 < Room(book, c.ctx.mandate) == c.ctx.request.price
    requires forall order: Sent :: order.answer == a ==> kind(order)
    ensures Count(kind, s.sent) == n && Dollars(kind, s.sent) >= Copies(n, Room(book, c.ctx.mandate))
  {
    AllCounted(kind, s.sent);
    DollarsAtLeast(kind, s.sent, c.ctx.request.price);
  }

  /** The bound is tight: a session whose acknowledged orders spend the room once each. */
  lemma AckedDollarsBoundIsMet(rnd: real -> int, cfg: EngineConfig, book: BookState, cap: int, n: nat)
    requires CanTrade(cfg, book) && !UsedUp(book, cap) && (cap > 0 ==> n <= cap)
    ensures var c := WitnessCandidate(cfg, book, cap, 0, Acked);
      var sent := RunOver(Evaluator(rnd, cfg), book, map[], Repeat(c, n)).sent;
      && Count(IsAcked, sent) == n && Room(book, c.ctx.mandate) > 0.0
      && Dollars(IsAcked, sent) == Copies(n, Room(book, c.ctx.mandate))
  {
    var eval, c := Evaluator(rnd, cfg), WitnessCandidate(cfg, book, cap, 0, Acked);
    NothingCounted();
    WitnessAsksForTheRoom(cfg, book, cap, Acked);
    CopiesAreSubmitted(rnd, cfg, book, cap, 0, Acked, n);
    CopiesSpendTheRoom(IsAcked, RunOver(eval, book, map[], Repeat(c, n)), book, c, Acked, n);
    EvaluatorSpendsOnce(rnd, cfg, book, c.ctx.mandate);
    AckedDollarsAreBounded(eval, book, c.ctx.mandate, map[], Repeat(c, n));
  }

  /** Held and ordered together stay within the exposure cap, where held alone does. */
  ghost predicate KeepsExposure(kind: Sent -> bool, eval: Handler, book: BookState, m: Mandate, cands: seq<Candidate>) {
    book.Notional() + Dollars(kind, RunOver(eval, book, map[], cands).sent)
    <= RMax(book.Notional(), m.maxTotalExposureUsd)
  }

  ghost predicate EverySessionKeepsExposure(kind: Sent -> bool, eval: Handler, book: BookState, cap: int) {
    forall m: Mandate, cands :: m.maxDailyTrades == cap && UnderMandate(cands, book, m) ==>
      KeepsExposure(kind, eval, book, m, cands)
  }

  /** The failing session: two orders of a kind, each inside the exposure cap, exceed it together. */
  lemma TwoOrdersExceedTheCap(kind: Sent -> bool, rnd: real -> int, cfg: EngineConfig, book: BookState, cap: int,
                              a: Answer)
    requires CanTrade(cfg, book) && a != Denied && !UsedUp(book, cap) && (a == Acked ==> cap != 1)
    requires forall order: Sent :: order.answer == a ==> kind(order)
    ensures var c := WitnessCandidate(cfg, book, cap, 0, a);
      var sent := RunOver(Evaluator(rnd, cfg), book, map[], Repeat(c, 2)).sent;
      && UnderMandate(Repeat(c, 2), book, c.ctx.mandate) && c.ctx.mandate.maxDailyTrades == cap
      && book.Notional() < c.ctx.mandate.maxTotalExposureUsd
      && Count(kind, sent) == 2 && book.Notional() + Dollars(kind, sent) > c.ctx.mandate.maxTotalExposureUsd
  {
    var c := WitnessCandidate(cfg, book, cap, 0, a);
    NothingCounted();
    WitnessAsksForTheRoom(cfg, book, cap, a);
    CopiesAreSubmitted(rnd, cfg, book, cap, 0, a, 2);
    CopiesSpendTheRoom(kind, RunOver(Evaluator(rnd, cfg), book, map[], Repeat(c, 2)), book, c, a, 2);
    CopiesNext(1, Room(book, c.ctx.mandate));
    CopiesNext(0, Room(book, c.ctx.mandate));
  }

  lemma TwoBreakExposure(kind: Sent -> bool, eval: Handler, book: BookState, m: Mandate, cands: seq<Candidate>)
    requires UnderMandate(cands, book, m) && book.Notional() < m.maxTotalExposureUsd
    requires book.Notional() + Dollars(kind, RunOver(eval, book, map[], cands).sent) > m.maxTotalExposureUsd
    ensures !EverySessionKeepsExposure(kind, eval, book, m.maxDailyTrades)
  {
    assert !KeepsExposure(kind, eval, book, m, cands);
  }

  lemma UsedUpKeepsExposure(kind: Sent -> bool, eval: Handler, book: BookState, m: Mandate, cands: seq<Candidate>)
    requires Gated(eval) && UnderMandate(cands, book, m) && UsedUp(book, m.maxDailyTrades)
    ensures KeepsExposure(kind, eval, book, m, cands)
  {
    UnderMandateIsIntraday(cands, book, m);
    UsedUpSendsNothing(eval, book, cands, m.maxDailyTrades);
  }

  lemma OneRoomAtMost(count: nat, dollars: real, held: real, cap: real)
    requires count <= 1 && dollars <= Copies(count, cap - held)
    ensures held + dollars <= RMax(held, cap)
  {
    CopiesNext(0, cap - held);
  }

  lemma OneOrderKeepsExposure(eval: Handler, book: BookState, m: Mandate, cands: seq<Candidate>)
    requires Gated(eval) && SpendsOnce(eval, book, m)
    requires UnderMandate(cands, book, m) && m.maxDailyTrades == 1
    ensures KeepsExposure(IsAcked, eval, book, m, cands)
  {
    var sent := RunOver(eval, book, map[], cands).sent;
    NothingCounted();
    UnderMandateIsIntraday(cands, book, m);
    SessionKeepsDailyCap(eval, book, map[], cands, 1);
    AckedDollarsAreBounded(eval, book, m, map[], cands);
    OneRoomAtMost(Count(IsAcked, sent), Dollars(IsAcked, sent), book.Notional(), m.maxTotalExposureUsd);
  }

  /**
   * Every order is gated on the same positions. What a session has acknowledged keeps the exposure
   * cap together with the book, in every session, exactly when the mandate allows one trade a day or
   * the day is used up.
   */
  lemma ExposureHoldsExactlyWhen(rnd: real -> int, cfg: EngineConfig, book: BookState, cap: int)
    requires CanTrade(cfg, book)
    ensures EverySessionKeepsExposure(IsAcked, Evaluator(rnd, cfg), book, cap) <==> cap == 1 || UsedUp(book, cap)
  {
    var eval, c := Evaluator(rnd, cfg), WitnessCandidate(cfg, book, cap, 0, Acked);
    EvaluatorIsGated(rnd, cfg);
    if cap == 1 || UsedUp(book, cap) {
      forall m: Mandate, cands | m.maxDailyTrades == cap && UnderMandate(cands, book, m)
        ensures KeepsExposure(IsAcked, eval, book, m, cands)
      {
        EvaluatorSpendsOnce(rnd, cfg, book, m);
        if UsedUp(book, cap) {
          UsedUpKeepsExposure(IsAcked, eval, book, m, cands);
        } else {
          OneOrderKeepsExposure(eval, book, m, cands);
        }
      }
    } else {
      TwoOrdersExceedTheCap(IsAcked, rnd, cfg, book, cap, Acked);
      TwoBreakExposure(IsAcked, eval, book, c.ctx.mandate, Repeat(c, 2));
    }
  }

  /** Of the orders live at the broker: exactly when the day is used up. */
  lemma LiveExposureHoldsExactlyWhen(rnd: real -> int, cfg: EngineConfig, book: BookState, cap: int)
    requires CanTrade(cfg, book)
    ensures EverySessionKeepsExposure(IsLive, Evaluator(rnd, cfg), book, cap) <==> UsedUp(book, cap)
  {
    var eval, c := Evaluator(rnd, cfg), WitnessCandidate(cfg, book, cap, 0, Unanswered(true));
    EvaluatorIsGated(rnd, cfg);
    if UsedUp(book, cap) {
      forall m: Mandate, cands | m.maxDailyTrades == cap && UnderMandate(cands, book, m)
        ensures KeepsExposure(IsLive, eval, book, m, cands)
      {
        UsedUpKeepsExposure(IsLive, eval, book, m, cands);
      }
    } else {
      TwoOrdersExceedTheCap(IsLive, rnd, cfg, book, cap, Unanswered(true));
      TwoBreakExposure(IsLive, eval, book, c.ctx.mandate, Repeat(c, 2));
    }
  }
}
