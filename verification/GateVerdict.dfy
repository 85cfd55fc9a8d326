/** What a verdict of the house gate means, check by check. */
module GateVerdict {
  import opened Prelude
  import opened RiskState
  import opened Ladder
  import opened Gate

  predicate BlocksOn(c: Check, ctx: GateContext) {
    Outcome(c, ctx).Some? && Outcome(c, ctx).value.kind == Block
  }

  predicate ReducesOn(c: Check, ctx: GateContext) {
    Outcome(c, ctx).Some? && Outcome(c, ctx).value.kind == Reduce
  }

  lemma {:induction false} CollectMembers(names: seq<Check>, out: Check -> Option<Failure>)
    ensures forall f :: f in Collect(names, out) <==> exists c :: c in names && out(c) == Some(f)
  {
    if names != [] {
      var rest, last := names[..|names| - 1], names[|names| - 1];
      CollectMembers(rest, out);
      assert names == rest + [last];
      forall f ensures f in Collect(names, out) <==> exists c :: c in names && out(c) == Some(f) {
        if f in Collect(names, out) {
          if f in Collect(rest, out) {
            var c :| c in rest && out(c) == Some(f);
            assert c in names;
          } else {
            assert last in names && out(last) == Some(f);
          }
        }
      }
    }
  }

  lemma {:induction false} OfKindMembers(fs: seq<Failure>, k: Kind)
    ensures forall f :: f in OfKind(fs, k) <==> f in fs && f.kind == k
  {
    if fs != [] {
      var rest := fs[..|fs| - 1];
      OfKindMembers(rest, k);
      assert fs == rest + [fs[|fs| - 1]];
    }
  }

  /** The merge is the greatest lower bound of the risks that are present, and it is attained. */
  lemma {:induction false} MinAdjustedIsMinimum(fs: seq<Failure>)
    ensures MinAdjusted(fs).None? <==> forall f :: f in fs ==> f.adjusted.None?
    ensures MinAdjusted(fs).Some? ==>
      && (forall f :: f in fs && f.adjusted.Some? ==> MinAdjusted(fs).value <= f.adjusted.value)
      && exists f :: f in fs && f.adjusted == MinAdjusted(fs)
  {
    if fs != [] {
      var rest, last := fs[..|fs| - 1], fs[|fs| - 1];
      MinAdjustedIsMinimum(rest);
      assert fs == rest + [last];
    }
  }

  /** A reduction always names a risk. */
  lemma ReduceCarriesRisk(c: Check, ctx: GateContext)
    requires ReducesOn(c, ctx)
    ensures Outcome(c, ctx).value.adjusted.Some?
  {
    if c == DataCheck && c !in ctx.faults { InvalidationKinds(ctx, ctx.liveInvalidations); }
  }

  lemma {:induction false} InvalidationKinds(ctx: GateContext, invs: seq<Invalidation>)
    ensures var o := InvalidationFailure(ctx, invs);
            && (o.Some? ==> o.value.check == DataCheck)
            && (o.Some? && o.value.kind == Reduce ==>
                  ctx.stage == SignalStage && o.value.adjusted == Some(ctx.request.requestedRiskPct))
  {
    if invs != [] { InvalidationKinds(ctx, invs[1..]); }
  }

  predicate HasKind(o: Option<Failure>, k: Kind) {
    o.Some? && o.value.kind == k
  }

  /** The failures of one kind are exactly what the checks of that kind returned. */
  lemma KindMembers(out: Check -> Option<Failure>, k: Kind)
    ensures var fs := OfKind(Collect(PRECEDENCE, out), k);
      && (forall c: Check :: HasKind(out(c), k) ==> out(c).value in fs)
      && (forall f :: f in fs ==> exists c: Check :: out(c) == Some(f) && HasKind(out(c), k))
  {
    PrecedenceDistinct();
    CollectMembers(PRECEDENCE, out);
    OfKindMembers(Collect(PRECEDENCE, out), k);
    forall c: Check | HasKind(out(c), k) ensures out(c).value in Collect(PRECEDENCE, out) {
      assert c in PRECEDENCE;
    }
  }

  /** The verdict over any table of outcomes in which a reduction carries its risk. */
  lemma TableMeaning(out: Check -> Option<Failure>)
    requires forall c: Check :: HasKind(out(c), Reduce) ==> out(c).value.adjusted.Some?
    ensures var d := DecideFrom(Collect(PRECEDENCE, out));
      && (d.verdict == BLOCK <==> exists c: Check :: HasKind(out(c), Block))
      && (d.verdict == ALLOW <==> forall c: Check :: out(c).None?)
      && (d.adjusted.Some? <==> d.verdict == REDUCE)
      && (d.verdict == REDUCE ==>
            && (forall c: Check :: HasKind(out(c), Reduce) ==> d.adjusted.value <= out(c).value.adjusted.value)
            && exists c: Check :: HasKind(out(c), Reduce) && out(c).value.adjusted == d.adjusted)
  {
    KindMembers(out, Block);
    KindMembers(out, Reduce);
    var blocks, reduces := OfKind(Collect(PRECEDENCE, out), Block), OfKind(Collect(PRECEDENCE, out), Reduce);
    MinAdjustedIsMinimum(reduces);
    if blocks != [] {
      var c: Check :| out(c) == Some(blocks[0]) && HasKind(out(c), Block);
    } else if reduces != [] {
      var f :| f in reduces && f.adjusted == MinAdjusted(reduces);
      var c: Check :| out(c) == Some(f) && HasKind(out(c), Reduce);
    } else {
      forall c: Check ensures out(c).None? {
        assert !HasKind(out(c), Block) && !HasKind(out(c), Reduce);
      }
    }
  }

  /**
   * The verdict, independently of the loop that computes it: BLOCK exactly when some check
   * blocks, ALLOW exactly when every check passes, and a REDUCE carries the smallest risk any
   * reducing check asked for.
   */
  lemma VerdictMeaning(ctx: GateContext)
    ensures Decide(ctx).verdict == BLOCK <==> exists c: Check :: BlocksOn(c, ctx)
    ensures Decide(ctx).verdict == ALLOW <==> forall c: Check :: Outcome(c, ctx).None?
    ensures Decide(ctx).adjusted.Some? <==> Decide(ctx).verdict == REDUCE
    ensures Decide(ctx).verdict == REDUCE ==>
      && (forall c: Check :: ReducesOn(c, ctx) ==>
            Outcome(c, ctx).value.adjusted.Some?
            && Decide(ctx).adjusted.value <= Outcome(c, ctx).value.adjusted.value)
      && exists c: Check :: ReducesOn(c, ctx) && Outcome(c, ctx).value.adjusted == Decide(ctx).adjusted
  {
    var out := Outcomes(ctx);
    forall c: Check | HasKind(out(c), Reduce) ensures out(c).value.adjusted.Some? {
      assert ReducesOn(c, ctx);
      ReduceCarriesRisk(c, ctx);
    }
    TableMeaning(out);
    assert forall c: Check :: out(c) == Outcome(c, ctx);
    assert forall c: Check :: BlocksOn(c, ctx) <==> HasKind(out(c), Block);
    assert forall c: Check :: ReducesOn(c, ctx) <==> HasKind(out(c), Reduce);
  }

  /** Behind an allowed order no check blocks. */
  lemma NothingBlocks(ctx: GateContext, c: Check)
    requires Decide(ctx).Allowed()
    ensures !BlocksOn(c, ctx)
  {
    VerdictMeaning(ctx);
  }

  /** Fail closed: a check that raises blocks the order, whatever every other check says. */
  lemma RaisingCheckBlocks(ctx: GateContext, c: Check)
    requires c in ctx.faults && c != HaltCheck
    ensures Decide(ctx).verdict == BLOCK && !Decide(ctx).Allowed()
  {
    VerdictMeaning(ctx);
    assert BlocksOn(c, ctx);
  }

  /** `Collect` keeps precedence order, so the first of a kind is the earliest check of that kind. */
  lemma {:induction false} FirstOfKind(names: seq<Check>, out: Check -> Option<Failure>, k: Kind, n: nat)
    requires n < |names| && HasKind(out(names[n]), k)
    requires forall i :: 0 <= i < n ==> !HasKind(out(names[i]), k)
    ensures OfKind(Collect(names, out), k) != []
    ensures OfKind(Collect(names, out), k)[0] == out(names[n]).value
  {
    var rest, last := names[..|names| - 1], names[|names| - 1];
    var c := Collect(rest, out);
    if out(last).Some? {
      assert (c + [out(last).value])[..|c|] == c;
    }
    if n < |rest| {
      FirstOfKind(rest, out, k, n);
    } else {
      NoneOfKind(rest, out, k);
    }
  }

  lemma {:induction false} NoneOfKind(names: seq<Check>, out: Check -> Option<Failure>, k: Kind)
    requires forall i :: 0 <= i < |names| ==> !HasKind(out(names[i]), k)
    ensures OfKind(Collect(names, out), k) == []
  {
    if names != [] {
      var rest := names[..|names| - 1];
      NoneOfKind(rest, out, k);
      var c, o := Collect(rest, out), out(names[|names| - 1]);
      if o.Some? {
        assert (c + [o.value])[..|c|] == c;
      }
    }
  }

  /** A refusal is never vague: the binding code is that of the first blocking check in precedence. */
  lemma BindingIsFirstBlock(ctx: GateContext, n: nat)
    requires n < |PRECEDENCE| && BlocksOn(PRECEDENCE[n], ctx)
    requires forall i :: 0 <= i < n ==> !BlocksOn(PRECEDENCE[i], ctx)
    ensures var d, f := Decide(ctx), Outcome(PRECEDENCE[n], ctx).value;
            d.verdict == BLOCK && d.binding == Some(f.check) && d.code == f.code
  {
    FirstOfKind(PRECEDENCE, Outcomes(ctx), Block, n);
  }

  /** Without a block the decision is named after the first check that reduces. */
  lemma BindingIsFirstReduce(ctx: GateContext, n: nat)
    requires Decide(ctx).verdict != BLOCK && n < |PRECEDENCE| && ReducesOn(PRECEDENCE[n], ctx)
    requires forall i :: 0 <= i < n ==> !ReducesOn(PRECEDENCE[i], ctx)
    ensures var d, f := Decide(ctx), Outcome(PRECEDENCE[n], ctx).value;
            d.binding == Some(f.check) && d.code == f.code
  {
    FirstOfKind(PRECEDENCE, Outcomes(ctx), Reduce, n);
  }

  lemma {:induction false} CollectKeepsOrder(names: seq<Check>, out: Check -> Option<Failure>, n: nat)
    requires n < |names| && out(names[n]).Some?
    ensures var before := |Collect(names[..n], out)|;
      before < |Collect(names, out)| && Collect(names, out)[before] == out(names[n]).value
  {
    var rest := names[..|names| - 1];
    if n < |rest| {
      CollectKeepsOrder(rest, out, n);
      assert rest[..n] == names[..n];
    }
  }

  lemma TableMembers(out: Check -> Option<Failure>)
    ensures forall f :: f in Collect(PRECEDENCE, out) <==> exists c: Check :: out(c) == Some(f)
  {
    PrecedenceDistinct();
    CollectMembers(PRECEDENCE, out);
  }

  /** The decision lists what every check had to say and nothing else. */
  lemma FailuresAreTheOutcomes(ctx: GateContext)
    ensures forall f :: f in Decide(ctx).failures <==> exists c: Check :: Outcome(c, ctx) == Some(f)
  {
    var out := Outcomes(ctx);
    TableMembers(out);
    assert forall c: Check :: out(c) == Outcome(c, ctx);
  }

  /** It lists them in precedence: a check's failure stands right behind those of the earlier checks. */
  lemma FailuresInPrecedence(ctx: GateContext, n: nat)
    requires n < |PRECEDENCE| && Outcome(PRECEDENCE[n], ctx).Some?
    ensures var earlier := |Collect(PRECEDENCE[..n], Outcomes(ctx))|;
      earlier < |Decide(ctx).failures| && Decide(ctx).failures[earlier] == Outcome(PRECEDENCE[n], ctx).value
  {
    CollectKeepsOrder(PRECEDENCE, Outcomes(ctx), n);
  }

  /** A pass names no check, and lists none. */
  lemma PassNamesNothing(ctx: GateContext)
    ensures var d := Decide(ctx);
      d.verdict == ALLOW <==> d.binding.None? && d.code == "ok" && d.failures == []
  {
    VerdictMeaning(ctx);
    FailuresAreTheOutcomes(ctx);
    assert forall i :: 0 <= i < |Decide(ctx).failures| ==> Decide(ctx).failures[i] in Decide(ctx).failures;
  }

  const BOOK_CHECKS: set<Check> := {
    MandateCheck, SleeveCapital, HouseDrawdown, HouseCvar, CorrelationStress, VolRegime, Concentration, Liquidity}

  lemma BookChecksAskNobody(c: Check, ctx: GateContext)
    requires c in BOOK_CHECKS && RunCheck(c, ctx).Some?
    ensures RunCheck(c, ctx).value.check != Approval
  {
  }

  lemma VenueChecksAskNobody(c: Check, ctx: GateContext)
    requires c !in BOOK_CHECKS && c != Approval && RunCheck(c, ctx).Some?
    ensures RunCheck(c, ctx).value.check != Approval
  {
    if c == DataCheck { InvalidationKinds(ctx, ctx.liveInvalidations); }
  }

  /** Only the approval check files a failure in the name of approval. */
  lemma ApprovalIsItsOwn(c: Check, ctx: GateContext)
    requires Outcome(c, ctx).Some?
    ensures Outcome(c, ctx).value.check == Approval <==> c == Approval
  {
    if c !in ctx.faults {
      if c in BOOK_CHECKS {
        BookChecksAskNobody(c, ctx);
      } else if c != Approval {
        VenueChecksAskNobody(c, ctx);
      } else {
        ApprovalRaised(ctx);
      }
    }
  }

  /**
   * The operator is asked exactly when some check files an approval failure, which is when the
   * approval check raises or the order reaches the threshold in a mode that asks.
   */
  lemma ApprovalRequiredExactlyWhen(ctx: GateContext)
    ensures Decide(ctx).approvalRequired
       <==> exists c: Check :: Outcome(c, ctx).Some? && Outcome(c, ctx).value.check == Approval
    ensures Decide(ctx).approvalRequired <==> Approval in ctx.faults || NeedsApproval(ctx)
  {
    FailuresAreTheOutcomes(ctx);
    ApprovalRaised(ctx);
    if c: Check :| Outcome(c, ctx).Some? && Outcome(c, ctx).value.check == Approval {
      ApprovalIsItsOwn(c, ctx);
      assert Outcome(c, ctx).value in Decide(ctx).failures;
    }
    if f :| f in Decide(ctx).failures && f.check == Approval {
      var c: Check :| Outcome(c, ctx) == Some(f);
      ApprovalIsItsOwn(c, ctx);
    }
  }

  lemma ApprovalRaised(ctx: GateContext)
    ensures Outcome(Approval, ctx).Some? <==> Approval in ctx.faults || NeedsApproval(ctx)
    ensures Outcome(Approval, ctx).Some? ==> Outcome(Approval, ctx).value.check == Approval
  {
  }

  /** The mandate asks for an operator, and the order reaches the share of its cap that needs one. */
  predicate NeedsApproval(ctx: GateContext) {
    ctx.mandate.approvalMode != OtherMode
    && ProjectedNotional(ctx.request) >= ctx.mandate.maxNotionalPerOrderUsd * ctx.config.approvalThresholdFactor
  }

  /**
   * At order stage eight checks can shrink an order. The module text names five; the code also
   * reduces on the mandate's exposure and order caps, on the ladder and on approval.
   */
  lemma OrderStageReducers(ctx: GateContext, c: Check)
    requires ctx.stage == OrderStage && ReducesOn(c, ctx)
    ensures c in {MandateCheck, SleeveCapital, HouseDrawdown, HouseCvar, VolRegime,
                  Concentration, Liquidity, Approval}
  {
    if c == DataCheck { InvalidationKinds(ctx, ctx.liveInvalidations); }
  }

  /** What the engine asks: an order on the book's own equity, with no planned notional. */
  predicate EngineRequest(ctx: GateContext) {
    ctx.stage == OrderStage && ctx.request.plannedNotionalUsd.None? && ctx.request.equity == ctx.book.equity
  }

  /** Such a request with a price, a stop, equity and risk. */
  predicate EngineShape(ctx: GateContext) {
    && EngineRequest(ctx)
    && ctx.request.equity > 0.0 && ctx.request.price > 0.0
    && ctx.request.stopDistance > 0.0 && ctx.request.requestedRiskPct > 0.0
  }

  /** The notional a request stands for: what was planned, and never less than nothing. */
  lemma PlannedProjectionIs(req: RiskRequest)
    requires req.plannedNotionalUsd.Some?
    ensures ProjectedNotional(req) == if req.plannedNotionalUsd.value < 0.0 then 0.0 else req.plannedNotionalUsd.value
  {
  }

  /** Without a plan it is so many shares at the price that their stop loss is the requested part of equity. */
  lemma UnplannedProjectionIs(req: RiskRequest, shares: real)
    requires req.plannedNotionalUsd.None? && req.stopDistance > 0.0 && req.price > 0.0
    requires shares * req.stopDistance == req.equity * req.requestedRiskPct
    ensures ProjectedNotional(req) == shares * req.price
  {
    SharesAtPrice(req.equity * req.requestedRiskPct, req.stopDistance, req.price, shares);
  }

  lemma NoStopNoProjection(req: RiskRequest)
    requires req.plannedNotionalUsd.None? && (req.stopDistance <= 0.0 || req.price == 0.0)
    ensures ProjectedNotional(req) == 0.0
  {
  }

  lemma SharesAtPrice(loss: real, stop: real, price: real, shares: real)
    requires stop > 0.0
    ensures shares * stop == loss ==> loss * price / stop == shares * price
  {
    if shares * stop == loss { assert (loss * price / stop - shares * price) * stop == 0.0; }
  }

  /** The notional a risk fraction projects to. */
  function ProjectedAt(req: RiskRequest, risk: real): real
    requires req.stopDistance > 0.0
  {
    req.equity * risk * req.price / req.stopDistance
  }

  lemma ProjectedLinear(req: RiskRequest, risk: real)
    requires req.stopDistance > 0.0 && req.price > 0.0 && req.equity > 0.0
    ensures Slope(req) > 0.0
    ensures ProjectedAt(req, risk) == risk * Slope(req)
  {
    var s := req.equity * req.price / req.stopDistance;
    DivLe(0.0, req.equity * req.price, req.stopDistance);
    assert s * req.stopDistance == req.equity * req.price;
    var p := req.equity * risk * req.price / req.stopDistance;
    assert p * req.stopDistance == req.equity * risk * req.price;
    assert (risk * s) * req.stopDistance == risk * (req.equity * req.price);
    assert risk * (req.equity * req.price) == req.equity * risk * req.price;
    assert (p - risk * s) * req.stopDistance == 0.0;
  }

  lemma ProjectedMono(req: RiskRequest, r: real, s: real)
    requires req.stopDistance > 0.0 && req.price > 0.0 && req.equity > 0.0 && r <= s
    ensures ProjectedAt(req, r) <= ProjectedAt(req, s)
  {
    ProjectedLinear(req, r);
    ProjectedLinear(req, s);
    MulMono(r, s, Slope(req));
  }

  /** `_risk_to_fit` is exact: it fits the room, never exceeds the request, and loses nothing. */
  lemma RiskToFitExact(req: RiskRequest, room: real)
    requires req.stopDistance > 0.0 && req.price > 0.0 && req.equity > 0.0
    requires req.requestedRiskPct > 0.0
    ensures 0.0 <= RiskToFit(req, room) <= req.requestedRiskPct
    ensures RiskToFit(req, room) > 0.0 <==> room > 0.0
    ensures room > 0.0 ==> ProjectedAt(req, RiskToFit(req, room)) <= room
    ensures room > 0.0 && ProjectedAt(req, req.requestedRiskPct) > room ==>
      ProjectedAt(req, RiskToFit(req, room)) == room
  {
    ProjectedLinear(req, req.requestedRiskPct);
    ProjectedLinear(req, RiskToFit(req, room));
    if room > 0.0 {
      DivLe(0.0, room, Slope(req));
      DivLe(req.requestedRiskPct, room, Slope(req));
      DivLe(RiskToFit(req, room), room, Slope(req));
    }
  }

  /** The risk the engine hands the sizer: `adjusted or requested`. */
  function EffectiveRisk(ctx: GateContext): real {
    var a := Decide(ctx).adjusted;
    if a.Some? && a.value != 0.0 then a.value else ctx.request.requestedRiskPct
  }

  /** The ladder's reduction, given a ladder state the ladder can produce. */
  lemma LadderReduction(ctx: GateContext)
    requires ctx.request.requestedRiskPct > 0.0 && IsRung(ctx.ladder)
    ensures var o := CheckHouseDrawdown(ctx);
            o.Some? && o.value.kind == Reduce ==>
              o.value.adjusted.Some? && 0.0 < o.value.adjusted.value <= ctx.request.requestedRiskPct
  {
  }

  lemma VolScaledBound(ctx: GateContext)
    requires ctx.request.requestedRiskPct > 0.0 && ctx.vol.scalar < 1.0
    ensures 0.0 <= VolScaledRisk(ctx) <= ctx.request.requestedRiskPct
  {
    ScaleByBound(ctx.request.requestedRiskPct, ctx.vol.scalar);
  }

  lemma VolReduction(ctx: GateContext)
    requires ctx.request.requestedRiskPct > 0.0
    ensures var o := CheckVolRegime(ctx);
            o.Some? && o.value.kind == Reduce ==>
              o.value.adjusted.Some? && 0.0 < o.value.adjusted.value <= ctx.request.requestedRiskPct
  {
    if ctx.vol.scalar < 1.0 {
      VolScaledBound(ctx);
    }
  }

  lemma RoomReductions(ctx: GateContext, c: Check)
    requires EngineShape(ctx) && ReducesOn(c, ctx)
    requires c in {MandateCheck, SleeveCapital, Concentration, Liquidity}
    ensures Outcome(c, ctx).value.adjusted.Some?
    ensures 0.0 < Outcome(c, ctx).value.adjusted.value <= ctx.request.requestedRiskPct
  {
    if c == MandateCheck {
      RiskToFitExact(ctx.request, ctx.mandate.maxTotalExposureUsd - Held(ctx));
    } else if c == SleeveCapital {
      RiskToFitExact(ctx.request, SleeveRoom(ctx));
    } else if c == Concentration {
      RiskToFitExact(ctx.request, NameCap(ctx) - ExistingInName(ctx));
    } else {
      RiskToFitExact(ctx.request, ParticipationRoom(ctx));
    }
  }

  /** Every reduction but the ladder's is positive and within the request, whatever the ladder. */
  lemma NonLadderReduction(ctx: GateContext, c: Check)
    requires EngineShape(ctx) && ReducesOn(c, ctx) && c != HouseDrawdown
    ensures Outcome(c, ctx).value.adjusted.Some?
    ensures 0.0 < Outcome(c, ctx).value.adjusted.value <= ctx.request.requestedRiskPct
  {
    OrderStageReducers(ctx, c);
    if c in {MandateCheck, SleeveCapital, Concentration, Liquidity} {
      RoomReductions(ctx, c);
    } else if c == VolRegime {
      VolReduction(ctx);
    }
  }

  /**
   * Every reducing check asks for a positive risk no larger than requested, given a ladder state
   * the ladder can produce.
   */
  lemma ReductionNeverWidens(ctx: GateContext, c: Check)
    requires EngineShape(ctx) && IsRung(ctx.ladder) && ReducesOn(c, ctx)
    ensures Outcome(c, ctx).value.adjusted.Some?
    ensures 0.0 < Outcome(c, ctx).value.adjusted.value <= ctx.request.requestedRiskPct
  {
    if c == HouseDrawdown {
      LadderReduction(ctx);
    } else {
      NonLadderReduction(ctx, c);
    }
  }

  /**
   * An allowed order is sized on a positive risk no larger than requested and no larger than any
   * reduction, so the engine's `or` fallback never widens.
   */
  lemma EffectiveRiskIsTightest(ctx: GateContext)
    requires EngineShape(ctx) && IsRung(ctx.ladder) && Decide(ctx).Allowed()
    ensures 0.0 < EffectiveRisk(ctx) <= ctx.request.requestedRiskPct
    ensures forall c: Check :: !BlocksOn(c, ctx)
    ensures forall c: Check :: ReducesOn(c, ctx) ==>
      Outcome(c, ctx).value.adjusted.Some?
      && EffectiveRisk(ctx) <= Outcome(c, ctx).value.adjusted.value
  {
    VerdictMeaning(ctx);
    forall c: Check | ReducesOn(c, ctx)
      ensures 0.0 < Outcome(c, ctx).value.adjusted.value <= ctx.request.requestedRiskPct
    {
      ReduceCarriesRisk(c, ctx);
      ReductionNeverWidens(ctx, c);
    }
    if Decide(ctx).verdict == ALLOW {
      assert forall c: Check :: !ReducesOn(c, ctx);
    }
  }

  /** Without a positive request no check offers a positive risk in its place. */
  lemma NoRequestNoReduction(ctx: GateContext, c: Check)
    requires EngineRequest(ctx) && IsRung(ctx.ladder) && ReducesOn(c, ctx) && ctx.request.requestedRiskPct <= 0.0
    ensures Outcome(c, ctx).value.adjusted.Some? && Outcome(c, ctx).value.adjusted.value <= 0.0
  {
    OrderStageReducers(ctx, c);
    if c == VolRegime { MulMono(ctx.request.requestedRiskPct, 0.0, RMax(0.0, ctx.vol.scalar)); }
  }

  lemma EffectiveRiskNeedsARequest(ctx: GateContext)
    requires EngineRequest(ctx) && IsRung(ctx.ladder) && Decide(ctx).Allowed() && EffectiveRisk(ctx) > 0.0
    ensures ctx.request.requestedRiskPct > 0.0
  {
    VerdictMeaning(ctx);
    if ctx.request.requestedRiskPct <= 0.0 && Decide(ctx).verdict == REDUCE {
      var c: Check :| ReducesOn(c, ctx) && Outcome(c, ctx).value.adjusted == Decide(ctx).adjusted;
      NoRequestNoReduction(ctx, c);
    }
  }
}
