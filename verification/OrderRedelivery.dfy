/**
 * A broker stream redelivers messages. This module proves that the order state machine counts
 * each execution once all the same, and says exactly when it would not.
 */
module OrderRedelivery {
  import opened Prelude
  import opened OrderState

  /** The part of the state a redelivery must not touch: executions, statuses, filled quantities. */
  predicate SameCore(v: View, w: View) {
    && v.states.Keys == w.states.Keys && v.fills == w.fills
    && forall c :: c in v.states ==>
         v.states[c].status == w.states[c].status && v.states[c].filledQty == w.states[c].filledQty
  }

  /** The core evolves on its own: averages, ids and timestamps never feed back into it. */
  lemma StepRespectsCore(v: View, w: View, e: Event)
    requires SameCore(v, w)
    ensures SameCore(Step(v, e), Step(w, e))
  {
    if NamesOrder(e) {
      var o := e.order.value;
      JudgeRespectsCore(Get(v.states, o.cid), Get(w.states, o.cid), e, o);
    }
  }

  predicate SameBase(p: Option<State>, q: Option<State>) {
    && (p.Some? <==> q.Some?)
    && (p.Some? ==> p.value.status == q.value.status && p.value.filledQty == q.value.filledQty)
  }

  lemma JudgeRespectsCore(p: Option<State>, q: Option<State>, e: Event, o: OrderBody)
    requires SameBase(p, q)
    ensures var a, b := Judge(p, e, o), Judge(q, e, o);
            && (a.Applies? <==> b.Applies?)
            && (a.Applies? ==> a.fill == b.fill && a.state.cid == b.state.cid
                               && a.state.status == b.state.status && a.state.filledQty == b.state.filledQty)
  {
  }

  /** The same broker message, whenever it arrives. */
  predicate SameMessage(d: Event, e: Event) {
    d == e.(receivedAt := d.receivedAt)
  }

  predicate CarriesCumulative(e: Event) {
    e.IsFill() ==> e.order.Some? && e.order.value.filledQty.Value?
  }

  /** The state already accounts for everything `e` could say. */
  predicate Absorbed(v: View, e: Event) {
    && NamesOrder(e) && CarriesCumulative(e)
    && var o := e.order.value;
       && o.cid in v.states
       && TargetStatus(e, o).Some?
       && (v.states[o.cid].status == TargetStatus(e, o).value
           || Rank(TargetStatus(e, o).value) < Rank(v.states[o.cid].status))
       && (o.filledQty.Value? ==> o.filledQty.v <= v.states[o.cid].filledQty)
  }

  lemma AppliedIsAbsorbed(v: View, e: Event)
    requires JudgeIn(v, e).Applies? && CarriesCumulative(e)
    ensures Absorbed(Step(v, e), e)
  {
  }

  lemma AbsorbedStays(v: View, d: Event, e: Event)
    requires Absorbed(v, e)
    ensures Absorbed(Step(v, d), e)
  {
    StepMonotone(v, d, e.order.value.cid);
  }

  /** An absorbed message changes no execution, no status and no filled quantity. */
  lemma AbsorbedIsInert(v: View, d: Event, e: Event)
    requires Absorbed(v, e) && SameMessage(d, e)
    ensures SameCore(Step(v, d), v)
  {
    var o := e.order.value;
    LegalIsRankOrder(v.states[o.cid].status, TargetStatus(e, o).value);
  }

  lemma {:induction false} AppliedStaysAbsorbed(es: seq<Event>, i: nat)
    requires i < |es| && JudgeIn(Run(es[..i]), es[i]).Applies? && CarriesCumulative(es[i])
    ensures Absorbed(Run(es), es[i])
  {
    var rest := es[..|es| - 1];
    if i == |rest| {
      AppliedIsAbsorbed(Run(rest), es[i]);
    } else {
      assert rest[..i] == es[..i];
      AppliedStaysAbsorbed(rest, i);
      AbsorbedStays(Run(rest), es[|es| - 1], es[i]);
    }
  }

  /** A delivered message: new, or a redelivery. */
  datatype Delivery = First(e: Event) | Again(e: Event)

  function Messages(ds: seq<Delivery>): seq<Event> {
    seq(|ds|, i requires 0 <= i < |ds| => ds[i].e)
  }

  /** The stream without its redeliveries. */
  function Originals(ds: seq<Delivery>): seq<Event> {
    if ds == [] then []
    else
      var rest := Originals(ds[..|ds| - 1]);
      if ds[|ds| - 1].First? then rest + [ds[|ds| - 1].e] else rest
  }

  /** Delivery `k` repeats delivery `i`, which was applied; a repeated fill carries the running total. */
  ghost predicate Repeats(ds: seq<Delivery>, i: nat, k: nat)
    requires i < k < |ds|
  {
    && SameMessage(ds[k].e, ds[i].e)
    && CarriesCumulative(ds[i].e)
    && JudgeIn(Run(Messages(ds[..i])), ds[i].e).Applies?
  }

  ghost predicate Redelivers(ds: seq<Delivery>) {
    forall k: nat :: k < |ds| && ds[k].Again? ==> exists i: nat :: i < k && Repeats(ds, i, k)
  }

  lemma RedeliversPrefix(ds: seq<Delivery>)
    requires ds != [] && Redelivers(ds)
    ensures Redelivers(ds[..|ds| - 1])
  {
    var rest := ds[..|ds| - 1];
    forall k: nat | k < |rest| && rest[k].Again? ensures exists i: nat :: i < k && Repeats(rest, i, k) {
      assert ds[k].Again?;
      var i: nat :| i < k && Repeats(ds, i, k);
      assert rest[..i] == ds[..i];
      assert Repeats(rest, i, k);
    }
  }

  lemma MessagesSplit(ds: seq<Delivery>)
    requires ds != []
    ensures Messages(ds) == Messages(ds[..|ds| - 1]) + [ds[|ds| - 1].e]
    ensures Run(Messages(ds)) == Step(Run(Messages(ds[..|ds| - 1])), ds[|ds| - 1].e)
  {
    var ms := Messages(ds[..|ds| - 1]);
    assert Messages(ds)[..|ms|] == ms;
  }

  lemma RepeatIsInert(ds: seq<Delivery>, i: nat)
    requires ds != [] && i < |ds| - 1 && Repeats(ds, i, |ds| - 1)
    ensures SameCore(Run(Messages(ds)), Run(Messages(ds[..|ds| - 1])))
  {
    var ms := Messages(ds[..|ds| - 1]);
    MessagesSplit(ds);
    assert ms[..i] == Messages(ds[..i]);
    AppliedStaysAbsorbed(ms, i);
    AbsorbedIsInert(Run(ms), ds[|ds| - 1].e, ds[i].e);
  }

  /**
   * Exactly-once counting: redeliveries, any number of them and at any later positions, leave the
   * executions, every status and every filled quantity as the original stream alone would.
   */
  lemma {:induction false} RedeliveriesCountOnce(ds: seq<Delivery>)
    requires Redelivers(ds)
    ensures SameCore(Run(Messages(ds)), Run(Originals(ds)))
  {
    if ds != [] {
      var rest, last := ds[..|ds| - 1], ds[|ds| - 1];
      MessagesSplit(ds);
      RedeliversPrefix(ds);
      RedeliveriesCountOnce(rest);
      if last.First? {
        var os := Originals(rest);
        assert Originals(ds)[..|os|] == os;
        StepRespectsCore(Run(Messages(rest)), Run(os), last.e);
      } else {
        var i: nat :| i < |ds| - 1 && Repeats(ds, i, |ds| - 1);
        RepeatIsInert(ds, i);
      }
    }
  }

  /**
   * Without the running total the promise has an exact limit. A fill that was applied once arrives
   * again, at any later state of its order: it changes nothing exactly when its status is no longer
   * legal there, or counting it again would overfill the order. Otherwise it is counted again.
   */
  lemma RedeliveredBareFillExactlyWhen(v: View, e: Event, w: View, again: Event)
    requires JudgeIn(v, e).Applies? && e.IsFill() && e.order.value.filledQty.Absent?
    requires SameMessage(again, e) && e.order.value.cid in w.states
    ensures e.qty.Value? && TargetStatus(e, e.order.value).Some?
    ensures var o := e.order.value;
      SameCore(Step(w, again), w) <==>
        TargetStatus(e, o).value !in Legal(w.states[o.cid].status) || FilledOf(w, o.cid) + e.qty.v > o.qty.v
    ensures !SameCore(Step(w, again), w) ==>
      |Step(w, again).fills| == |w.fills| + 1 && Step(w, again).fills[|w.fills|].qty == e.qty.v
      && FilledOf(Step(w, again), e.order.value.cid) == FilledOf(w, e.order.value.cid) + e.qty.v
  {
  }

  /** Right behind itself the status is still legal, so only an overfill stops the second count. */
  lemma RepeatedBareFillExactlyWhen(v: View, e: Event)
    requires JudgeIn(v, e).Applies? && e.IsFill() && e.order.value.filledQty.Absent?
    ensures e.qty.Value?
    ensures SameCore(Step(Step(v, e), e), Step(v, e)) <==>
      FilledOf(Step(v, e), e.order.value.cid) + e.qty.v > e.order.value.qty.v
    ensures !SameCore(Step(Step(v, e), e), Step(v, e)) ==>
      Step(Step(v, e), e).fills == Step(v, e).fills + [JudgeIn(v, e).fill.value]
  {
    RedeliveredBareFillExactlyWhen(v, e, Step(v, e), e);
  }

  const TEN_SHARES := OrderBody("c", None, "AAPL", "buy", Value(10), Absent, Absent, HasStatus(PartiallyFilled), None)
  const FIVE_FILLED := Event(true, Some(TEN_SHARES), Named(EvPartialFill), None, Value(5), Value(1.0), None, "t")
  const CANCELED :=
    Event(true, Some(TEN_SHARES.(status := HasStatus(Canceled))), Named(EvCanceled), None, Absent, Absent, None, "t")

  lemma FiveFilled()
    ensures JudgeIn(EMPTY, FIVE_FILLED).Applies? && Run([FIVE_FILLED]) == Step(EMPTY, FIVE_FILLED)
    ensures "c" in Run([FIVE_FILLED]).states && Run([FIVE_FILLED]).states["c"].filledQty == 5
  {
    assert [FIVE_FILLED][..0] == [];
    assert Run([]) == EMPTY;
  }

  lemma ThenCanceled()
    ensures var w := Run([FIVE_FILLED, CANCELED]);
      "c" in w.states && w.states["c"].filledQty == 5 && w.states["c"].status == Canceled
  {
    FiveFilled();
    assert [FIVE_FILLED, CANCELED][..1] == [FIVE_FILLED];
    assert Run([FIVE_FILLED, CANCELED]) == Step(Run([FIVE_FILLED]), CANCELED);
  }

  /** Five of ten shares, canceled, and the five again: nothing would overfill, and nothing is counted. */
  lemma BareFillAfterCancelIsInert()
    ensures var w := Run([FIVE_FILLED, CANCELED]);
      SameCore(Run([FIVE_FILLED, CANCELED, FIVE_FILLED]), w) && FilledOf(w, "c") == 5
  {
    FiveFilled();
    ThenCanceled();
    assert [FIVE_FILLED, CANCELED, FIVE_FILLED][..2] == [FIVE_FILLED, CANCELED];
    RedeliveredBareFillExactlyWhen(EMPTY, FIVE_FILLED, Run([FIVE_FILLED, CANCELED]), FIVE_FILLED);
  }

  /** The limit is real: five of ten shares, filled once, delivered twice, counted as ten. */
  lemma BareFillCountedTwice()
    ensures Run([FIVE_FILLED]).states["c"].filledQty == 5 && Run([FIVE_FILLED, FIVE_FILLED]).states["c"].filledQty == 10
  {
    FiveFilled();
    assert [FIVE_FILLED, FIVE_FILLED][..1] == [FIVE_FILLED];
    assert Run([FIVE_FILLED, FIVE_FILLED]) == Step(Run([FIVE_FILLED]), FIVE_FILLED);
  }
}
