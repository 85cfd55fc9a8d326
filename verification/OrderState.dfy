/**
 * The order state machine over broker trade updates (signald/order/state.py).
 *
 * `OrderStateManager.Apply` is the imperative event handler; `Step` is what one event does to the
 * manager's state, and the lemmas below are about runs of `Step`.
 */
module OrderState {
  import opened Prelude

  datatype Status =
    | New | Accepted | PartiallyFilled | Filled | Canceled | Rejected | Expired | Replaced | DoneForDay

  predicate Terminal(s: Status) {
    s !in {New, Accepted, PartiallyFilled}
  }

  /** LEGAL_TRANSITIONS. */
  function Legal(from: Status): set<Status> {
    match from
    case New => {New, Accepted, PartiallyFilled, Filled, Canceled, Rejected, Expired, Replaced, DoneForDay}
    case Accepted => {Accepted, PartiallyFilled, Filled, Canceled, Rejected, Expired, Replaced, DoneForDay}
    case PartiallyFilled => {PartiallyFilled, Filled, Canceled, Expired, Replaced, DoneForDay}
    case _ => {from}
  }

  datatype EventName =
    | EvNew | EvAccepted | EvPartialFill | EvFill | EvCanceled | EvRejected | EvExpired | EvReplaced | EvDoneForDay

  function EventStatus(n: EventName): Status {
    match n
    case EvNew => New
    case EvAccepted => Accepted
    case EvPartialFill => PartiallyFilled
    case EvFill => Filled
    case EvCanceled => Canceled
    case EvRejected => Rejected
    case EvExpired => Expired
    case EvReplaced => Replaced
    case EvDoneForDay => DoneForDay
  }

  /** A broker field after coercion: missing or empty, not of its declared type, or a value. */
  datatype Field<T> = Absent | Malformed | Value(v: T)

  datatype NameField = NoName | UnknownName | Named(name: EventName)

  datatype StatusField = NoStatus | UnknownStatus | HasStatus(status: Status)

  /** The order body of an event; an empty text is a missing or mistyped one. */
  datatype OrderBody = OrderBody(
    cid: string, orderId: Option<string>, symbol: string, side: string,
    qty: Field<int>, filledQty: Field<int>, filledAvg: Field<real>,
    status: StatusField, rejectReason: Option<string>)

  /** `order` is `None` when the event is not an object or carries no order object. */
  datatype Event = Event(
    isObject: bool, order: Option<OrderBody>, name: NameField, timestamp: Option<string>,
    qty: Field<int>, price: Field<real>, reason: Option<string>, receivedAt: string)
  {
    predicate IsFill() {
      name == Named(EvPartialFill) || name == Named(EvFill)
    }

    function At(): string {
      timestamp.GetOr(receivedAt)
    }
  }

  datatype State = State(
    cid: string, orderId: Option<string>, symbol: string, side: string,
    qty: int, filledQty: int, avg: Option<real>, status: Status, updatedAt: string, reason: Option<string>)

  datatype Fill = Fill(
    cid: string, orderId: Option<string>, symbol: string, side: string, qty: int, price: real, at: string)

  datatype Code =
    | MalformedEvent | MissingOrder | MissingClientOrderId | UnknownEvent | MissingStatus | UnknownStatusText
    | MissingSymbol | MissingSide | BadQty | BadFilledQty | BadFilledAvg | MissingQty | IllegalTransition
    | BadFillQty | BadFillPrice | MissingFillQty | MissingFillPrice | NonPositiveFillQty
    | FilledQtyRegressed | FilledQtyMismatch | UnexpectedFilledQty | FilledQtyExceedsQty

  datatype Anomaly = Anomaly(code: Code, event: Event)

  /** What one event amounts to, given the order's previous state. */
  datatype Judgement = Rejects(code: Code) | Applies(state: State, fill: Option<Fill>)

  datatype FillResult = BadFill(code: Code) | GoodFill(fill: Fill, filled: int, avg: Option<real>)

  function OptValue<T>(f: Field<T>): Option<T> {
    if f.Value? then Some(f.v) else None
  }

  /** `_apply_fill`: the execution and the advanced quantity and average. */
  function ApplyFill(e: Event, o: OrderBody, baseFilled: int, baseAvg: Option<real>,
                     brokerFilled: Option<int>, brokerAvg: Option<real>): FillResult
  {
    if e.qty.Malformed? then BadFill(BadFillQty)
    else if e.price.Malformed? then BadFill(BadFillPrice)
    else if e.qty.Absent? && brokerFilled.None? then BadFill(MissingFillQty)
    else
      var fillQty := if e.qty.Value? then e.qty.v else brokerFilled.value - baseFilled;
      if e.price.Absent? && brokerAvg.None? then BadFill(MissingFillPrice)
      else
        var price := if e.price.Value? then e.price.v else brokerAvg.value;
        if fillQty <= 0 then BadFill(NonPositiveFillQty)
        else if brokerFilled.Some? && brokerFilled.value < baseFilled then BadFill(FilledQtyRegressed)
        else if brokerFilled.Some? && brokerFilled.value != baseFilled + fillQty then BadFill(FilledQtyMismatch)
        else
          var newFilled := baseFilled + fillQty;
          var newAvg :=
            if brokerAvg.Some? then brokerAvg.value
            else if baseAvg.None? || baseFilled == 0 || newFilled == 0 then price
            else (baseFilled as real * baseAvg.value + fillQty as real * price) / newFilled as real;
          GoodFill(Fill(o.cid, o.orderId, o.symbol, o.side, fillQty, price, e.At()), newFilled, Some(newAvg))
  }

  /** The status an event carries: the order body's, else the event name's. */
  function TargetStatus(e: Event, o: OrderBody): Option<Status> {
    match o.status
    case HasStatus(s) => Some(s)
    case UnknownStatus => None
    case NoStatus => if e.name.Named? then Some(EventStatus(e.name.name)) else None
  }

  /** The verdict on an event whose order body names an order. */
  function Judge(prev: Option<State>, e: Event, o: OrderBody): Judgement {
    if e.name.UnknownName? then Rejects(UnknownEvent)
    else if o.status.UnknownStatus? then Rejects(UnknownStatusText)
    else if TargetStatus(e, o).None? then Rejects(MissingStatus)
    else
      var target := TargetStatus(e, o).value;
      if o.symbol == "" then Rejects(MissingSymbol)
      else if o.side == "" then Rejects(MissingSide)
      else if o.qty.Malformed? then Rejects(BadQty)
      else if o.filledQty.Malformed? then Rejects(BadFilledQty)
      else if o.filledAvg.Malformed? then Rejects(BadFilledAvg)
      else if o.qty.Absent? then Rejects(MissingQty)
      else if prev.Some? && target != prev.value.status && target !in Legal(prev.value.status) then
        Rejects(IllegalTransition)
      else
        var baseFilled := if prev.Some? then prev.value.filledQty else 0;
        var baseAvg := if prev.Some? then prev.value.avg else None;
        var brokerFilled, brokerAvg := OptValue(o.filledQty), OptValue(o.filledAvg);
        var reason := if o.rejectReason.Some? then o.rejectReason else e.reason;
        if e.IsFill() then
          match ApplyFill(e, o, baseFilled, baseAvg, brokerFilled, brokerAvg)
          case BadFill(code) => Rejects(code)
          case GoodFill(fill, filled, avg) =>
            if filled > o.qty.v then Rejects(FilledQtyExceedsQty)
            else Applies(State(o.cid, o.orderId, o.symbol, o.side, o.qty.v, filled, avg, target, e.At(), reason),
                         Some(fill))
        else if brokerFilled.Some? && brokerFilled.value < baseFilled then Rejects(FilledQtyRegressed)
        else if brokerFilled.Some? && prev.Some? && brokerFilled.value != baseFilled then
          Rejects(UnexpectedFilledQty)
        else
          var filled := brokerFilled.GetOr(baseFilled);
          if filled > o.qty.v then Rejects(FilledQtyExceedsQty)
          else Applies(State(o.cid, o.orderId, o.symbol, o.side, o.qty.v, filled,
                             if brokerAvg.Some? then brokerAvg else baseAvg, target, e.At(), reason), None)
  }

  /** The manager's whole state. */
  datatype View = View(states: map<string, State>, fills: seq<Fill>, anomalies: seq<Anomaly>)

  function Get(m: map<string, State>, cid: string): Option<State> {
    if cid in m then Some(m[cid]) else None
  }

  predicate NamesOrder(e: Event) {
    e.isObject && e.order.Some? && e.order.value.cid != ""
  }

  function JudgeIn(v: View, e: Event): Judgement {
    if !e.isObject then Rejects(MalformedEvent)
    else if e.order.None? then Rejects(MissingOrder)
    else if e.order.value.cid == "" then Rejects(MissingClientOrderId)
    else Judge(Get(v.states, e.order.value.cid), e, e.order.value)
  }

  function Step(v: View, e: Event): View {
    match JudgeIn(v, e)
    case Rejects(code) => v.(anomalies := v.anomalies + [Anomaly(code, e)])
    case Applies(state, fill) =>
      View(v.states[state.cid := state], if fill.Some? then v.fills + [fill.value] else v.fills, v.anomalies)
  }

  const EMPTY := View(map[], [], [])

  function Run(es: seq<Event>): View {
    if es == [] then EMPTY else Step(Run(es[..|es| - 1]), es[|es| - 1])
  }

  // ---- the imperative handler ------------------------------------------------------------------

  class OrderStateManager {
    var states: map<string, State>
    var fills: seq<Fill>
    var anomalies: seq<Anomaly>

    ghost function Now(): View
      reads this
    {
      View(states, fills, anomalies)
    }

    constructor ()
      ensures Now() == EMPTY
    {
      states, fills, anomalies := map[], [], [];
    }

    /** Record an unapplicable event; the state it would have touched is returned as it stands. */
    method Anomalous(code: Code, e: Event, cid: Option<string>) returns (r: Option<State>)
      modifies this`anomalies
      ensures anomalies == old(anomalies) + [Anomaly(code, e)]
      ensures r == if cid.Some? then Get(states, cid.value) else None
    {
      anomalies := anomalies + [Anomaly(code, e)];
      r := if cid.Some? then Get(states, cid.value) else None;
    }

    /** Apply one trade update. */
    method Apply(e: Event) returns (r: Option<State>)
      modifies this
      ensures Now() == Step(old(Now()), e)
      ensures r == if NamesOrder(e) then Get(states, e.order.value.cid) else None
    {
      if !e.isObject { r := Anomalous(MalformedEvent, e, None); return; }
      if e.order.None? { r := Anomalous(MissingOrder, e, None); return; }
      var o := e.order.value;
      var cid := o.cid;
      if cid == "" { r := Anomalous(MissingClientOrderId, e, None); return; }
      var prev := Get(states, cid);
      if e.name.UnknownName? { r := Anomalous(UnknownEvent, e, Some(cid)); return; }
      var target;
      match o.status {
        case HasStatus(s) => target := s;
        case UnknownStatus => r := Anomalous(UnknownStatusText, e, Some(cid)); return;
        case NoStatus =>
          if e.name.NoName? { r := Anomalous(MissingStatus, e, Some(cid)); return; }
          target := EventStatus(e.name.name);
      }
      if o.symbol == "" { r := Anomalous(MissingSymbol, e, Some(cid)); return; }
      if o.side == "" { r := Anomalous(MissingSide, e, Some(cid)); return; }
      if o.qty.Malformed? { r := Anomalous(BadQty, e, Some(cid)); return; }
      if o.filledQty.Malformed? { r := Anomalous(BadFilledQty, e, Some(cid)); return; }
      if o.filledAvg.Malformed? { r := Anomalous(BadFilledAvg, e, Some(cid)); return; }
      if o.qty.Absent? { r := Anomalous(MissingQty, e, Some(cid)); return; }
      if prev.Some? && target != prev.value.status && target !in Legal(prev.value.status) {
        r := Anomalous(IllegalTransition, e, Some(cid)); return;
      }
      var reason := if o.rejectReason.Some? then o.rejectReason else e.reason;
      var baseFilled := if prev.Some? then prev.value.filledQty else 0;
      var baseAvg := if prev.Some? then prev.value.avg else None;
      var brokerFilled, brokerAvg := OptValue(o.filledQty), OptValue(o.filledAvg);
      var fill: Option<Fill> := None;
      var newFilled := baseFilled;
      var newAvg := baseAvg;
      if e.IsFill() {
        var applied := ApplyFill(e, o, baseFilled, baseAvg, brokerFilled, brokerAvg);
        if applied.BadFill? { r := Anomalous(applied.code, e, Some(cid)); return; }
        fill, newFilled, newAvg := Some(applied.fill), applied.filled, applied.avg;
      } else {
        if brokerFilled.Some? {
          if brokerFilled.value < baseFilled { r := Anomalous(FilledQtyRegressed, e, Some(cid)); return; }
          if prev.Some? && brokerFilled.value != baseFilled {
            r := Anomalous(UnexpectedFilledQty, e, Some(cid)); return;
          }
          newFilled := brokerFilled.value;
        }
        if brokerAvg.Some? { newAvg := brokerAvg; }
      }
      if newFilled > o.qty.v { r := Anomalous(FilledQtyExceedsQty, e, Some(cid)); return; }
      var state := State(cid, o.orderId, o.symbol, o.side, o.qty.v, newFilled, newAvg, target, e.At(), reason);
      states := states[cid := state];
      if fill.Some? { fills := fills + [fill.value]; }
      r := Some(state);
    }
  }

  // ---- status --------------------------------------------------------------------------------

  function Rank(s: Status): nat {
    match s
    case New => 0
    case Accepted => 1
    case PartiallyFilled => 2
    case _ => 3
  }

  /** The table is the strict rank order plus self-loops, with one edge missing. */
  lemma LegalIsRankOrder(from: Status, to: Status)
    ensures to in Legal(from) <==>
      to == from || (Rank(from) < Rank(to) && !(from == PartiallyFilled && to == Rejected))
  {
  }

  /** One event moves an order's status strictly up the ranks or not at all, and never loses a fill. */
  lemma StepMonotone(v: View, e: Event, cid: string)
    requires cid in v.states
    ensures cid in Step(v, e).states
    ensures var a, b := v.states[cid], Step(v, e).states[cid];
            && (a.status == b.status || Rank(a.status) < Rank(b.status))
            && a.filledQty <= b.filledQty
  {
    if JudgeIn(v, e).Applies? && JudgeIn(v, e).state.cid == cid {
      LegalIsRankOrder(v.states[cid].status, JudgeIn(v, e).state.status);
    }
  }

  lemma {:induction false} RunMonotone(es: seq<Event>, n: nat, cid: string)
    requires n <= |es| && cid in Run(es[..n]).states
    ensures cid in Run(es).states
    ensures var a, b := Run(es[..n]).states[cid], Run(es).states[cid];
            && (a.status == b.status || Rank(a.status) < Rank(b.status))
            && a.filledQty <= b.filledQty
  {
    if n < |es| {
      var rest := es[..|es| - 1];
      assert rest[..n] == es[..n];
      RunMonotone(rest, n, cid);
      StepMonotone(Run(rest), es[|es| - 1], cid);
    } else {
      assert es[..n] == es;
    }
  }

  /** Terminal states absorb: whatever the broker sends later, a finished order keeps its status. */
  lemma {:induction false} TerminalAbsorbs(es: seq<Event>, n: nat, cid: string)
    requires n <= |es| && cid in Run(es[..n]).states && Terminal(Run(es[..n]).states[cid].status)
    ensures cid in Run(es).states && Run(es).states[cid].status == Run(es[..n]).states[cid].status
  {
    RunMonotone(es, n, cid);
  }

  /** How often an order's status changed after its creation. */
  function Changes(es: seq<Event>, cid: string): nat {
    if es == [] then 0
    else
      var rest := es[..|es| - 1];
      Changes(rest, cid) +
      if cid in Run(rest).states && cid in Run(es).states
         && Run(rest).states[cid].status != Run(es).states[cid].status then 1 else 0
  }

  /** Over any stream a status changes at most three times, since every change raises its rank. */
  lemma {:induction false} AtMostThreeChanges(es: seq<Event>, cid: string)
    ensures Changes(es, cid) <= 3
    ensures cid in Run(es).states ==> Changes(es, cid) <= Rank(Run(es).states[cid].status)
    ensures cid !in Run(es).states ==> Changes(es, cid) == 0
  {
    if es != [] {
      var rest := es[..|es| - 1];
      AtMostThreeChanges(rest, cid);
      if cid in Run(rest).states {
        StepMonotone(Run(rest), es[|es| - 1], cid);
      }
    }
  }

  // ---- what an event must say ----------------------------------------------------------------

  /** Readable, and complete in what every event needs. */
  predicate Wellformed(e: Event) {
    && NamesOrder(e) && !e.name.UnknownName?
    && var o := e.order.value;
    && o.symbol != "" && o.side != "" && o.qty.Value? && !o.filledQty.Malformed? && !o.filledAvg.Malformed?
    && !o.status.UnknownStatus? && (o.status.NoStatus? ==> e.name.Named?)
  }

  /** The body says where the order stands, or else the name of the event does. */
  predicate Says(e: Event, s: Status)
    requires e.order.Some?
  {
    match e.order.value.status
    case HasStatus(own) => own == s
    case UnknownStatus => false
    case NoStatus =>
      match s
      case New => e.name == Named(EvNew)
      case Accepted => e.name == Named(EvAccepted)
      case PartiallyFilled => e.name == Named(EvPartialFill)
      case Filled => e.name == Named(EvFill)
      case Canceled => e.name == Named(EvCanceled)
      case Rejected => e.name == Named(EvRejected)
      case Expired => e.name == Named(EvExpired)
      case Replaced => e.name == Named(EvReplaced)
      case DoneForDay => e.name == Named(EvDoneForDay)
  }

  /** The move is one the ranks allow. */
  predicate MovesUp(from: Option<State>, to: Status) {
    from.Some? ==>
      to == from.value.status
      || (Rank(from.value.status) < Rank(to) && !(from.value.status == PartiallyFilled && to == Rejected))
  }

  /** `q` shares were executed: the event says so, or its running total does, and neither contradicts the other. */
  predicate Executes(e: Event, base: int, q: int)
    requires e.order.Some?
  {
    var total := e.order.value.filledQty;
    && q > 0 && !e.qty.Malformed? && (e.qty.Value? || total.Value?)
    && (e.qty.Value? ==> e.qty.v == q) && (total.Value? ==> total.v == base + q)
  }

  predicate Priced(e: Event)
    requires e.order.Some?
  {
    e.price.Value? || (e.price.Absent? && e.order.value.filledAvg.Value?)
  }

  /** A fill's shares and price are known and fit the order; any other event leaves the filled quantity alone. */
  ghost predicate QuantitiesAgree(v: View, e: Event)
    requires Wellformed(e)
  {
    var o := e.order.value;
    var base := FilledOf(v, o.cid);
    if e.IsFill() then Priced(e) && exists q :: Executes(e, base, q) && base + q <= o.qty.v
    else
      && (o.filledQty.Value? ==> if o.cid in v.states then o.filledQty.v == base else o.filledQty.v >= 0)
      && (if o.filledQty.Value? then o.filledQty.v else base) <= o.qty.v
  }

  lemma FillIsGood(e: Event, o: OrderBody, base: int, avg: Option<real>, q: int)
    requires e.order == Some(o) && Priced(e) && Executes(e, base, q)
    ensures var r := ApplyFill(e, o, base, avg, OptValue(o.filledQty), OptValue(o.filledAvg));
      r.GoodFill? && r.filled == base + q && r.fill.qty == q
  {
  }

  lemma GoodFillExecutes(e: Event, o: OrderBody, base: int, avg: Option<real>)
    requires e.order == Some(o) && !o.filledQty.Malformed? && !o.filledAvg.Malformed?
    ensures var r := ApplyFill(e, o, base, avg, OptValue(o.filledQty), OptValue(o.filledAvg));
      r.GoodFill? ==> Priced(e) && Executes(e, base, r.fill.qty) && r.filled == base + r.fill.qty
  {
  }

  /** The status the event says is one the order may move to. */
  predicate MayMove(v: View, e: Event)
    requires e.order.Some?
  {
    exists s :: Says(e, s) && MovesUp(Get(v.states, e.order.value.cid), s)
  }

  lemma TargetMoves(v: View, e: Event, o: OrderBody)
    requires e.order == Some(o)
    ensures !e.name.UnknownName? ==> (TargetStatus(e, o).None? <==> forall s :: !Says(e, s))
    ensures !e.name.UnknownName? && TargetStatus(e, o).Some? ==>
      var s, prev := TargetStatus(e, o).value, Get(v.states, o.cid);
      MayMove(v, e) <==> prev.None? || s == prev.value.status || s in Legal(prev.value.status)
  {
    if !e.name.UnknownName? && TargetStatus(e, o).Some? {
      var s, prev := TargetStatus(e, o).value, Get(v.states, o.cid);
      assert Says(e, s) && forall t :: Says(e, t) ==> t == s;
      if prev.Some? { LegalIsRankOrder(prev.value.status, s); }
    }
  }

  lemma AppliedFill(v: View, e: Event)
    requires Wellformed(e) && MayMove(v, e) && e.IsFill()
    ensures JudgeIn(v, e).Applies? <==> QuantitiesAgree(v, e)
  {
    var o := e.order.value;
    TargetMoves(v, e, o);
    GoodFillExecutes(e, o, FilledOf(v, o.cid), AvgOf(v, o.cid));
    if Priced(e) {
      if q :| Executes(e, FilledOf(v, o.cid), q) { FillIsGood(e, o, FilledOf(v, o.cid), AvgOf(v, o.cid), q); }
    }
  }

  /**
   * An event is applied exactly when it is well formed, says a status the order may move to, and its
   * quantities agree with what is on record.
   */
  lemma AppliesExactlyWhen(v: View, e: Event)
    ensures JudgeIn(v, e).Applies? <==> Wellformed(e) && MayMove(v, e) && QuantitiesAgree(v, e)
  {
    if NamesOrder(e) { TargetMoves(v, e, e.order.value); }
    if Wellformed(e) && MayMove(v, e) && e.IsFill() { AppliedFill(v, e); }
  }

  /**
   * Where an applied event leaves its order: at the status the event says, with the broker's average
   * whenever it sends one, and otherwise as the body describes it. The other orders stay as they are.
   */
  lemma AppliedState(v: View, e: Event)
    requires JudgeIn(v, e).Applies?
    ensures e.order.Some? && e.order.value.cid in Step(v, e).states
    ensures var o, after := e.order.value, Step(v, e).states;
      && Says(e, after[o.cid].status)
      && (o.filledAvg.Value? ==> after[o.cid].avg == Some(o.filledAvg.v))
      && (o.filledQty.Value? ==> after[o.cid].filledQty == o.filledQty.v)
      && (o.qty.Value? && after[o.cid].qty == o.qty.v)
      && after[o.cid].symbol == o.symbol && after[o.cid].side == o.side && after[o.cid].orderId == o.orderId
      && after[o.cid].updatedAt == e.timestamp.GetOr(e.receivedAt)
      && (o.rejectReason.Some? ==> after[o.cid].reason == o.rejectReason)
      && (o.rejectReason.None? ==> after[o.cid].reason == e.reason)
      && forall cid :: cid != o.cid ==> Get(after, cid) == Get(v.states, cid)
  {
  }

  /** The last event of the stream was applied, to that order. */
  predicate LastApplied(es: seq<Event>, cid: string) {
    es != [] && var e := es[|es| - 1]; JudgeIn(Run(es[..|es| - 1]), e).Applies? && e.order.value.cid == cid
  }

  lemma AppliedToItsOrder(v: View, e: Event)
    requires JudgeIn(v, e).Applies?
    ensures NamesOrder(e) && JudgeIn(v, e).state.cid == e.order.value.cid
  {
  }

  lemma {:induction false} LeftAlone(es: seq<Event>, cid: string)
    requires es != [] && !LastApplied(es, cid)
    ensures Get(Run(es).states, cid) == Get(Run(es[..|es| - 1]).states, cid)
  {
    var v, e := Run(es[..|es| - 1]), es[|es| - 1];
    if JudgeIn(v, e).Applies? { AppliedToItsOrder(v, e); }
  }

  /** The last prefix at which something that only moves when hit was hit. */
  lemma {:induction false} LastHit<T(!new)>(es: seq<Event>, hit: seq<Event> -> bool, value: seq<Event> -> T)
    returns (n: nat)
    requires forall p :: p != [] && !hit(p) ==> value(p) == value(p[..|p| - 1])
    requires value(es) != value([])
    ensures n <= |es| && hit(es[..n]) && value(es[..n]) == value(es)
    ensures forall k :: n < k <= |es| ==> !hit(es[..k])
  {
    n := |es|;
    assert es[..n] == es;
    if !hit(es) {
      var rest := es[..|es| - 1];
      n := LastHit(rest, hit, value);
      forall k | 0 <= k < |es| ensures rest[..k] == es[..k] {
      }
    }
  }

  /** Over every stream: an order stands where the last event applied to it left it, at the status that event said. */
  lemma {:induction false} StandsWhereTheLastSaid(es: seq<Event>, cid: string) returns (n: nat)
    requires cid in Run(es).states
    ensures 0 < n <= |es| && LastApplied(es[..n], cid) && Get(Run(es[..n]).states, cid) == Get(Run(es).states, cid)
    ensures es[n - 1].order.Some? && Says(es[n - 1], Run(es).states[cid].status)
    ensures forall k :: n < k <= |es| ==> !LastApplied(es[..k], cid)
  {
    var hit, value := (p: seq<Event>) => LastApplied(p, cid), (p: seq<Event>) => Get(Run(p).states, cid);
    forall p | p != [] && !hit(p) ensures value(p) == value(p[..|p| - 1]) {
      LeftAlone(p, cid);
    }
    n := LastHit(es, hit, value);
    assert hit(es[..n]) && forall k :: n < k <= |es| ==> !hit(es[..k]);
    assert es[..n][..n - 1] == es[..n - 1];
    AppliedState(Run(es[..n - 1]), es[n - 1]);
  }

  /** What a recorded execution says: its order, its size, and the event's price or else the broker's average. */
  lemma AppliedExecution(v: View, e: Event)
    requires JudgeIn(v, e).Applies?
    ensures !e.IsFill() ==> Step(v, e).fills == v.fills
    ensures e.IsFill() ==> |Step(v, e).fills| == |v.fills| + 1 && v.fills <= Step(v, e).fills
    ensures e.IsFill() ==>
      var f, o := Step(v, e).fills[|v.fills|], e.order.value;
      && f.cid == o.cid && f.symbol == o.symbol && f.side == o.side && f.orderId == o.orderId
      && f.at == e.timestamp.GetOr(e.receivedAt)
      && Executes(e, FilledOf(v, o.cid), f.qty)
      && (e.price.Value? ==> f.price == e.price.v)
      && (e.price.Absent? ==> o.filledAvg == Value(f.price))
  {
    var o := e.order.value;
    if e.IsFill() { GoodFillExecutes(e, o, FilledOf(v, o.cid), AvgOf(v, o.cid)); }
  }

  /** Without a broker average a fill moves the average by its own weight, and nothing else moves it. */
  lemma AppliedAverageMoves(v: View, e: Event)
    requires JudgeIn(v, e).Applies? && e.order.value.filledAvg.Absent? && FilledOf(v, e.order.value.cid) >= 0
    ensures var o := e.order.value;
      var base, avg, after := FilledOf(v, o.cid), AvgOf(v, o.cid), Step(v, e).states[o.cid];
      && (!e.IsFill() ==> after.avg == avg)
      && (e.IsFill() && (base == 0 || avg.None?) ==> after.avg == Some(Step(v, e).fills[|v.fills|].price))
      && (e.IsFill() && base > 0 && avg.Some? ==>
            after.avg.Some?
            && after.avg.value * after.filledQty as real
               == base as real * avg.value + Dollars(Step(v, e).fills[|v.fills|]))
  {
    var o := e.order.value;
    AppliedAverage(v, e);
    if e.IsFill() && AvgOf(v, o.cid).Some? {
      var f := JudgeIn(v, e).fill.value;
      AverageStep(FilledOf(v, o.cid), AvgOf(v, o.cid).value, f.qty, f.price);
    }
  }

  /** The fault a code stands for. */
  ghost predicate Blames(code: Code, v: View, e: Event) {
    if code == MalformedEvent then !e.isObject
    else if code == MissingOrder then e.order.None?
    else e.order.Some? && BodyFault(code, e, e.order.value)
         && (code in QUANTITY_CODES ==> QuantityFault(code, FilledOf(v, e.order.value.cid), e, e.order.value))
         && (code == IllegalTransition ==>
               exists s :: Says(e, s) && !MovesUp(Get(v.states, e.order.value.cid), s))
  }

  const QUANTITY_CODES: set<Code> := {
    BadFillQty, BadFillPrice, MissingFillQty, MissingFillPrice, NonPositiveFillQty, FilledQtyRegressed,
    FilledQtyMismatch, UnexpectedFilledQty, FilledQtyExceedsQty}

  predicate BodyFault(code: Code, e: Event, o: OrderBody) {
    match code
    case MissingClientOrderId => o.cid == ""
    case UnknownEvent => e.name.UnknownName?
    case MissingStatus => o.status.NoStatus? && e.name.NoName?
    case UnknownStatusText => o.status.UnknownStatus?
    case MissingSymbol => o.symbol == ""
    case MissingSide => o.side == ""
    case BadQty => o.qty.Malformed?
    case BadFilledQty => o.filledQty.Malformed?
    case BadFilledAvg => o.filledAvg.Malformed?
    case MissingQty => o.qty.Absent?
    case _ => code == IllegalTransition || code in QUANTITY_CODES
  }

  predicate QuantityFault(code: Code, base: int, e: Event, o: OrderBody) {
    var total := o.filledQty;
    match code
    case BadFillQty => e.IsFill() && e.qty.Malformed?
    case BadFillPrice => e.IsFill() && e.price.Malformed?
    case MissingFillQty => e.IsFill() && e.qty.Absent? && total.Absent?
    case MissingFillPrice => e.IsFill() && e.price.Absent? && o.filledAvg.Absent?
    case NonPositiveFillQty =>
      e.IsFill() && if e.qty.Value? then e.qty.v <= 0 else total.Value? && total.v <= base
    case FilledQtyRegressed => total.Value? && total.v < base
    case FilledQtyMismatch => e.IsFill() && e.qty.Value? && total.Value? && total.v != base + e.qty.v
    case UnexpectedFilledQty => !e.IsFill() && total.Value? && total.v > base
    case FilledQtyExceedsQty =>
      o.qty.Value? && if total.Value? then total.v > o.qty.v
                      else if e.IsFill() then e.qty.Value? && base + e.qty.v > o.qty.v
                      else base > o.qty.v
    case _ => false
  }

  lemma BadFillNamesTheFault(e: Event, o: OrderBody, base: int, avg: Option<real>)
    requires e.IsFill() && !o.filledQty.Malformed? && !o.filledAvg.Malformed?
    ensures var r := ApplyFill(e, o, base, avg, OptValue(o.filledQty), OptValue(o.filledAvg));
      r.BadFill? ==> r.code in QUANTITY_CODES && QuantityFault(r.code, base, e, o)
  {
  }

  lemma IllegalMove(v: View, e: Event, s: Status)
    requires e.order.Some? && Says(e, s)
    requires var prev := Get(v.states, e.order.value.cid);
      prev.Some? && s != prev.value.status && s !in Legal(prev.value.status)
    ensures exists t :: Says(e, t) && !MovesUp(Get(v.states, e.order.value.cid), t)
  {
    LegalIsRankOrder(v.states[e.order.value.cid].status, s);
    assert !MovesUp(Get(v.states, e.order.value.cid), s);
  }

  /** The verdict on a named order, fault by fault: what does not depend on quantities ... */
  lemma BodyNamesTheFault(v: View, e: Event, o: OrderBody)
    requires e.order == Some(o) && Judge(Get(v.states, o.cid), e, o).Rejects?
    requires Judge(Get(v.states, o.cid), e, o).code !in QUANTITY_CODES
    ensures Blames(Judge(Get(v.states, o.cid), e, o).code, v, e)
  {
    if TargetStatus(e, o).Some? {
      var prev, s := Get(v.states, o.cid), TargetStatus(e, o).value;
      if !e.name.UnknownName? && prev.Some? && s != prev.value.status && s !in Legal(prev.value.status) {
        IllegalMove(v, e, s);
      }
    }
  }

  /** ... and what does. */
  lemma QuantityNamesTheFault(v: View, e: Event, o: OrderBody)
    requires e.order == Some(o) && Judge(Get(v.states, o.cid), e, o).Rejects?
    requires Judge(Get(v.states, o.cid), e, o).code in QUANTITY_CODES
    ensures QuantityFault(Judge(Get(v.states, o.cid), e, o).code, FilledOf(v, o.cid), e, o)
  {
    if e.IsFill() && !o.filledQty.Malformed? && !o.filledAvg.Malformed? {
      BadFillNamesTheFault(e, o, FilledOf(v, o.cid), AvgOf(v, o.cid));
    }
  }

  lemma JudgeNamesTheFault(v: View, e: Event, o: OrderBody)
    requires e.order == Some(o) && Judge(Get(v.states, o.cid), e, o).Rejects?
    ensures Blames(Judge(Get(v.states, o.cid), e, o).code, v, e)
  {
    if Judge(Get(v.states, o.cid), e, o).code in QUANTITY_CODES {
      QuantityNamesTheFault(v, e, o);
    } else {
      BodyNamesTheFault(v, e, o);
    }
  }

  /** An event that is not applied changes nothing but the list of anomalies, and its code names what is wrong. */
  lemma AnomalyNamesTheFault(v: View, e: Event)
    requires JudgeIn(v, e).Rejects?
    ensures Step(v, e) == v.(anomalies := v.anomalies + [Anomaly(JudgeIn(v, e).code, e)])
    ensures Blames(JudgeIn(v, e).code, v, e)
  {
    if NamesOrder(e) { JudgeNamesTheFault(v, e, e.order.value); }
  }

  // ---- conservation --------------------------------------------------------------------------

  /** Shares of `cid` in recorded executions. */
  function Recorded(fills: seq<Fill>, cid: string): int {
    if fills == [] then 0
    else
      var f := fills[|fills| - 1];
      Recorded(fills[..|fills| - 1], cid) + if f.cid == cid then f.qty else 0
  }

  function Dollars(f: Fill): real {
    f.qty as real * f.price
  }

  /** Dollars of `cid` in recorded executions. */
  function Weighted(fills: seq<Fill>, cid: string): real {
    if fills == [] then 0.0
    else
      var f := fills[|fills| - 1];
      Weighted(fills[..|fills| - 1], cid) + if f.cid == cid then Dollars(f) else 0.0
  }

  /** The quantity taken over, without an execution, from the event that created the order. */
  function Adopted(es: seq<Event>, cid: string): int {
    if es == [] then 0
    else
      var rest, e := es[..|es| - 1], es[|es| - 1];
      if cid !in Run(rest).states && cid in Run(es).states && !e.IsFill() then Run(es).states[cid].filledQty
      else Adopted(rest, cid)
  }

  predicate Sound(s: State) {
    0 <= s.filledQty <= s.qty
  }

  lemma StepSound(v: View, e: Event)
    requires forall c :: c in v.states ==> Sound(v.states[c]) && v.states[c].cid == c
    ensures forall c :: c in Step(v, e).states ==> Sound(Step(v, e).states[c]) && Step(v, e).states[c].cid == c
  {
  }

  lemma {:induction false} RunSound(es: seq<Event>)
    ensures forall c :: c in Run(es).states ==> Sound(Run(es).states[c]) && Run(es).states[c].cid == c
  {
    if es != [] {
      RunSound(es[..|es| - 1]);
      StepSound(Run(es[..|es| - 1]), es[|es| - 1]);
    }
  }

  lemma RecordedAppend(fills: seq<Fill>, f: Fill, cid: string)
    ensures Recorded(fills + [f], cid) == Recorded(fills, cid) + if f.cid == cid then f.qty else 0
  {
    assert (fills + [f])[..|fills|] == fills;
  }

  lemma WeightedAppend(fills: seq<Fill>, f: Fill, cid: string)
    ensures Weighted(fills + [f], cid) == Weighted(fills, cid) + if f.cid == cid then Dollars(f) else 0.0
  {
    assert (fills + [f])[..|fills|] == fills;
  }

  function FilledOf(v: View, cid: string): int {
    if cid in v.states then v.states[cid].filledQty else 0
  }

  /** What an applied event does to quantities: a fill adds its own size, anything else adds none. */
  lemma AppliedQuantities(v: View, e: Event)
    requires JudgeIn(v, e).Applies?
    requires forall c :: c in v.states ==> Sound(v.states[c])
    ensures var j := JudgeIn(v, e);
            && j.state.cid == e.order.value.cid && Sound(j.state)
            && (j.fill.Some? <==> e.IsFill())
            && (j.fill.Some? ==> j.fill.value.cid == j.state.cid && j.fill.value.qty > 0
                                 && j.state.filledQty == FilledOf(v, j.state.cid) + j.fill.value.qty)
            && (j.fill.None? && j.state.cid in v.states ==> j.state.filledQty == FilledOf(v, j.state.cid))
  {
  }

  /**
   * Conservation over every stream: an order's filled quantity lies between zero and its size and
   * is exactly what was adopted at creation plus the executions recorded since.
   */
  lemma {:induction false} FilledIsConserved(es: seq<Event>, cid: string)
    ensures Adopted(es, cid) >= 0
    ensures FilledOf(Run(es), cid) == Adopted(es, cid) + Recorded(Run(es).fills, cid)
    ensures cid in Run(es).states ==> 0 <= Run(es).states[cid].filledQty <= Run(es).states[cid].qty
    ensures cid !in Run(es).states ==> Adopted(es, cid) == 0 == Recorded(Run(es).fills, cid)
  {
    RunSound(es);
    if es != [] {
      var rest, e := es[..|es| - 1], es[|es| - 1];
      FilledIsConserved(rest, cid);
      RunSound(rest);
      ConservedStep(Run(rest), e, cid);
    }
  }

  lemma ConservedStep(v: View, e: Event, cid: string)
    requires forall c :: c in v.states ==> Sound(v.states[c])
    ensures var w := Step(v, e);
            && (cid in v.states ==> cid in w.states)
            && (cid in v.states || e.IsFill() || cid !in w.states ==>
                  FilledOf(w, cid) - Recorded(w.fills, cid) == FilledOf(v, cid) - Recorded(v.fills, cid))
            && (!e.IsFill() ==> Recorded(w.fills, cid) == Recorded(v.fills, cid))
            && (cid !in w.states ==> Recorded(w.fills, cid) == Recorded(v.fills, cid))
  {
    var j := JudgeIn(v, e);
    if j.Applies? {
      AppliedQuantities(v, e);
      if j.fill.Some? {
        RecordedAppend(v.fills, j.fill.value, cid);
      }
    }
  }

  /** No event about `cid` carries a broker average. */
  predicate NoBrokerAverage(es: seq<Event>, cid: string) {
    forall e :: e in es && e.order.Some? && e.order.value.cid == cid ==> e.order.value.filledAvg.Absent?
  }

  lemma AverageStep(b: int, avg: real, q: int, p: real)
    requires b + q != 0
    ensures (b as real * avg + q as real * p) / (b + q) as real * (b + q) as real == b as real * avg + q as real * p
  {
  }

  /** `avg` is the average of `filled` shares costing `w` dollars. */
  predicate Averages(filled: int, avg: Option<real>, w: real) {
    if filled == 0 then avg.None? && w == 0.0
    else avg.Some? && avg.value * filled as real == w
  }

  /** What one execution does to the average of an order whose average is so far the recorded one. */
  lemma FillAverage(e: Event, o: OrderBody, filled: int, avg: Option<real>, brokerFilled: Option<int>, w: real)
    requires filled >= 0 && Averages(filled, avg, w)
    requires ApplyFill(e, o, filled, avg, brokerFilled, None).GoodFill?
    ensures var r := ApplyFill(e, o, filled, avg, brokerFilled, None);
            Averages(r.filled, r.avg, w + Dollars(r.fill))
  {
    var r := ApplyFill(e, o, filled, avg, brokerFilled, None);
    if filled > 0 {
      AverageStep(filled, avg.value, r.fill.qty, r.fill.price);
    }
  }

  function AvgOf(v: View, cid: string): Option<real> {
    if cid in v.states then v.states[cid].avg else None
  }

  /** An applied event with no broker average moves the average as `ApplyFill` says, or not at all. */
  lemma AppliedAverage(v: View, e: Event)
    requires JudgeIn(v, e).Applies? && e.order.value.filledAvg.Absent?
    ensures var j, o := JudgeIn(v, e), e.order.value;
            && o.cid == j.state.cid
            && (j.fill.None? ==> j.state.avg == AvgOf(v, o.cid))
            && (j.fill.Some? ==>
                  ApplyFill(e, o, FilledOf(v, o.cid), AvgOf(v, o.cid), OptValue(o.filledQty), None)
                    == GoodFill(j.fill.value, j.state.filledQty, j.state.avg))
  {
  }

  lemma AppliedFillAverages(v: View, e: Event, w: real)
    requires forall c :: c in v.states ==> Sound(v.states[c])
    requires JudgeIn(v, e).Applies? && JudgeIn(v, e).fill.Some? && e.order.value.filledAvg.Absent?
    requires var cid := e.order.value.cid; Averages(FilledOf(v, cid), AvgOf(v, cid), w)
    ensures var j := JudgeIn(v, e); Averages(j.state.filledQty, j.state.avg, w + Dollars(j.fill.value))
  {
    var o := e.order.value;
    AppliedAverage(v, e);
    FillAverage(e, o, FilledOf(v, o.cid), AvgOf(v, o.cid), OptValue(o.filledQty), w);
  }

  /** The other orders' averages and executions are not touched. */
  lemma OtherAverage(v: View, e: Event, cid: string)
    requires forall c :: c in v.states ==> Sound(v.states[c])
    requires JudgeIn(v, e).Applies? && JudgeIn(v, e).state.cid != cid
    requires Averages(FilledOf(v, cid), AvgOf(v, cid), Weighted(v.fills, cid))
    ensures var w := Step(v, e); Averages(FilledOf(w, cid), AvgOf(w, cid), Weighted(w.fills, cid))
  {
    AppliedQuantities(v, e);
    var j := JudgeIn(v, e);
    if j.fill.Some? { WeightedAppend(v.fills, j.fill.value, cid); }
  }

  /** An execution of the order itself. */
  lemma OwnFillAverage(v: View, e: Event, cid: string)
    requires forall c :: c in v.states ==> Sound(v.states[c])
    requires JudgeIn(v, e).Applies? && JudgeIn(v, e).fill.Some? && JudgeIn(v, e).state.cid == cid
    requires e.order.value.filledAvg.Absent?
    requires Averages(FilledOf(v, cid), AvgOf(v, cid), Weighted(v.fills, cid))
    ensures var w := Step(v, e); Averages(FilledOf(w, cid), AvgOf(w, cid), Weighted(w.fills, cid))
  {
    AppliedQuantities(v, e);
    AppliedAverage(v, e);
    WeightedAppend(v.fills, JudgeIn(v, e).fill.value, cid);
    AppliedFillAverages(v, e, Weighted(v.fills, cid));
  }

  lemma AverageStepHolds(v: View, e: Event, cid: string)
    requires forall c :: c in v.states ==> Sound(v.states[c])
    requires e.order.Some? && e.order.value.cid == cid ==> e.order.value.filledAvg.Absent?
    requires Averages(FilledOf(v, cid), AvgOf(v, cid), Weighted(v.fills, cid))
    requires cid in v.states || e.IsFill() || FilledOf(Step(v, e), cid) == 0
    ensures var w := Step(v, e); Averages(FilledOf(w, cid), AvgOf(w, cid), Weighted(w.fills, cid))
  {
    var j := JudgeIn(v, e);
    if j.Applies? {
      AppliedQuantities(v, e);
      if j.state.cid != cid {
        OtherAverage(v, e, cid);
      } else if j.fill.Some? {
        OwnFillAverage(v, e, cid);
      } else {
        AppliedAverage(v, e);
      }
    }
  }

  /**
   * The weighted average: when the broker never sends one and nothing was adopted, average times
   * quantity is the sum over the executions of quantity times price.
   */
  lemma {:induction false} AverageIsConserved(es: seq<Event>, cid: string)
    requires NoBrokerAverage(es, cid) && Adopted(es, cid) == 0
    ensures var v := Run(es); Averages(FilledOf(v, cid), AvgOf(v, cid), Weighted(v.fills, cid))
  {
    if es != [] {
      var rest, e := es[..|es| - 1], es[|es| - 1];
      assert es == rest + [e];
      FilledIsConserved(rest, cid);
      FilledIsConserved(es, cid);
      RunSound(rest);
      AverageIsConserved(rest, cid);
      AverageStepHolds(Run(rest), e, cid);
    }
  }
}
