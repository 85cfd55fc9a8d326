/**
 * The order manager (signald/order/manager.py) against a broker that loses requests and replies and
 * does not dedupe: which orders exist, what the log still lists, and when a resend is allowed.
 *
 * The manager keeps a ghost trace of everything observable outside the process. A crash can fall
 * between any two actions, so a crash point is a prefix of the trace.
 */
module OrderManager {
  import opened Prelude

  /** A broker status, grouped as the manager tells them apart. */
  datatype BrokerStatus = Working | Refused | Canceled | NotFound | Unrecognised

  /** One call through the transport seam, as the manager sees it. */
  datatype Reply = TimedOut | Raised | NoBody | NotMapping | Body(status: BrokerStatus, duplicate: bool)

  /** A row of the pending log. */
  datatype Row = PendingRow(cid: string, intentId: string, at: nat) | ResolvedRow(cid: string, status: string)

  datatype Action =
    | Wrote(row: Row)
    | Sent(cid: string, created: bool, reply: Reply)
    | Queried(cid: string, reply: Reply)
    | CancelAsked(cid: string, removed: bool, reply: Reply)

  datatype Intent = Intent(cid: string, intentId: string)

  datatype ResultStatus =
    | Submitted | Duplicate | Rejected | Timeout | NotFoundResult | Unavailable | CanceledResult

  datatype SubmitResult = SubmitResult(status: ResultStatus, cid: string, retried: bool)

  predicate IsRejected(s: BrokerStatus) {
    s == Refused || s == Canceled
  }

  /** The broker told us, in so many words, that this submit made no order. */
  predicate Refusal(r: Reply) {
    r.Body? && !r.duplicate && IsRejected(r.status)
  }

  /** A definitive cancel answer: the order is gone. */
  predicate Gone(r: Reply) {
    r.Body? && (r.status == NotFound || r.status == Canceled)
  }

  /** How `submit` classifies the broker's answer. */
  function Classify(r: Reply): ResultStatus {
    match r
    case TimedOut => Timeout
    case Raised => Unavailable
    case NoBody => Unavailable
    case NotMapping => Unavailable
    case Body(status, duplicate) =>
      if duplicate then Duplicate
      else if status == NotFound then NotFoundResult
      else if status == Working then Submitted
      else if IsRejected(status) then Rejected
      else Unavailable
  }

  function ClassifyCancel(r: Reply): ResultStatus {
    if r.TimedOut? then Timeout
    else if !r.Body? then Unavailable
    else if r.status == NotFound then NotFoundResult
    else if r.status == Canceled then CanceledResult
    else if IsRejected(r.status) then Rejected
    else Unavailable
  }

  function GoneAs(r: Reply): string
    requires Gone(r)
  {
    if r.status == NotFound then "not_found" else "canceled"
  }

  // ---- the environment -----------------------------------------------------------------------

  /**
   * What a submit can do: a working answer made an order, a refusal and a duplicate error did
   * not, and anything else, an answer lost in particular, may or may not have.
   */
  predicate SubmitOutcome(created: bool, r: Reply) {
    && (r.Body? && !r.duplicate && r.status == Working ==> created)
    && (Refusal(r) ==> !created)
    && (r.Body? && r.duplicate ==> !created)
  }

  /**
   * What a status proves, over everything a submit can do: "submitted" stands exactly for the answers
   * that prove an order, "rejected" and "duplicate" for those that prove this submit made none. Of the
   * rest, a timeout and a not_found body keep their names.
   */
  lemma StatusTellsTheOrder(r: Reply)
    ensures Classify(r) == Submitted <==> forall created :: SubmitOutcome(created, r) ==> created
    ensures Classify(r) in {Rejected, Duplicate} <==> forall created :: SubmitOutcome(created, r) ==> !created
    ensures Classify(r) == Duplicate <==> r.Body? && r.duplicate
    ensures Classify(r) == Timeout <==> r.TimedOut?
    ensures Classify(r) == NotFoundResult <==> r.Body? && !r.duplicate && r.status == NotFound
    ensures Classify(r) != CanceledResult
  {
    assert Classify(r) != Submitted <==> SubmitOutcome(false, r);
    assert Classify(r) !in {Rejected, Duplicate} <==> SubmitOutcome(true, r);
  }

  /** The same for a cancel: "canceled" and "not_found" are the two answers that prove the order gone. */
  lemma CancelStatusTells(r: Reply)
    ensures ClassifyCancel(r) in {CanceledResult, NotFoundResult} <==> Gone(r)
    ensures ClassifyCancel(r) == CanceledResult <==> r.Body? && forall removed, open: multiset<string>, cid ::
      CancelOutcome(removed, r, open, cid) ==> removed
    ensures Gone(r) ==> GoneAs(r) == if ClassifyCancel(r) == CanceledResult then "canceled" else "not_found"
    ensures ClassifyCancel(r) == Timeout <==> r.TimedOut?
    ensures ClassifyCancel(r) == Rejected <==> r.Body? && r.status == Refused
  {
    if r.Body? && r.status != Canceled { assert CancelOutcome(false, r, multiset{}, ""); }
  }

  /** A query that answers tells the truth. */
  predicate Truthful(r: Reply, exists_: bool) {
    r.Body? ==> (r.status == NotFound <==> !exists_)
  }

  /**
   * What a cancel can do to the open orders: a canceled answer removed one order of the id, a
   * not_found answer means there was none, and anything else may or may not have removed one.
   */
  predicate CancelOutcome(removed: bool, r: Reply, open: multiset<string>, cid: string) {
    && (removed ==> cid in open)
    && (r.Body? && r.status == Canceled ==> removed)
    && (r.Body? && r.status == NotFound ==> cid !in open)
  }

  /**
   * The broker: it creates whatever reaches it, once per submit, with no deduplication, and cancels
   * one order at a time. `orders` is everything ever created, `open` what has not been canceled.
   */
  class Broker {
    var orders: seq<string>
    var open: multiset<string>

    constructor ()
      ensures orders == [] && open == multiset{}
    {
      orders, open := [], multiset{};
    }

    method Submit(cid: string) returns (created: bool, r: Reply)
      modifies this
      ensures SubmitOutcome(created, r)
      ensures orders == if created then old(orders) + [cid] else old(orders)
      ensures open == if created then old(open) + multiset{cid} else old(open)
    {
      created, r :| SubmitOutcome(created, r);
      if created { orders, open := orders + [cid], open + multiset{cid}; }
    }

    method Query(cid: string) returns (r: Reply)
      ensures Truthful(r, cid in orders)
    {
      r :| Truthful(r, cid in orders);
    }

    method Cancel(cid: string) returns (removed: bool, r: Reply)
      modifies this`open
      ensures CancelOutcome(removed, r, old(open), cid)
      ensures open == if removed then old(open) - multiset{cid} else old(open)
    {
      assert CancelOutcome(false, TimedOut, open, cid);
      removed, r :| CancelOutcome(removed, r, open, cid);
      if removed { open := open - multiset{cid}; }
    }
  }

  // ---- what a trace means ----------------------------------------------------------------------

  function Init<T>(s: seq<T>): seq<T>
    requires s != []
  {
    s[..|s| - 1]
  }

  function Last<T>(s: seq<T>): T
    requires s != []
  {
    s[|s| - 1]
  }

  /** The pending log as a trace leaves it on disk. */
  function RowsOf(t: seq<Action>): seq<Row> {
    if t == [] then []
    else if Last(t).Wrote? then RowsOf(Init(t)) + [Last(t).row]
    else RowsOf(Init(t))
  }

  /** Ids awaiting an outcome: the last row about an id wins. */
  function PendingKeys(rows: seq<Row>): set<string> {
    if rows == [] then {}
    else if Last(rows).cid == "" then PendingKeys(Init(rows))
    else if Last(rows).PendingRow? then PendingKeys(Init(rows)) + {Last(rows).cid}
    else PendingKeys(Init(rows)) - {Last(rows).cid}
  }

  /** The last row about an id. */
  function LatestOf(rows: seq<Row>, cid: string): Option<Row> {
    if rows == [] then None
    else if Last(rows).cid == cid then Some(Last(rows))
    else LatestOf(Init(rows), cid)
  }

  /** A row is live when it is a pending row and nothing about its id came after it. */
  predicate IsLive(rows: seq<Row>, row: Row) {
    row.PendingRow? && row.cid != "" && LatestOf(rows, row.cid) == Some(row)
  }

  lemma {:induction false} PendingIsLatest(rows: seq<Row>, cid: string)
    ensures cid in PendingKeys(rows)
      <==> cid != "" && LatestOf(rows, cid).Some? && LatestOf(rows, cid).value.PendingRow?
  {
    if rows != [] { PendingIsLatest(Init(rows), cid); }
  }

  /** The orders open at the broker, each id as often as it has one. */
  function Live(t: seq<Action>): multiset<string> {
    if t == [] then multiset{}
    else match Last(t)
      case Sent(cid, created, _) => Live(Init(t)) + if created then multiset{cid} else multiset{}
      case CancelAsked(cid, removed, _) => Live(Init(t)) - if removed then multiset{cid} else multiset{}
      case _ => Live(Init(t))
  }

  /** Ids sent, where the last answer to a submit was no refusal and none reported the order gone. */
  function Unrefused(t: seq<Action>): set<string> {
    if t == [] then {}
    else match Last(t)
      case Sent(cid, _, r) => if Refusal(r) then Unrefused(Init(t)) - {cid} else Unrefused(Init(t)) + {cid}
      case CancelAsked(cid, _, r) => if Gone(r) then Unrefused(Init(t)) - {cid} else Unrefused(Init(t))
      case _ => Unrefused(Init(t))
  }

  /** What the pending log must cover: every live order, and every send still without a refusal. */
  function Owed(t: seq<Action>): set<string> {
    (set cid | cid in Live(t)) + Unrefused(t)
  }

  /** Orders created at the broker. */
  function Created(t: seq<Action>): seq<string> {
    if t == [] then []
    else if Last(t).Sent? && Last(t).created then Created(Init(t)) + [Last(t).cid]
    else Created(Init(t))
  }

  /** Everything owed is on record. */
  predicate Covered(t: seq<Action>) {
    Owed(t) <= PendingKeys(RowsOf(t))
  }

  /** Everything owed is on record at every crash point. */
  predicate CoveredAtEveryCrash(t: seq<Action>) {
    forall k :: 0 <= k <= |t| ==> Covered(t[..k])
  }

  /** Own-before-write: a send that may stand needs its pending row, a retired row needs nothing owed. */
  predicate Disciplined(t: seq<Action>, a: Action) {
    match a
    case Sent(cid, created, r) => created || !Refusal(r) ==> cid in PendingKeys(RowsOf(t))
    case Wrote(ResolvedRow(cid, _)) => cid !in Owed(t)
    case _ => true
  }

  lemma Append(t: seq<Action>, a: Action)
    ensures Init(t + [a]) == t && Last(t + [a]) == a
    ensures RowsOf(t + [a]) == if a.Wrote? then RowsOf(t) + [a.row] else RowsOf(t)
    ensures Created(t + [a]) == if a.Sent? && a.created then Created(t) + [a.cid] else Created(t)
  {
    assert Init(t + [a]) == t;
  }

  lemma AppendRow(rows: seq<Row>, row: Row)
    ensures PendingKeys(rows + [row]) ==
      if row.cid == "" then PendingKeys(rows)
      else if row.PendingRow? then PendingKeys(rows) + {row.cid} else PendingKeys(rows) - {row.cid}
  {
    assert Init(rows + [row]) == rows;
  }

  lemma {:induction false} NoBlankKey(rows: seq<Row>)
    ensures "" !in PendingKeys(rows)
  {
    if rows != [] { NoBlankKey(Init(rows)); }
  }

  lemma {:induction false} LiveWasCreated(t: seq<Action>, cid: string)
    ensures cid in Live(t) ==> cid in Created(t)
  {
    if t != [] { LiveWasCreated(Init(t), cid); }
  }

  /** A trace covered once more: its crash points are those before, and its end. */
  lemma CrashPoints(t: seq<Action>, a: Action)
    ensures CoveredAtEveryCrash(t + [a]) <==> CoveredAtEveryCrash(t) && Covered(t + [a])
  {
    var u := t + [a];
    if CoveredAtEveryCrash(u) {
      assert u[..|u|] == u;
      forall k | 0 <= k <= |t| ensures Covered(t[..k]) { assert u[..k] == t[..k]; }
    }
    if CoveredAtEveryCrash(t) && Covered(u) {
      forall k | 0 <= k <= |u| ensures Covered(u[..k]) { assert u[..k] == if k <= |t| then t[..k] else u; }
    }
  }

  /** The discipline is exact: an action keeps every crash point covered if and only if it follows it. */
  lemma DisciplineIsExact(t: seq<Action>, a: Action)
    ensures CoveredAtEveryCrash(t + [a]) <==> CoveredAtEveryCrash(t) && Disciplined(t, a)
  {
    CrashPoints(t, a);
    Append(t, a);
    assert t == t[..|t|];
    NoBlankKey(RowsOf(t));
    if a.Wrote? { AppendRow(RowsOf(t), a.row); }
  }

  /** A cancel asks for no row; once the answer says gone, only another open order of the id is owed. */
  lemma CancelOwes(t: seq<Action>, cid: string, removed: bool, r: Reply)
    requires CancelOutcome(removed, r, Live(t), cid)
    ensures CoveredAtEveryCrash(t + [CancelAsked(cid, removed, r)]) <==> CoveredAtEveryCrash(t)
    ensures RowsOf(t + [CancelAsked(cid, removed, r)]) == RowsOf(t)
    ensures Created(t + [CancelAsked(cid, removed, r)]) == Created(t)
    ensures Live(t + [CancelAsked(cid, removed, r)]) == if removed then Live(t) - multiset{cid} else Live(t)
    ensures Gone(r) ==> (cid !in Owed(t + [CancelAsked(cid, removed, r)]) <==> Live(t)[cid] <= 1)
  {
    Append(t, CancelAsked(cid, removed, r));
    DisciplineIsExact(t, CancelAsked(cid, removed, r));
  }

  /** The actions of one cancel. */
  function CancelActions(cid: string, removed: bool, r: Reply): seq<Action> {
    [CancelAsked(cid, removed, r)] + if Gone(r) then [Wrote(ResolvedRow(cid, GoneAs(r)))] else []
  }

  /** The actions of one cancel, one by one. */
  lemma CancelInSteps(t: seq<Action>, cid: string, removed: bool, r: Reply)
    ensures var asked := t + [CancelAsked(cid, removed, r)];
      t + CancelActions(cid, removed, r)
      == if Gone(r) then asked + [Wrote(ResolvedRow(cid, GoneAs(r)))] else asked
  {
  }

  /**
   * Exactly: a cancel that is told its order is gone retires the row of the id, which is right
   * unless the id has another open order.
   */
  lemma CancelKeepsExactly(t: seq<Action>, cid: string, removed: bool, r: Reply)
    requires CancelOutcome(removed, r, Live(t), cid)
    ensures CoveredAtEveryCrash(t + CancelActions(cid, removed, r))
       <==> CoveredAtEveryCrash(t) && (Gone(r) ==> Live(t)[cid] <= 1)
  {
    var asked := t + [CancelAsked(cid, removed, r)];
    CancelInSteps(t, cid, removed, r);
    CancelOwes(t, cid, removed, r);
    if Gone(r) { DisciplineIsExact(asked, Wrote(ResolvedRow(cid, GoneAs(r)))); }
  }

  /** When one submit keeps every crash point covered. */
  predicate SubmitKeeps(t: seq<Action>, cid: string, r: Reply) {
    if Classify(r) == Rejected then cid !in Live(t) else cid != ""
  }

  /** The log and the live orders, one action on. */
  lemma AppendOwed(t: seq<Action>, a: Action)
    ensures a.Wrote? ==> Live(t + [a]) == Live(t) && Unrefused(t + [a]) == Unrefused(t)
    ensures a.Sent? ==>
      && Live(t + [a]) == Live(t) + (if a.created then multiset{a.cid} else multiset{})
      && Unrefused(t + [a]) == if Refusal(a.reply) then Unrefused(t) - {a.cid} else Unrefused(t) + {a.cid}
  {
    Append(t, a);
  }

  /** The actions of one submit, one by one. */
  lemma SubmitInSteps(t: seq<Action>, intent: Intent, at: nat, created: bool, r: Reply)
    ensures var two := t + [Wrote(PendingRow(intent.cid, intent.intentId, at))] + [Sent(intent.cid, created, r)];
      t + SubmitActions(intent, at, created, r)
      == if Classify(r) == Rejected then two + [Wrote(ResolvedRow(intent.cid, "rejected"))] else two
  {
  }

  /** Behind a refusal only an earlier open order of the id is owed. */
  lemma RefusalOwes(t: seq<Action>, cid: string, r: Reply)
    requires Refusal(r)
    ensures cid in Owed(t + [Sent(cid, false, r)]) <==> cid in Live(t)
  {
    AppendOwed(t, Sent(cid, false, r));
  }

  /** The pending row and the send: the row covers the send unless its id is blank. */
  lemma SendKeepsExactly(t: seq<Action>, intent: Intent, at: nat, created: bool, r: Reply)
    requires SubmitOutcome(created, r)
    ensures var row := Wrote(PendingRow(intent.cid, intent.intentId, at));
      CoveredAtEveryCrash(t + [row] + [Sent(intent.cid, created, r)])
      <==> CoveredAtEveryCrash(t) && (Refusal(r) || intent.cid != "")
  {
    var a := Wrote(PendingRow(intent.cid, intent.intentId, at));
    DisciplineIsExact(t, a);
    DisciplineIsExact(t + [a], Sent(intent.cid, created, r));
    PendingWrite(t, intent, at);
  }

  /**
   * Exactly: a refused submit retires the row of its id, which is right unless an earlier order
   * under that id is still open; any other submit needs an id that `pending` lists.
   */
  lemma SubmitKeepsExactly(t: seq<Action>, intent: Intent, at: nat, created: bool, r: Reply)
    requires SubmitOutcome(created, r)
    ensures CoveredAtEveryCrash(t + SubmitActions(intent, at, created, r))
       <==> CoveredAtEveryCrash(t) && SubmitKeeps(t, intent.cid, r)
  {
    var cid := intent.cid;
    var one := t + [Wrote(PendingRow(cid, intent.intentId, at))];
    SubmitInSteps(t, intent, at, created, r);
    SendKeepsExactly(t, intent, at, created, r);
    if Classify(r) == Rejected {
      DisciplineIsExact(one + [Sent(cid, created, r)], Wrote(ResolvedRow(cid, "rejected")));
      PendingWrite(t, intent, at);
      RefusalOwes(one, cid, r);
    }
  }

  lemma PendingWrite(t: seq<Action>, intent: Intent, at: nat)
    ensures var one := t + [Wrote(PendingRow(intent.cid, intent.intentId, at))];
      && Live(one) == Live(t) && Unrefused(one) == Unrefused(t)
      && (intent.cid in PendingKeys(RowsOf(one)) <==> intent.cid != "")
  {
    var a := Wrote(PendingRow(intent.cid, intent.intentId, at));
    Append(t, a);
    AppendOwed(t, a);
    AppendRow(RowsOf(t), a.row);
    NoBlankKey(RowsOf(t));
  }

  lemma NothingIsCovered()
    ensures CoveredAtEveryCrash([])
  {
    var nothing: seq<Action> := [];
    assert forall k :: 0 <= k <= |nothing| ==> nothing[..k] == nothing;
  }

  /**
   * The failure happens: an id is accepted, used again and refused. At the end its first order is
   * live and its row is gone; the session engine's ids leave the symbol out, so it does reuse them.
   */
  lemma RefusedReuseUncovers(cid: string, first: Intent, second: Intent)
    requires cid != "" && first.cid == cid && second.cid == cid
    ensures var made, refused := Body(Working, false), Body(Refused, false);
      var once := SubmitActions(first, 0, true, made);
      var twice := once + SubmitActions(second, 1, false, refused);
      && SubmitOutcome(true, made) && SubmitOutcome(false, refused)
      && CoveredAtEveryCrash(once) && !CoveredAtEveryCrash(twice)
      && cid in Live(twice) && cid !in PendingKeys(RowsOf(twice))
  {
    var made, refused := Body(Working, false), Body(Refused, false);
    var once := SubmitActions(first, 0, true, made);
    assert [] + once == once;
    NothingIsCovered();
    SubmitKeepsExactly([], first, 0, true, made);
    SubmitKeepsExactly(once, second, 1, false, refused);
    SubmitEffect([], first, 0, true, made);
    SubmitEffect(once, second, 1, false, refused);
  }

  /** What one submit does to the live orders and to the log. */
  lemma SubmitEffect(t: seq<Action>, intent: Intent, at: nat, created: bool, r: Reply)
    ensures var u := t + SubmitActions(intent, at, created, r);
      && Live(u) == Live(t) + (if created then multiset{intent.cid} else multiset{})
      && RowsOf(u) == RowsOf(t) + [PendingRow(intent.cid, intent.intentId, at)]
                      + (if Classify(r) == Rejected then [ResolvedRow(intent.cid, "rejected")] else [])
      && (Classify(r) == Rejected ==> intent.cid !in PendingKeys(RowsOf(u)))
  {
    var cid := intent.cid;
    var a, b := Wrote(PendingRow(cid, intent.intentId, at)), Sent(cid, created, r);
    var c := Wrote(ResolvedRow(cid, "rejected"));
    SubmitInSteps(t, intent, at, created, r);
    Append(t, a);
    Append(t + [a], b);
    Append(t + [a] + [b], c);
    AppendOwed(t, a);
    AppendOwed(t + [a], b);
    AppendOwed(t + [a] + [b], c);
    AppendRow(RowsOf(t) + [a.row], c.row);
    NoBlankKey(RowsOf(t) + [a.row] + [c.row]);
  }

  /** An id accepted twice: two open orders, and one row that covers both. */
  lemma AcceptedTwice(first: Intent, second: Intent)
    requires first.cid == second.cid != ""
    ensures var made := Body(Working, false);
      var twice := SubmitActions(first, 0, true, made) + SubmitActions(second, 1, true, made);
      CoveredAtEveryCrash(twice) && Live(twice) == multiset{first.cid, first.cid}
  {
    var made := Body(Working, false);
    var once := SubmitActions(first, 0, true, made);
    assert [] + once == once;
    NothingIsCovered();
    SubmitKeepsExactly([], first, 0, true, made);
    SubmitKeepsExactly(once, second, 1, true, made);
    SubmitEffect([], first, 0, true, made);
    SubmitEffect(once, second, 1, true, made);
  }

  /**
   * The cancel side of the same failure: an id is accepted twice and canceled once. One of its two
   * orders is still open at the end, and the row is gone.
   */
  lemma CanceledReuseUncovers(first: Intent, second: Intent)
    requires first.cid == second.cid != ""
    ensures var made, canceled, cid := Body(Working, false), Body(Canceled, false), first.cid;
      var twice := SubmitActions(first, 0, true, made) + SubmitActions(second, 1, true, made);
      var after := twice + CancelActions(cid, true, canceled);
      && SubmitOutcome(true, made) && CancelOutcome(true, canceled, Live(twice), cid)
      && CoveredAtEveryCrash(twice) && !CoveredAtEveryCrash(after)
      && Live(after) == multiset{cid} && cid !in PendingKeys(RowsOf(after))
  {
    var made, canceled, cid := Body(Working, false), Body(Canceled, false), first.cid;
    var twice := SubmitActions(first, 0, true, made) + SubmitActions(second, 1, true, made);
    AcceptedTwice(first, second);
    CancelKeepsExactly(twice, cid, true, canceled);
    CancelEffect(twice, cid, true, canceled);
  }

  /** What one cancel does to the open orders and to the log. */
  lemma CancelEffect(t: seq<Action>, cid: string, removed: bool, r: Reply)
    requires CancelOutcome(removed, r, Live(t), cid)
    ensures var u := t + CancelActions(cid, removed, r);
      && Live(u) == (if removed then Live(t) - multiset{cid} else Live(t))
      && RowsOf(u) == RowsOf(t) + (if Gone(r) then [ResolvedRow(cid, GoneAs(r))] else [])
      && (Gone(r) ==> cid !in PendingKeys(RowsOf(u)))
  {
    var asked := t + [CancelAsked(cid, removed, r)];
    CancelInSteps(t, cid, removed, r);
    CancelOwes(t, cid, removed, r);
    NoBlankKey(RowsOf(t + CancelActions(cid, removed, r)));
    if Gone(r) {
      var b := Wrote(ResolvedRow(cid, GoneAs(r)));
      Append(asked, b);
      AppendOwed(asked, b);
      AppendRow(RowsOf(asked), b.row);
    }
  }

  /** How many of the actions are submits. */
  function Submits(t: seq<Action>): nat {
    if t == [] then 0 else Submits(Init(t)) + if Last(t).Sent? then 1 else 0
  }

  predicate NotFoundAnswer(a: Action, cid: string) {
    a.Queried? && a.cid == cid && a.reply.Body? && a.reply.status == NotFound
  }

  /** The last action is a submit behind its own pending row, and unless it is the first, a not_found query. */
  predicate ProperSend(t: seq<Action>, cid: string)
    requires t != []
  {
    var n := |t|;
    && t[n - 1].Sent? && t[n - 1].cid == cid
    && n >= 2 && t[n - 2].Wrote? && t[n - 2].row.PendingRow? && t[n - 2].row.cid == cid
    && (n >= 3 ==> NotFoundAnswer(t[n - 3], cid))
  }

  /** Every submit but the first follows a query that answered not_found and its own pending row. */
  predicate QueryBeforeResend(t: seq<Action>, cid: string) {
    t == [] || (QueryBeforeResend(Init(t), cid) && (Last(t).Sent? ==> ProperSend(t, cid)))
  }

  /** Neither an order nor a refusal: the answers the loop queries behind. */
  predicate Unsure(status: ResultStatus) {
    status == Unavailable || status == Timeout
  }

  /** The pending row of an attempt. */
  predicate Opens(a: Action, intent: Intent) {
    a.Wrote? && a.row.PendingRow? && a.row.cid == intent.cid && a.row.intentId == intent.intentId
  }

  /** What the loop does next: an unsure submit is queried, a not_found query is followed by a new attempt. */
  predicate Follows(a: Action, b: Action, intent: Intent) {
    match a
    case Wrote(row) => row.PendingRow? && b.Sent? && b.cid == intent.cid
    case Sent(_, _, r) =>
      if Classify(r) == Rejected then b == Wrote(ResolvedRow(intent.cid, "rejected"))
      else Unsure(Classify(r)) && b.Queried? && b.cid == intent.cid
    case Queried(_, r) => r.Body? && r.status == NotFound && Opens(b, intent)
    case CancelAsked(_, _, _) => false
  }

  /** The loop's actions, one behind the other, from the pending row of the first attempt. */
  predicate RetryTrace(n: seq<Action>, intent: Intent) {
    n == []
    || (RetryTrace(Init(n), intent)
        && if |n| == 1 then Opens(n[0], intent) else Follows(n[|n| - 2], n[|n| - 1], intent))
  }

  /** What the loop may stop on, and what it then reports. */
  predicate Concludes(a: Action, status: ResultStatus) {
    match a
    case Sent(_, _, r) => status == Classify(r) && status != Rejected
    case Wrote(row) => row.ResolvedRow? && status == Rejected
    case Queried(_, r) => if r.Body? then r.status != NotFound && status == Submitted else status == Unavailable
    case CancelAsked(_, _, _) => false
  }

  /** The loop kept to its rules and may report this status. */
  predicate Ends(n: seq<Action>, intent: Intent, status: ResultStatus) {
    n != [] && RetryTrace(n, intent) && Concludes(Last(n), status)
  }

  /** The last submit was answered neither way. */
  predicate AwaitsQuery(n: seq<Action>, intent: Intent) {
    n != [] && RetryTrace(n, intent) && Last(n).Sent? && Unsure(Classify(Last(n).reply))
  }

  // ---- the manager -----------------------------------------------------------------------------

  class OrderManager {
    const broker: Broker
    /** The append-only pending log. */
    var rows: seq<Row>
    ghost var trace: seq<Action>

    /** The log and the broker are what the trace says. */
    ghost predicate Valid()
      reads this, broker
    {
      rows == RowsOf(trace) && broker.orders == Created(trace) && broker.open == Live(trace)
    }

    constructor (b: Broker)
      requires b.orders == [] && b.open == multiset{}
      ensures Valid() && broker == b && trace == [] && rows == []
    {
      broker, rows, trace := b, [], [];
    }

    /** Append one durable row. */
    method Write(row: Row)
      requires Valid()
      modifies this
      ensures Valid() && trace == old(trace) + [Wrote(row)] && rows == old(rows) + [row]
    {
      Append(trace, Wrote(row));
      trace := trace + [Wrote(row)];
      rows := rows + [row];
    }

    /** Append a resolution: every crash point stays covered exactly when nothing is owed on the id. */
    method Resolve(cid: string, status: string)
      requires Valid()
      modifies this
      ensures Valid() && trace == old(trace) + [Wrote(ResolvedRow(cid, status))]
      ensures rows == old(rows) + [ResolvedRow(cid, status)]
      ensures CoveredAtEveryCrash(trace) <==> CoveredAtEveryCrash(old(trace)) && cid !in Owed(old(trace))
    {
      DisciplineIsExact(trace, Wrote(ResolvedRow(cid, status)));
      Write(ResolvedRow(cid, status));
    }

    /** One submit, its row on disk first; the broker's answer is classified, and a refusal retires the row. */
    method Submit(intent: Intent) returns (result: SubmitResult, ghost at: nat, ghost created: bool, ghost r: Reply)
      requires Valid()
      modifies this, broker
      ensures Valid() && SubmitOutcome(created, r)
      ensures result == SubmitResult(Classify(r), intent.cid, false)
      ensures trace == old(trace) + SubmitActions(intent, at, created, r)
      ensures broker.orders == if created then old(broker.orders) + [intent.cid] else old(broker.orders)
      ensures CoveredAtEveryCrash(trace) <==> CoveredAtEveryCrash(old(trace)) && SubmitKeeps(old(trace), intent.cid, r)
      ensures result.status != Rejected && intent.cid != "" ==> intent.cid in PendingKeys(rows)
    {
      var cid := intent.cid;
      var now: nat := *;
      at := now;
      Write(PendingRow(cid, intent.intentId, now));
      var reply;
      created, reply := Send(cid);
      r := reply;
      result := SubmitResult(Classify(reply), cid, false);
      if Classify(reply) == Rejected {
        Write(ResolvedRow(cid, "rejected"));
      }
      SubmitInSteps(old(trace), intent, at, created, r);
      SubmitKeepsExactly(old(trace), intent, at, created, r);
      AppendRow(old(rows), PendingRow(cid, intent.intentId, at));
    }

    /** The submit itself, through the transport. */
    method Send(cid: string) returns (ghost created: bool, r: Reply)
      requires Valid()
      modifies this, broker
      ensures Valid() && SubmitOutcome(created, r)
      ensures trace == old(trace) + [Sent(cid, created, r)] && rows == old(rows)
      ensures broker.orders == if created then old(broker.orders) + [cid] else old(broker.orders)
    {
      var made, reply := broker.Submit(cid);
      created, r := made, reply;
      Append(trace, Sent(cid, created, r));
      trace := trace + [Sent(cid, created, r)];
    }

    /** Asks the broker about one id and keeps what it answered out of the log. */
    method Query(cid: string) returns (r: Reply)
      requires Valid()
      modifies this
      ensures Valid() && rows == old(rows)
      ensures Truthful(r, cid in broker.orders)
      ensures trace == old(trace) + [Queried(cid, r)]
      ensures CoveredAtEveryCrash(trace) <==> CoveredAtEveryCrash(old(trace))
    {
      r := broker.Query(cid);
      DisciplineIsExact(trace, Queried(cid, r));
      Append(trace, Queried(cid, r));
      trace := trace + [Queried(cid, r)];
    }

    /** A cancel request. The id leaves the pending set when the answer proves the order gone. */
    method Cancel(cid: string) returns (result: SubmitResult, ghost removed: bool, ghost r: Reply)
      requires Valid()
      modifies this, broker`open
      ensures Valid() && CancelOutcome(removed, r, old(broker.open), cid)
      ensures result == SubmitResult(ClassifyCancel(r), cid, false)
      ensures trace == old(trace) + CancelActions(cid, removed, r)
      ensures broker.open == if removed then old(broker.open) - multiset{cid} else old(broker.open)
      ensures PendingKeys(rows) == if Gone(r) && cid != "" then PendingKeys(old(rows)) - {cid}
                                   else PendingKeys(old(rows))
      ensures CoveredAtEveryCrash(trace) <==>
        CoveredAtEveryCrash(old(trace)) && (Gone(r) ==> old(broker.open)[cid] <= 1)
    {
      var gone, reply := broker.Cancel(cid);
      removed, r := gone, reply;
      CancelOwes(trace, cid, removed, r);
      CancelKeepsExactly(trace, cid, removed, r);
      trace := trace + [CancelAsked(cid, removed, r)];
      result := SubmitResult(ClassifyCancel(reply), cid, false);
      if Gone(reply) {
        AppendRow(rows, ResolvedRow(cid, GoneAs(reply)));
        Resolve(cid, GoneAs(reply));
      }
    }

    /**
     * What is still open: one pass over the log keeps the latest pending row of each id, oldest first
     * and then by id.
     */
    method Pending() returns (open: seq<Row>)
      requires Valid()
      ensures forall row :: row in open <==> IsLive(rows, row)
      ensures OldestFirst(open) && OneRowEach(open)
      ensures forall c :: c in PendingKeys(rows) <==> exists row :: row in open && row.cid == c
      ensures CoveredAtEveryCrash(trace) ==> forall c :: c in Owed(trace) ==> exists row :: row in open && row.cid == c
    {
      var live: map<string, Row> := map[];
      for i := 0 to |rows|
        invariant forall c ::
          c in live <==> c != "" && LatestOf(rows[..i], c).Some? && LatestOf(rows[..i], c).value.PendingRow?
        invariant forall c :: c in live ==> LatestOf(rows[..i], c) == Some(live[c]) && live[c].cid == c
      {
        var row := rows[i];
        assert Init(rows[..i + 1]) == rows[..i];
        if row.cid != "" {
          live := if row.PendingRow? then live[row.cid := row] else live - {row.cid};
        }
      }
      assert rows[..|rows|] == rows;
      open := ByAge(live);
      OpenCoversKeys(rows, open);
      if CoveredAtEveryCrash(trace) {
        assert trace[..|trace|] == trace;
        assert Covered(trace[..|trace|]);
      }
    }

    /** One submit of the retry loop, with `n` the loop's actions so far. */
    method Attempt(intent: Intent, ghost t0: seq<Action>, ghost n: seq<Action>)
      returns (result: SubmitResult, ghost m: seq<Action>)
      requires Valid() && trace == t0 + n && ReadyToSend(n, intent)
      modifies this, broker
      ensures Valid() && trace == t0 + m
      ensures Ends(m, intent, result.status) && Submits(m) == Submits(n) + 1 && Queries(m) == Queries(n)
      ensures Unsure(result.status) ==> AwaitsQuery(m, intent)
      ensures AtMostOneMore(old(broker.orders), broker.orders, intent.cid)
      ensures Honest(result, intent.cid, old(broker.orders), broker.orders, PendingKeys(rows)) && !result.retried
      ensures CoveredAtEveryCrash(trace) <==>
        CoveredAtEveryCrash(old(trace)) && RetryKeeps(old(trace), intent.cid, result.status, 0)
    {
      ghost var at, created, r;
      result, at, created, r := Submit(intent);
      AfterSubmit(n, intent, at, created, r);
      ConcatAssoc(t0, n, SubmitActions(intent, at, created, r));
      m := n + SubmitActions(intent, at, created, r);
    }

    /** One query of the retry loop. */
    method Recover(intent: Intent, ghost t0: seq<Action>, ghost n: seq<Action>)
      returns (found: Reply, ghost m: seq<Action>)
      requires Valid() && trace == t0 + n && AwaitsQuery(n, intent)
      modifies this
      ensures Valid() && trace == t0 + m && rows == old(rows)
      ensures Submits(m) == Submits(n) && Queries(m) == Queries(n) + 1
      ensures Truthful(found, intent.cid in broker.orders)
      ensures if found.Body? && found.status == NotFound then ReadyToSend(m, intent) && intent.cid !in Live(trace)
              else Ends(m, intent, if found.Body? then Submitted else Unavailable) && Last(m).Queried?
      ensures CoveredAtEveryCrash(trace) <==> CoveredAtEveryCrash(old(trace))
    {
      found := Query(intent.cid);
      AfterQuery(n, intent, found);
      LiveWasCreated(trace, intent.cid);
      m := n + [Queried(intent.cid, found)];
    }

    /**
     * At most `attempts` submits, with a query in front of each but the first.
     *
     * The loop keeps to its rules and reports what its last action says: the classification of the
     * last submit, "submitted" when a query found the order, "unavailable" when a query was not
     * answered; an unsure submit is reported only when the attempts are used up. However requests and
     * replies get lost, one call adds at most one order for its id. A result of "submitted" implies an
     * order under the id, and anything short of a refusal leaves the id on record. Every crash point
     * stays covered exactly as `RetryKeeps` says: a final refusal must not meet an order of the id
     * that was live before the call.
     */
    method SubmitWithRetry(intent: Intent, attempts: int)
      returns (result: Option<SubmitResult>, ghost new_: seq<Action>)
      requires Valid()
      modifies this, broker
      ensures Valid() && trace == old(trace) + new_
      ensures result.None? <==> attempts < 1
      ensures result.None? ==> new_ == [] && rows == old(rows) && broker.orders == old(broker.orders)
      ensures result.Some? ==>
        && 1 <= Submits(new_) <= attempts && Ends(new_, intent, result.value.status)
        && (Last(new_).Sent? && Unsure(result.value.status) ==> Submits(new_) == attempts)
        && AtMostOneMore(old(broker.orders), broker.orders, intent.cid)
        && Honest(result.value, intent.cid, old(broker.orders), broker.orders, PendingKeys(rows))
        && (result.value.retried <==> attempts == 1 || Queries(new_) > 0)
        && (CoveredAtEveryCrash(trace) <==>
              CoveredAtEveryCrash(old(trace)) && RetryKeeps(old(trace), intent.cid, result.value.status, Queries(new_)))
    {
      new_ := [];
      if attempts < 1 { return None, []; }
      var cid := intent.cid;
      ghost var t0, before := trace, broker.orders;
      var last;
      last, new_ := Attempt(intent, t0, []);
      var retried := false;
      for k := 0 to attempts - 1
        invariant Valid() && trace == t0 + new_
        invariant Submits(new_) == k + 1 && Queries(new_) == k && Ends(new_, intent, last.status)
        invariant Unsure(last.status) ==> AwaitsQuery(new_, intent)
        invariant !last.retried && retried == (k > 0)
        invariant AtMostOneMore(before, broker.orders, cid)
        invariant Honest(last, cid, before, broker.orders, PendingKeys(rows))
        invariant CoveredAtEveryCrash(trace) <==>
          CoveredAtEveryCrash(t0) && RetryKeeps(t0, cid, last.status, k)
      {
        if !Unsure(last.status) {
          return Some(last.(retried := retried)), new_;
        }
        var found;
        found, new_ := Recover(intent, t0, new_);
        retried := true;
        if !found.Body? {
          return Some(SubmitResult(Unavailable, cid, true)), new_;
        }
        if found.status != NotFound {
          return Some(SubmitResult(Submitted, cid, true)), new_;
        }
        LiveWasCreated(t0, cid);
        last, new_ := Attempt(intent, t0, new_);
      }
      result := Some(last.(retried := true));
    }
  }

  /** When the whole retry keeps every crash point covered. */
  predicate RetryKeeps(t: seq<Action>, cid: string, status: ResultStatus, queries: nat) {
    if status == Rejected then cid !in Live(t) && (cid != "" || queries == 0) else cid != ""
  }

  // ---- the recovery sweep ----------------------------------------------------------------------

  /** String order, as the sweep breaks ties between stamps. */
  predicate AtMost(a: string, b: string) {
    a == "" || (b != "" && (a[0] < b[0] || (a[0] == b[0] && AtMost(a[1..], b[1..]))))
  }

  lemma {:induction false} AtMostIsTotal(a: string, b: string)
    ensures AtMost(a, b) || AtMost(b, a)
  {
    if a != "" && b != "" { AtMostIsTotal(a[1..], b[1..]); }
  }

  lemma {:induction false} AtMostIsTransitive(a: string, b: string, c: string)
    requires AtMost(a, b) && AtMost(b, c)
    ensures AtMost(a, c)
  {
    if a != "" && a[0] == b[0] == c[0] { AtMostIsTransitive(a[1..], b[1..], c[1..]); }
  }

  predicate OldestFirst(open: seq<Row>) {
    forall i, j :: 0 <= i < j < |open| ==> Older(open[i], open[j])
  }

  predicate OneRowEach(open: seq<Row>) {
    forall i, j :: 0 <= i < j < |open| ==> open[i].cid != open[j].cid
  }

  /** The stamp a row is sorted by. */
  function Stamp(row: Row): nat {
    if row.PendingRow? then row.at else 0
  }

  predicate Older(a: Row, b: Row) {
    Stamp(a) < Stamp(b) || (Stamp(a) == Stamp(b) && AtMost(a.cid, b.cid))
  }

  lemma OlderOrders()
    ensures Orders(Older)
  {
    forall a: Row, b: Row ensures Older(a, b) || Older(b, a) { AtMostIsTotal(a.cid, b.cid); }
    forall a: Row, b: Row, c: Row | Older(a, b) && Older(b, c) ensures Older(a, c) {
      if AtMost(a.cid, b.cid) && AtMost(b.cid, c.cid) { AtMostIsTransitive(a.cid, b.cid, c.cid); }
    }
  }

  lemma {:induction false} InsertKeepsOneEach(row: Row, open: seq<Row>)
    requires OneRowEach(open) && forall x :: x in open ==> x.cid != row.cid
    ensures OneRowEach(Insert(Older, row, open))
  {
    if open != [] && !Older(row, open[0]) {
      var rest := Insert(Older, row, open[1..]);
      InsertKeepsOneEach(row, open[1..]);
      InsertMembers(Older, row, open[1..]);
      forall k | 0 <= k < |rest| ensures rest[k].cid != open[0].cid {
        assert rest[k] in rest;
      }
    }
  }

  /** The final sort of the sweep. */
  method ByAge(live: map<string, Row>) returns (open: seq<Row>)
    requires forall c :: c in live ==> live[c].PendingRow? && live[c].cid == c
    ensures forall row :: row in open <==> row.cid in live && live[row.cid] == row
    ensures OldestFirst(open) && OneRowEach(open)
  {
    open := [];
    var keys := live.Keys;
    while keys != {}
      invariant keys <= live.Keys
      invariant forall row :: row in open <==> row.cid in live && row.cid !in keys && live[row.cid] == row
      invariant Ordered(Older, open) && OneRowEach(open)
      decreases |keys|
    {
      var k :| k in keys;
      OlderOrders();
      InsertOrders(Older, live[k], open);
      InsertKeepsOneEach(live[k], open);
      InsertMembers(Older, live[k], open);
      open := Insert(Older, live[k], open);
      keys := keys - {k};
    }
  }

  lemma OpenCoversKeys(rows: seq<Row>, open: seq<Row>)
    requires forall row :: row in open <==> IsLive(rows, row)
    ensures forall c :: c in PendingKeys(rows) <==> exists row :: row in open && row.cid == c
  {
    forall c ensures c in PendingKeys(rows) <==> exists row :: row in open && row.cid == c {
      PendingIsLatest(rows, c);
      if c in PendingKeys(rows) {
        LatestIsAboutId(rows, c);
        assert LatestOf(rows, c).value in open;
      }
    }
  }

  lemma {:induction false} LatestIsAboutId(rows: seq<Row>, cid: string)
    ensures LatestOf(rows, cid).Some? ==> LatestOf(rows, cid).value.cid == cid
  {
    if rows != [] { LatestIsAboutId(Init(rows), cid); }
  }

  /** The loop may submit: it is the first attempt, or the last answer was not_found. */
  predicate ReadyToSend(n: seq<Action>, intent: Intent) {
    RetryTrace(n, intent) && (n == [] || NotFoundAnswer(Last(n), intent.cid))
  }

  predicate AtMostOneMore(before: seq<string>, after: seq<string>, cid: string) {
    after == before || after == before + [cid]
  }

  /** What a result tells the caller about the broker and the log. */
  predicate Honest(r: SubmitResult, cid: string, before: seq<string>, after: seq<string>, pending: set<string>) {
    && r.cid == cid
    && (r.status == Submitted ==> cid in after)
    && (r.status == Rejected ==> after == before)
    && (r.status != Rejected && cid != "" ==> cid in pending)
  }

  /** How many of the actions are queries. */
  function Queries(t: seq<Action>): nat {
    if t == [] then 0 else Queries(Init(t)) + if Last(t).Queried? then 1 else 0
  }

  lemma CountsAppend(t: seq<Action>, a: Action)
    ensures Submits(t + [a]) == Submits(t) + if a.Sent? then 1 else 0
    ensures Queries(t + [a]) == Queries(t) + if a.Queried? then 1 else 0
  {
    Append(t, a);
  }

  /** The loop's rules keep the resend discipline. */
  lemma {:induction false} RulesQueryBeforeResend(n: seq<Action>, intent: Intent)
    requires RetryTrace(n, intent)
    ensures QueryBeforeResend(n, intent.cid)
  {
    if n != [] {
      RulesQueryBeforeResend(Init(n), intent);
      if |n| > 2 { assert RetryTrace(Init(Init(n)), intent); }
    }
  }

  lemma {:induction false} RuleAt(n: seq<Action>, intent: Intent, i: nat)
    requires RetryTrace(n, intent) && i + 1 < |n|
    ensures Follows(n[i], n[i + 1], intent)
  {
    if i + 2 < |n| { RuleAt(Init(n), intent, i); }
  }

  /** An order reported missing is always sent again, behind a new pending row; the loop never stops there. */
  lemma NotFoundIsResent(n: seq<Action>, intent: Intent, status: ResultStatus, i: nat)
    requires Ends(n, intent, status) && i < |n| && NotFoundAnswer(n[i], intent.cid)
    ensures i + 2 < |n| && Opens(n[i + 1], intent) && n[i + 2].Sent? && n[i + 2].cid == intent.cid
  {
    RuleAt(n, intent, i);
    RuleAt(n, intent, i + 1);
  }

  /** The query of a retry keeps to the rules, and licenses a submit or ends the loop. */
  lemma AfterQuery(n: seq<Action>, intent: Intent, r: Reply)
    requires AwaitsQuery(n, intent)
    ensures var m := n + [Queried(intent.cid, r)];
      && Submits(m) == Submits(n) && Queries(m) == Queries(n) + 1
      && if r.Body? && r.status == NotFound then ReadyToSend(m, intent)
         else Ends(m, intent, if r.Body? then Submitted else Unavailable) && Last(m).Queried?
  {
    CountsAppend(n, Queried(intent.cid, r));
    Append(n, Queried(intent.cid, r));
  }

  /** The actions of one attempt, behind a start or a not_found answer. */
  lemma AttemptIsTraced(n: seq<Action>, intent: Intent, at: nat, created: bool, r: Reply)
    requires ReadyToSend(n, intent)
    ensures RetryTrace(n + SubmitActions(intent, at, created, r), intent)
  {
    var one := n + [Wrote(PendingRow(intent.cid, intent.intentId, at))];
    var two := one + [Sent(intent.cid, created, r)];
    SubmitInSteps(n, intent, at, created, r);
    assert Init(one) == n && Init(two) == one && Init(two + [Wrote(ResolvedRow(intent.cid, "rejected"))]) == two;
    assert RetryTrace(one, intent) && RetryTrace(two, intent);
  }

  /** One attempt keeps to the rules and ends as it was answered. */
  lemma AfterSubmit(n: seq<Action>, intent: Intent, at: nat, created: bool, r: Reply)
    requires ReadyToSend(n, intent)
    ensures var m := n + SubmitActions(intent, at, created, r);
      && Ends(m, intent, Classify(r)) && (Unsure(Classify(r)) ==> AwaitsQuery(m, intent))
      && Submits(m) == Submits(n) + 1 && Queries(m) == Queries(n)
  {
    AttemptIsTraced(n, intent, at, created, r);
    SubmitCounts(intent, at, created, r);
    CountsConcat(n, SubmitActions(intent, at, created, r));
  }

  lemma {:induction false} CountsConcat(n: seq<Action>, m: seq<Action>)
    ensures Submits(n + m) == Submits(n) + Submits(m) && Queries(n + m) == Queries(n) + Queries(m)
  {
    if m == [] {
      assert n + m == n;
    } else {
      assert Init(n + m) == n + Init(m) && Last(n + m) == Last(m);
      CountsConcat(n, Init(m));
    }
  }

  lemma SubmitCounts(intent: Intent, at: nat, created: bool, r: Reply)
    ensures Submits(SubmitActions(intent, at, created, r)) == 1 && Queries(SubmitActions(intent, at, created, r)) == 0
  {
    var a, b := Wrote(PendingRow(intent.cid, intent.intentId, at)), Sent(intent.cid, created, r);
    var c := Wrote(ResolvedRow(intent.cid, "rejected"));
    CountsAppend([], a);
    CountsAppend([a], b);
    CountsAppend([a, b], c);
    assert [] + [a] == [a] && [a] + [b] == [a, b] && [a, b] + [c] == [a, b, c];
  }

  /** The actions of one submit. */
  function SubmitActions(intent: Intent, at: nat, created: bool, r: Reply): seq<Action> {
    [Wrote(PendingRow(intent.cid, intent.intentId, at)), Sent(intent.cid, created, r)]
    + if Classify(r) == Rejected then [Wrote(ResolvedRow(intent.cid, "rejected"))] else []
  }
}
