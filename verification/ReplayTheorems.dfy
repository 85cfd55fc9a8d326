/** What every replay keeps: its bookkeeping, its intervals, and that no decision sees the future. */
module ReplayTheorems {
  import opened Prelude
  import opened RiskState
  import opened Replay
  import Gate
  import Sizing

  // ---- induction over the nested loop ----------------------------------------------------------

  /** The property survives a visit, and the end of a row is the start of the next. */
  ghost predicate Survives(step: (State, int, nat) -> State, timeline: seq<int>, n: nat,
                           inv: (State, nat, nat) -> bool)
  {
    && (forall st, i, s :: 0 <= i < |timeline| && 0 <= s < n && inv(st, i, s) ==>
      inv(step(st, timeline[i], s), i, s + 1))
    && (forall st, i :: 0 <= i < |timeline| && inv(st, i, n) ==> inv(st, i + 1, 0))
  }

  lemma {:induction false} FoldKeeps(step: (State, int, nat) -> State, start: State, timeline: seq<int>, n: nat,
                                     inv: (State, nat, nat) -> bool, i: nat, j: nat)
    requires j <= n && i <= |timeline| && (i == |timeline| ==> j == 0)
    requires Survives(step, timeline, n, inv) && inv(start, 0, 0)
    ensures inv(Fold(step, start, timeline, n, i, j), i, j)
    decreases i, j
  {
    if j > 0 {
      FoldKeeps(step, start, timeline, n, inv, i, j - 1);
    } else if i > 0 {
      FoldKeeps(step, start, timeline, n, inv, i - 1, n);
    }
  }

  /** How many of the visits have a property, asked of the state before them. */
  function Count(step: (State, int, nat) -> State, takes: (State, int, nat) -> bool, start: State, timeline: seq<int>,
                 n: nat, i: nat, j: nat): nat
    requires j <= n && i <= |timeline| && (i == |timeline| ==> j == 0)
    decreases i, j
  {
    if j > 0 then
      Count(step, takes, start, timeline, n, i, j - 1)
      + if takes(Fold(step, start, timeline, n, i, j - 1), timeline[i], j - 1) then 1 else 0
    else if i == 0 then 0
    else Count(step, takes, start, timeline, n, i - 1, n)
  }

  lemma {:induction false} FoldCounts(step: (State, int, nat) -> State, takes: (State, int, nat) -> bool, start: State,
                                      timeline: seq<int>, n: nat, measure: State -> int, i: nat, j: nat)
    requires j <= n && i <= |timeline| && (i == |timeline| ==> j == 0)
    requires forall st, ts, s :: 0 <= s < n ==>
      measure(step(st, ts, s)) == measure(st) + if takes(st, ts, s) then 1 else 0
    ensures measure(Fold(step, start, timeline, n, i, j))
         == measure(start) + Count(step, takes, start, timeline, n, i, j)
    decreases i, j
  {
    if j > 0 {
      FoldCounts(step, takes, start, timeline, n, measure, i, j - 1);
    } else if i > 0 {
      FoldCounts(step, takes, start, timeline, n, measure, i - 1, n);
    }
  }

  /** The visits so far lie at or before `t`. */
  predicate UpTo(timeline: seq<int>, i: nat, j: nat, t: int) {
    i <= |timeline| && (j > 0 ==> i < |timeline| && timeline[i] <= t) && (i > 0 ==> timeline[i - 1] <= t)
  }

  predicate Increasing(timeline: seq<int>) {
    forall a, b :: 0 <= a < b < |timeline| ==> timeline[a] < timeline[b]
  }

  /** Two loops whose visits agree up to `t` on the states they can meet stay together up to `t`. */
  lemma {:induction false} FoldAgrees(step: (State, int, nat) -> State, other: (State, int, nat) -> State, start: State,
                                      timeline: seq<int>, n: nat, inv: (State, nat, nat) -> bool,
                                      t: int, i: nat, j: nat)
    requires j <= n && (i == |timeline| ==> j == 0) && UpTo(timeline, i, j, t) && Increasing(timeline)
    requires Survives(other, timeline, n, inv) && inv(start, 0, 0)
    requires forall st, k, s :: 0 <= k < |timeline| && 0 <= s < n && timeline[k] <= t && inv(st, k, s) ==>
      step(st, timeline[k], s) == other(st, timeline[k], s)
    ensures Fold(step, start, timeline, n, i, j) == Fold(other, start, timeline, n, i, j)
    decreases i, j
  {
    if j > 0 {
      FoldAgrees(step, other, start, timeline, n, inv, t, i, j - 1);
      FoldKeeps(other, start, timeline, n, inv, i, j - 1);
    } else if i > 0 {
      FoldAgrees(step, other, start, timeline, n, inv, t, i - 1, n);
    }
  }

  // ---- money -----------------------------------------------------------------------------------

  function PnlOf(trades: seq<Row>): real {
    if trades == [] then 0.0 else PnlOf(trades[..|trades| - 1]) + RowPnl(trades[|trades| - 1])
  }

  /** One point per closed trade, each the starting equity plus the results so far. */
  predicate Booked(inp: Input, st: State) {
    && |st.curve| == |st.trades| + 1 && st.realized == PnlOf(st.trades)
    && forall k :: 0 <= k <= |st.trades| ==> st.curve[k] == inp.startingEquity + PnlOf(st.trades[..k])
  }

  // ---- what one visit changes ------------------------------------------------------------------

  predicate ClosedBy(inp: Input, st: State, next: State, s: nat, ts: int, row: Row) {
    && s in st.open && next.open == st.open - {s} && next.trades == st.trades + [row]
    && next.realized == st.realized + RowPnl(row) && next.curve == st.curve + [inp.startingEquity + next.realized]
    && row.symbol == s && row.entryTs == EntryTs(inp, s, st.open[s]) && row.exitTs == ts && row.qty == st.open[s].qty
  }

  predicate SameBooks(st: State, next: State) {
    next.trades == st.trades && next.realized == st.realized && next.curve == st.curve
  }

  lemma ExitShape(inp: Input, st: State, s: nat, idx: nat) returns (row: Row)
    requires s < |inp.bars| && idx < |inp.bars[s]| && !st.raised
    ensures var next := ExitStep(inp, st, s, idx);
      && (s !in st.open ==> next == st)
      && (s in st.open && s in next.open ==>
            && SameBooks(st, next)
            && (next.open == st.open[s := st.open[s].(last := inp.bars[s][idx].close)] || next.raised)
            && (!next.raised ==> idx < |inp.bars[s]| - 1))
      && (s in st.open && s !in next.open ==> ClosedBy(inp, st, next, s, inp.bars[s][idx].ts, row))
  {
    var bar := inp.bars[s][idx];
    row := Row(0, 0, 0, 0, 0.0, 0.0, 0.0, 0.0, 0.0, StopHit);
    if s in st.open && bar.open.Some? {
      var spec := st.open[s].(last := bar.close);
      var exit := ExitFor(spec, bar, idx == |inp.bars[s]| - 1, inp.flatTime);
      if exit.Some? {
        row := CloseTrade(inp, s, spec, exit.value.0, exit.value.1, bar.ts);
      }
    }
  }

  predicate Entered(inp: Input, st: State, next: State, s: nat, idx: nat) {
    && s !in st.open && s in next.open && next.open == st.open[s := next.open[s]]
    && s < |inp.bars| && next.open[s].fill == idx + 1 < |inp.bars[s]|
    && inp.bars[s][idx + 1].open.Some?
  }

  lemma EntryShape(inp: Input, st: State, s: nat, idx: nat)
    requires s < |inp.bars| && idx < |inp.bars[s]| && |inp.names| == |inp.bars|
    ensures var next := EntryStep(inp, st, s, idx);
      && SameBooks(st, next) && next.raised == st.raised
      && if Considers(inp, st, s, idx) && Decide(inp, st, s, idx).Take? then Entered(inp, st, next, s, idx)
         else next.open == st.open
  {
  }

  lemma BookedAppend(inp: Input, st: State, next: State, row: Row)
    requires Booked(inp, st) && next.trades == st.trades + [row] && next.realized == st.realized + RowPnl(row)
    requires next.curve == st.curve + [inp.startingEquity + next.realized]
    ensures Booked(inp, next)
  {
    var n := |st.trades|;
    assert next.trades[..n] == st.trades && next.trades[..n + 1] == next.trades;
    forall k | 0 <= k <= n ensures next.trades[..k] == st.trades[..k] {
    }
  }

  lemma BookedVisit(inp: Input, st: State, ts: int, s: nat)
    requires |inp.names| == |inp.bars| && s < |inp.bars| && Booked(inp, st)
    ensures Booked(inp, Visit(inp, st, ts, s))
  {
    var at := IndexAt(inp.bars[s], ts);
    if !st.raised && at.Some? {
      var row := ExitShape(inp, st, s, at.value);
      var mid := ExitStep(inp, st, s, at.value);
      if s in st.open && s !in mid.open { BookedAppend(inp, st, mid, row); }
      EntryShape(inp, mid, s, at.value);
    }
  }

  function BookedInv(inp: Input): (State, nat, nat) -> bool {
    (st: State, i: nat, j: nat) => Booked(inp, st)
  }

  /** The equity curve at every moment of every replay. */
  lemma CurveIsRunningPnl(inp: Input, i: nat, j: nat)
    requires Wellformed(inp) && j <= |inp.bars| && i <= |inp.timeline| && (i == |inp.timeline| ==> j == 0)
    ensures Booked(inp, After(inp, i, j))
  {
    var step, inv := Stepper(inp), BookedInv(inp);
    forall st, k: nat, s: nat | k < |inp.timeline| && s < |inp.bars| && inv(st, k, s)
      ensures inv(step(st, inp.timeline[k], s), k, s + 1)
    {
      BookedVisit(inp, st, inp.timeline[k], s);
    }
    FoldKeeps(step, Start(inp), inp.timeline, |inp.bars|, inv, i, j);
  }

  // ---- holding intervals -----------------------------------------------------------------------

  /** How many timestamps have been visited for a symbol. */
  function Done(i: nat, j: nat, s: nat): nat {
    if s < j then i + 1 else i
  }

  /** A position decided on or before `now`, filling after it was decided, with a bar still to come. */
  predicate Held(bars: seq<Bar>, spec: Spec, now: int) {
    && 0 < spec.fill < |bars| && bars[spec.fill].open.Some?
    && bars[spec.fill - 1].ts <= now < bars[|bars| - 1].ts
    && bars[spec.fill - 1].ts < bars[spec.fill].ts
  }

  predicate HeldAt(inp: Input, s: nat, spec: Spec, done: nat) {
    s < |inp.bars| && 0 < done <= |inp.timeline| && Held(inp.bars[s], spec, inp.timeline[done - 1])
  }

  predicate ClosedAt(inp: Input, row: Row, done: nat) {
    && row.symbol < |inp.bars| && row.entryTs <= row.exitTs
    && 0 < done <= |inp.timeline| && row.exitTs <= inp.timeline[done - 1]
  }

  predicate AllHeld(inp: Input, open: map<nat, Spec>, i: nat, j: nat) {
    forall s :: s in open ==> HeldAt(inp, s, open[s], Done(i, j, s))
  }

  predicate AllClosed(inp: Input, trades: seq<Row>, i: nat, j: nat) {
    forall a :: 0 <= a < |trades| ==> ClosedAt(inp, trades[a], Done(i, j, trades[a].symbol))
  }

  predicate InOrder(a: Row, b: Row) {
    a.symbol == b.symbol ==> a.exitTs < b.entryTs
  }

  predicate Disjoint(trades: seq<Row>) {
    forall a, b :: 0 <= a < b < |trades| ==> InOrder(trades[a], trades[b])
  }

  /** The trade ended no later than the decision behind the symbol's open position. */
  predicate Precedes(inp: Input, row: Row, open: map<nat, Spec>) {
    row.symbol in open ==>
      && row.symbol < |inp.bars| && 0 < open[row.symbol].fill <= |inp.bars[row.symbol]|
      && row.exitTs <= inp.bars[row.symbol][open[row.symbol].fill - 1].ts
  }

  predicate AllPrecede(inp: Input, trades: seq<Row>, open: map<nat, Spec>) {
    forall a :: 0 <= a < |trades| ==> Precedes(inp, trades[a], open)
  }

  predicate TidyBooks(inp: Input, open: map<nat, Spec>, trades: seq<Row>, i: nat, j: nat) {
    && AllHeld(inp, open, i, j) && AllClosed(inp, trades, i, j)
    && AllPrecede(inp, trades, open) && Disjoint(trades)
  }

  predicate Tidy(inp: Input, st: State, i: nat, j: nat) {
    TidyBooks(inp, st.open, st.trades, i, j)
  }

  /** The bar of a visit lies behind the decision of a held position, so its fill has happened. */
  lemma FillHasHappened(bars: seq<Bar>, spec: Spec, now: int, idx: nat)
    requires Sorted(bars) && Held(bars, spec, now) && idx < |bars| && now < bars[idx].ts
    ensures spec.fill <= idx && bars[spec.fill].ts <= bars[idx].ts
  {
  }

  lemma HeldPut(inp: Input, open: map<nat, Spec>, i: nat, s: nat, spec: Spec)
    requires AllHeld(inp, open, i, s) && HeldAt(inp, s, spec, i + 1)
    ensures AllHeld(inp, open[s := spec], i, s + 1)
  {
  }

  lemma HeldDrop(inp: Input, open: map<nat, Spec>, i: nat, s: nat)
    requires AllHeld(inp, open, i, s)
    ensures AllHeld(inp, open - {s}, i, s + 1)
  {
  }

  lemma ClosedLater(inp: Input, trades: seq<Row>, i: nat, s: nat)
    requires IsTimeline(inp) && i < |inp.timeline| && AllClosed(inp, trades, i, s)
    ensures AllClosed(inp, trades, i, s + 1)
  {
    forall a | 0 <= a < |trades| ensures ClosedAt(inp, trades[a], Done(i, s + 1, trades[a].symbol)) {
      assert ClosedAt(inp, trades[a], Done(i, s, trades[a].symbol));
    }
  }

  /** A position closes at the bar of this visit. */
  lemma CloseKeeps(inp: Input, st: State, next: State, i: nat, s: nat, idx: nat, row: Row)
    requires Wellformed(inp) && i < |inp.timeline| && s < |inp.bars| && idx < |inp.bars[s]|
    requires inp.bars[s][idx].ts == inp.timeline[i] && Tidy(inp, st, i, s)
    requires ClosedBy(inp, st, next, s, inp.timeline[i], row)
    ensures Tidy(inp, next, i, s + 1)
  {
    var spec, n := st.open[s], |st.trades|;
    assert HeldAt(inp, s, spec, Done(i, s, s));
    FillHasHappened(inp.bars[s], spec, inp.timeline[i - 1], idx);
    HeldDrop(inp, st.open, i, s);
    ClosedLater(inp, st.trades, i, s);
    PrecedeDrop(inp, st.trades, st.open, s, row);
    assert ClosedAt(inp, row, i + 1);
  }

  lemma PrecedeDrop(inp: Input, trades: seq<Row>, open: map<nat, Spec>, s: nat, row: Row)
    requires AllPrecede(inp, trades, open) && s in open && s < |inp.bars| && 0 < open[s].fill < |inp.bars[s]|
    requires row.symbol == s && row.entryTs > inp.bars[s][open[s].fill - 1].ts
    ensures AllPrecede(inp, trades + [row], open - {s})
    ensures forall a :: 0 <= a < |trades| ==> InOrder(trades[a], row)
  {
    forall a | 0 <= a < |trades| ensures InOrder(trades[a], row) && Precedes(inp, trades[a], open - {s}) {
      assert Precedes(inp, trades[a], open);
    }
  }

  lemma PrecedePut(inp: Input, trades: seq<Row>, open: map<nat, Spec>, s: nat, spec: Spec)
    requires AllPrecede(inp, trades, open) && s < |inp.bars| && 0 < spec.fill <= |inp.bars[s]|
    requires if s in open then spec.fill == open[s].fill
             else forall a :: 0 <= a < |trades| && trades[a].symbol == s ==>
               trades[a].exitTs <= inp.bars[s][spec.fill - 1].ts
    ensures AllPrecede(inp, trades, open[s := spec])
  {
    forall a | 0 <= a < |trades| ensures Precedes(inp, trades[a], open[s := spec]) {
      assert Precedes(inp, trades[a], open);
    }
  }

  /** A position is kept through this visit. */
  lemma HoldKeeps(inp: Input, st: State, next: State, i: nat, s: nat, last: real)
    requires Wellformed(inp) && i < |inp.timeline| && s < |inp.bars| && Tidy(inp, st, i, s) && s in st.open
    requires next.open == st.open[s := st.open[s].(last := last)] && SameBooks(st, next)
    requires |inp.bars[s]| > 0 && inp.timeline[i] < inp.bars[s][|inp.bars[s]| - 1].ts
    ensures Tidy(inp, next, i, s + 1)
  {
    assert HeldAt(inp, s, st.open[s], Done(i, s, s));
    assert HeldAt(inp, s, next.open[s], i + 1);
    HeldPut(inp, st.open, i, s, next.open[s]);
    ClosedLater(inp, st.trades, i, s);
    PrecedePut(inp, st.trades, st.open, s, next.open[s]);
  }

  /** Nothing of the symbol is open, or there is no bar. */
  lemma IdleKeeps(inp: Input, st: State, i: nat, s: nat)
    requires Wellformed(inp) && i < |inp.timeline| && Tidy(inp, st, i, s) && s !in st.open
    ensures Tidy(inp, st, i, s + 1)
  {
    HeldDrop(inp, st.open, i, s);
    assert st.open - {s} == st.open;
    ClosedLater(inp, st.trades, i, s);
  }

  lemma ExitKeeps(inp: Input, st: State, i: nat, s: nat, idx: nat)
    requires Wellformed(inp) && i < |inp.timeline| && s < |inp.bars| && Tidy(inp, st, i, s) && !st.raised
    requires IndexAt(inp.bars[s], inp.timeline[i]) == Some(idx) && idx < |inp.bars[s]|
    ensures !ExitStep(inp, st, s, idx).raised ==> Tidy(inp, ExitStep(inp, st, s, idx), i, s + 1)
  {
    var next, bars := ExitStep(inp, st, s, idx), inp.bars[s];
    var row := ExitShape(inp, st, s, idx);
    if !next.raised {
      if s !in st.open {
        IdleKeeps(inp, st, i, s);
      } else if s in next.open {
        assert bars[idx].ts <= bars[|bars| - 1].ts;
        HoldKeeps(inp, st, next, i, s, bars[idx].close);
      } else {
        CloseKeeps(inp, st, next, i, s, idx, row);
      }
    }
  }

  lemma EntryKeeps(inp: Input, st: State, next: State, i: nat, s: nat, idx: nat)
    requires Wellformed(inp) && i < |inp.timeline| && s < |inp.bars| && Tidy(inp, st, i, s + 1)
    requires IndexAt(inp.bars[s], inp.timeline[i]) == Some(idx)
    requires SameBooks(st, next) && (next.open == st.open || Entered(inp, st, next, s, idx))
    ensures Tidy(inp, next, i, s + 1)
  {
    if next.open != st.open { EnterKeeps(inp, st.open, st.trades, i, s, idx, next.open[s]); }
  }

  lemma EnterKeeps(inp: Input, open: map<nat, Spec>, trades: seq<Row>, i: nat, s: nat, idx: nat, spec: Spec)
    requires Wellformed(inp) && i < |inp.timeline| && s < |inp.bars| && TidyBooks(inp, open, trades, i, s + 1)
    requires IndexAt(inp.bars[s], inp.timeline[i]) == Some(idx) && s !in open
    requires spec.fill == idx + 1 < |inp.bars[s]| && inp.bars[s][idx + 1].open.Some?
    ensures TidyBooks(inp, open[s := spec], trades, i, s + 1)
  {
    var bars := inp.bars[s];
    assert bars[idx].ts <= bars[idx + 1].ts <= bars[|bars| - 1].ts;
    HeldEnter(inp, open, i, s, spec);
    forall a | 0 <= a < |trades| && trades[a].symbol == s ensures trades[a].exitTs <= bars[idx].ts {
      assert ClosedAt(inp, trades[a], Done(i, s + 1, s));
    }
    PrecedePut(inp, trades, open, s, spec);
  }

  lemma HeldEnter(inp: Input, open: map<nat, Spec>, i: nat, s: nat, spec: Spec)
    requires AllHeld(inp, open, i, s + 1) && HeldAt(inp, s, spec, i + 1)
    ensures AllHeld(inp, open[s := spec], i, s + 1)
  {
  }

  /** The end of one row of visits is the start of the next. */
  lemma TidyNextRow(inp: Input, st: State, i: nat)
    requires Tidy(inp, st, i, |inp.bars|)
    ensures Tidy(inp, st, i + 1, 0)
  {
    forall s | s in st.open ensures HeldAt(inp, s, st.open[s], Done(i + 1, 0, s)) {
      assert HeldAt(inp, s, st.open[s], Done(i, |inp.bars|, s));
    }
    forall a | 0 <= a < |st.trades| ensures ClosedAt(inp, st.trades[a], Done(i + 1, 0, st.trades[a].symbol)) {
      assert ClosedAt(inp, st.trades[a], Done(i, |inp.bars|, st.trades[a].symbol));
    }
  }

  lemma NoBarKeeps(inp: Input, st: State, i: nat, s: nat)
    requires Wellformed(inp) && i < |inp.timeline| && s < |inp.bars| && Tidy(inp, st, i, s)
    requires IndexAt(inp.bars[s], inp.timeline[i]).None?
    ensures Tidy(inp, st, i, s + 1)
  {
    if s in st.open {
      var bars := inp.bars[s];
      assert HeldAt(inp, s, st.open[s], Done(i, s, s));
      LastBarIsAhead(inp, s, i);
      assert st.open[s := st.open[s].(last := st.open[s].last)] == st.open;
      HoldKeeps(inp, st, st, i, s, st.open[s].last);
    } else {
      IdleKeeps(inp, st, i, s);
    }
  }

  lemma LastBarIsAhead(inp: Input, s: nat, i: nat)
    requires Wellformed(inp) && 0 < i < |inp.timeline| && s < |inp.bars| && inp.bars[s] != []
    requires inp.timeline[i - 1] < inp.bars[s][|inp.bars[s]| - 1].ts
    requires IndexAt(inp.bars[s], inp.timeline[i]).None?
    ensures inp.timeline[i] < inp.bars[s][|inp.bars[s]| - 1].ts
  {
    var last := inp.bars[s][|inp.bars[s]| - 1].ts;
    assert last in inp.timeline;
    var k :| 0 <= k < |inp.timeline| && inp.timeline[k] == last;
    assert k > i - 1;
  }

  lemma VisitKeeps(inp: Input, st: State, i: nat, s: nat)
    requires Wellformed(inp) && i < |inp.timeline| && s < |inp.bars|
    requires (!st.raised ==> Tidy(inp, st, i, s)) && !Visit(inp, st, inp.timeline[i], s).raised
    ensures Tidy(inp, Visit(inp, st, inp.timeline[i], s), i, s + 1)
  {
    RaisedStays(inp, st, inp.timeline[i], s);
    var at := IndexAt(inp.bars[s], inp.timeline[i]);
    if at.None? {
      NoBarKeeps(inp, st, i, s);
    } else {
      ExitKeeps(inp, st, i, s, at.value);
      EntryShape(inp, ExitStep(inp, st, s, at.value), s, at.value);
      EntryKeeps(inp, ExitStep(inp, st, s, at.value), Visit(inp, st, inp.timeline[i], s), i, s, at.value);
    }
  }

  predicate TidyUnlessRaised(inp: Input, st: State, i: nat, j: nat) {
    !st.raised ==> Tidy(inp, st, i, j)
  }

  function TidyInv(inp: Input): (State, nat, nat) -> bool {
    (st: State, i: nat, j: nat) => TidyUnlessRaised(inp, st, i, j)
  }

  lemma TidySurvives(inp: Input)
    requires Wellformed(inp)
    ensures Survives(Stepper(inp), inp.timeline, |inp.bars|, TidyInv(inp)) && TidyInv(inp)(Start(inp), 0, 0)
  {
    var step, inv := Stepper(inp), TidyInv(inp);
    forall st, k: nat, s: nat | k < |inp.timeline| && s < |inp.bars| && inv(st, k, s)
      ensures inv(step(st, inp.timeline[k], s), k, s + 1)
    {
      VisitTidies(inp, st, k, s);
    }
    forall st, k: nat | k < |inp.timeline| && inv(st, k, |inp.bars|) ensures inv(st, k + 1, 0) {
      if !st.raised { TidyNextRow(inp, st, k); }
    }
    StartIsTidy(inp);
  }

  lemma EveryMomentIsTidy(inp: Input, i: nat, j: nat)
    requires Wellformed(inp) && j <= |inp.bars| && i <= |inp.timeline| && (i == |inp.timeline| ==> j == 0)
    ensures TidyUnlessRaised(inp, After(inp, i, j), i, j)
  {
    TidySurvives(inp);
    FoldKeeps(Stepper(inp), Start(inp), inp.timeline, |inp.bars|, TidyInv(inp), i, j);
  }

  lemma StartIsTidy(inp: Input)
    requires Wellformed(inp)
    ensures TidyUnlessRaised(inp, Start(inp), 0, 0)
  {
  }

  lemma VisitTidies(inp: Input, st: State, i: nat, s: nat)
    requires Wellformed(inp) && i < |inp.timeline| && s < |inp.bars| && TidyUnlessRaised(inp, st, i, s)
    ensures TidyUnlessRaised(inp, Visit(inp, st, inp.timeline[i], s), i, s + 1)
  {
    if !Visit(inp, st, inp.timeline[i], s).raised { VisitKeeps(inp, st, i, s); }
  }

  lemma RaisedStays(inp: Input, st: State, ts: int, s: nat)
    requires |inp.names| == |inp.bars| && s < |inp.bars| && !Visit(inp, st, ts, s).raised
    ensures !st.raised
    ensures IndexAt(inp.bars[s], ts).Some? ==> !ExitStep(inp, st, s, IndexAt(inp.bars[s], ts).value).raised
  {
  }

  /**
   * When a replay ends nothing is open, and the holding intervals of a symbol are disjoint and
   * ordered: each trade leaves before the next one of its symbol enters.
   */
  lemma ReplayEndsFlat(inp: Input)
    requires Wellformed(inp)
    ensures var end := After(inp, |inp.timeline|, 0);
      !end.raised ==> (end.open == map[] && Disjoint(end.trades) && EnterBeforeExit(end.trades))
  {
    var n := |inp.timeline|;
    var end := After(inp, n, 0);
    EveryMomentIsTidy(inp, n, 0);
    if !end.raised {
      forall s: nat ensures s !in end.open {
        if s < |inp.bars| && inp.bars[s] != [] { LastBarIsPast(inp, s); }
        assert s in end.open ==> HeldAt(inp, s, end.open[s], n);
      }
      assert end.open.Keys == {};
      forall a | 0 <= a < |end.trades| ensures end.trades[a].entryTs <= end.trades[a].exitTs {
        assert ClosedAt(inp, end.trades[a], n);
      }
    }
  }

  predicate EnterBeforeExit(trades: seq<Row>) {
    forall a :: 0 <= a < |trades| ==> trades[a].entryTs <= trades[a].exitTs
  }

  lemma LastBarIsPast(inp: Input, s: nat)
    requires Wellformed(inp) && s < |inp.bars| && inp.bars[s] != []
    ensures |inp.timeline| > 0 && inp.bars[s][|inp.bars[s]| - 1].ts <= inp.timeline[|inp.timeline| - 1]
  {
    assert inp.bars[s][|inp.bars[s]| - 1].ts in inp.timeline;
  }

  // ---- entries and trades ----------------------------------------------------------------------

  predicate Takes(inp: Input, st: State, ts: int, s: nat) {
    && s < |inp.bars| == |inp.names| && !st.raised
    && var at := IndexAt(inp.bars[s], ts);
    at.Some?
    && var mid := ExitStep(inp, st, s, at.value);
    Considers(inp, mid, s, at.value) && Decide(inp, mid, s, at.value).Take?
  }

  function TakesOf(inp: Input, q: nat): (State, int, nat) -> bool {
    (st: State, ts: int, s: nat) => s == q && Takes(inp, st, ts, s)
  }

  /** How often a symbol was entered. */
  function Entries(inp: Input, i: nat, j: nat, q: nat): nat
    requires j <= |inp.bars| && i <= |inp.timeline| && (i == |inp.timeline| ==> j == 0)
  {
    Count(Stepper(inp), TakesOf(inp, q), Start(inp), inp.timeline, |inp.bars|, i, j)
  }

  function TradesOf(trades: seq<Row>, s: nat): nat {
    if trades == [] then 0
    else TradesOf(trades[..|trades| - 1], s) + if trades[|trades| - 1].symbol == s then 1 else 0
  }

  /** The positions of a symbol so far, closed or open. */
  function Opened(st: State, q: nat): nat {
    TradesOf(st.trades, q) + if q in st.open then 1 else 0
  }

  function OpenedOf(q: nat): State -> int {
    (st: State) => Opened(st, q)
  }

  lemma CountedExit(inp: Input, st: State, v: nat, idx: nat, q: nat)
    requires v < |inp.bars| && idx < |inp.bars[v]| && !st.raised
    ensures Opened(ExitStep(inp, st, v, idx), q) == Opened(st, q)
  {
    var row := ExitShape(inp, st, v, idx);
    assert (st.trades + [row])[..|st.trades|] == st.trades;
  }

  lemma CountedEntry(inp: Input, st: State, v: nat, idx: nat, q: nat)
    requires v < |inp.bars| && idx < |inp.bars[v]| && |inp.names| == |inp.bars|
    ensures Opened(EntryStep(inp, st, v, idx), q)
         == Opened(st, q) + if v == q && Considers(inp, st, v, idx) && Decide(inp, st, v, idx).Take? then 1 else 0
  {
    EntryShape(inp, st, v, idx);
  }

  lemma CountedVisit(inp: Input, st: State, ts: int, v: nat, q: nat)
    requires |inp.names| == |inp.bars| && v < |inp.bars|
    ensures Opened(Visit(inp, st, ts, v), q) == Opened(st, q) + if v == q && Takes(inp, st, ts, v) then 1 else 0
  {
    var at := IndexAt(inp.bars[v], ts);
    if at.Some? && !st.raised {
      CountedExit(inp, st, v, at.value, q);
      CountedEntry(inp, ExitStep(inp, st, v, at.value), v, at.value, q);
    }
  }

  /** At every moment a symbol has been entered once per trade row, plus once if it is open. */
  lemma EveryEntryIsAccounted(inp: Input, i: nat, j: nat, q: nat)
    requires Wellformed(inp) && j <= |inp.bars| && i <= |inp.timeline| && (i == |inp.timeline| ==> j == 0)
    ensures var st := After(inp, i, j);
      Entries(inp, i, j, q) == TradesOf(st.trades, q) + if q in st.open then 1 else 0
  {
    var step, takes, measure := Stepper(inp), TakesOf(inp, q), OpenedOf(q);
    forall st, ts, s: nat | s < |inp.bars|
      ensures measure(step(st, ts, s)) == measure(st) + if takes(st, ts, s) then 1 else 0
    {
      CountedVisit(inp, st, ts, s, q);
    }
    FoldCounts(step, takes, Start(inp), inp.timeline, |inp.bars|, measure, i, j);
  }

  /** Every entry of a finished replay produced exactly one trade row. */
  lemma EntriesAreTrades(inp: Input, s: nat)
    requires Wellformed(inp)
    ensures var end := After(inp, |inp.timeline|, 0);
      !end.raised ==> Entries(inp, |inp.timeline|, 0, s) == TradesOf(end.trades, s)
  {
    ReplayEndsFlat(inp);
    EveryEntryIsAccounted(inp, |inp.timeline|, 0, s);
  }

  // ---- no lookahead ----------------------------------------------------------------------------

  /** The same replay over other bars. */
  function Over(inp: Input, bars: seq<seq<Bar>>): Input {
    inp.(bars := bars)
  }

  /** Same timestamps and the same opens present, everything equal up to `t`. */
  predicate AgreeUpTo(a: seq<seq<Bar>>, b: seq<seq<Bar>>, t: int) {
    |a| == |b| && forall s :: 0 <= s < |a| ==> AgreeBars(a[s], b[s], t)
  }

  predicate AgreeBars(a: seq<Bar>, b: seq<Bar>, t: int) {
    |a| == |b| && forall k :: 0 <= k < |a| ==> AgreeBar(a[k], b[k], t)
  }

  predicate AgreeBar(x: Bar, y: Bar, t: int) {
    x.ts == y.ts && (x.open.Some? <==> y.open.Some?) && (x.ts <= t ==> x == y)
  }

  /** A context without the average entry prices of the open positions. */
  function Blind(ctx: Context): Context {
    ctx.(book := ctx.book.(positions := BlindAll(ctx.book.positions)))
  }

  function BlindAll(ps: seq<Position>): seq<Position> {
    if ps == [] then [] else BlindAll(ps[..|ps| - 1]) + [ps[|ps| - 1].(avgEntry := 0.0)]
  }

  ghost predicate IgnoresEntryPrices(judge: Context -> Judged) {
    forall c, d :: Blind(c) == Blind(d) ==> judge(c) == judge(d)
  }

  /** It is enough that the gate and the caps ignore them; the sizer sees the request alone. */
  lemma SizerIgnoresEntryPrices(gate: Context -> Gate.GateDecision, caps: Context -> Sizing.SizingCaps)
    requires forall c, d :: Blind(c) == Blind(d) ==> gate(c) == gate(d) && caps(c) == caps(d)
    ensures IgnoresEntryPrices(JudgeOf(gate, caps))
  {
    forall c, d | Blind(c) == Blind(d) ensures JudgeOf(gate, caps)(c) == JudgeOf(gate, caps)(d) {
      assert c.request == Blind(c).request && d.request == Blind(d).request;
    }
  }

  lemma {:induction false} SameIndex(a: seq<Bar>, b: seq<Bar>, ts: int, t: int)
    requires AgreeBars(a, b, t)
    ensures IndexAt(a, ts) == IndexAt(b, ts)
  {
    if a != [] { SameIndex(a[..|a| - 1], b[..|b| - 1], ts, t); }
  }

  lemma PositionAppended(ps: seq<Position>, p: Position)
    ensures BlindAll(ps + [p]) == BlindAll(ps) + [p.(avgEntry := 0.0)]
    ensures Deployed(ps + [p]) == Deployed(ps) + p.Notional()
  {
    assert (ps + [p])[..|ps|] == ps;
  }

  lemma SamePosition(a: Input, b: Input, s: nat, spec: Spec)
    requires a.names == b.names && a.sleeve == b.sleeve && s < |a.names|
    ensures PositionOf(a, s, spec).(avgEntry := 0.0) == PositionOf(b, s, spec).(avgEntry := 0.0)
    ensures PositionOf(a, s, spec).Notional() == PositionOf(b, s, spec).Notional()
  {
  }

  lemma {:induction false} SamePositions(a: Input, b: Input, open: map<nat, Spec>, n: nat)
    requires a.names == b.names && a.sleeve == b.sleeve
    ensures BlindAll(Positions(a, open, n)) == BlindAll(Positions(b, open, n))
    ensures Deployed(Positions(a, open, n)) == Deployed(Positions(b, open, n))
  {
    if n > 0 {
      SamePositions(a, b, open, n - 1);
      var pa, pb := Positions(a, open, n - 1), Positions(b, open, n - 1);
      if n - 1 in open && n - 1 < |a.names| {
        SamePosition(a, b, n - 1, open[n - 1]);
        PositionAppended(pa, PositionOf(a, n - 1, open[n - 1]));
        PositionAppended(pb, PositionOf(b, n - 1, open[n - 1]));
      } else {
        assert Positions(a, open, n) == pa && Positions(b, open, n) == pb;
      }
    }
  }

  /** From equal states, a decision up to `t` is put to the gate on equal terms. */
  lemma SameContext(inp: Input, b: seq<seq<Bar>>, st: State, s: nat, idx: nat, stop: real, t: int)
    requires |inp.names| == |inp.bars| && AgreeUpTo(inp.bars, b, t) && s < |b| && idx < |b[s]| && b[s][idx].ts <= t
    requires Sorted(b[s])
    ensures idx < |inp.bars[s]|
      && Blind(ContextAt(inp, st, s, idx, stop)) == Blind(ContextAt(Over(inp, b), st, s, idx, stop))
  {
    SamePositions(inp, Over(inp, b), st.open, |inp.names|);
    assert AgreeBars(inp.bars[s], b[s], t);
    forall k | 0 <= k <= idx ensures inp.bars[s][k] == b[s][k] {
      assert b[s][k].ts <= b[s][idx].ts && AgreeBar(inp.bars[s][k], b[s][k], t);
    }
    assert inp.bars[s][..idx + 1] == b[s][..idx + 1];
  }

  lemma SameEntry(inp: Input, b: seq<seq<Bar>>, st: State, s: nat, idx: nat, t: int)
    requires |inp.names| == |inp.bars| && AgreeUpTo(inp.bars, b, t) && s < |b| && idx < |b[s]| && b[s][idx].ts <= t
    requires Sorted(b[s]) && IgnoresEntryPrices(inp.judge)
    ensures idx < |inp.bars[s]| && EntryStep(inp, st, s, idx) == EntryStep(Over(inp, b), st, s, idx)
  {
    assert AgreeBars(inp.bars[s], b[s], t) && AgreeBar(inp.bars[s][idx], b[s][idx], t);
    var bar := b[s][idx];
    if idx + 1 < |b[s]| { assert AgreeBar(inp.bars[s][idx + 1], b[s][idx + 1], t); }
    if bar.stop.Some? {
      SameContext(inp, b, st, s, idx, bar.stop.value, t);
    }
    SameDecision(inp, Over(inp, b), st, s, idx);
  }

  lemma SameDecision(inp: Input, other: Input, st: State, s: nat, idx: nat)
    requires |inp.names| == |inp.bars| == |other.bars| == |other.names| && s < |inp.bars|
    requires |inp.bars[s]| == |other.bars[s]| && idx < |inp.bars[s]| && inp.bars[s][idx] == other.bars[s][idx]
    requires idx + 1 < |inp.bars[s]| ==> (inp.bars[s][idx + 1].open.Some? <==> other.bars[s][idx + 1].open.Some?)
    requires inp.window == other.window
    requires var bar := inp.bars[s][idx];
      bar.stop.Some? ==>
        inp.judge(ContextAt(inp, st, s, idx, bar.stop.value))
        == other.judge(ContextAt(other, st, s, idx, bar.stop.value))
    ensures Decide(inp, st, s, idx) == Decide(other, st, s, idx)
  {
  }

  lemma SameClose(inp: Input, other: Input, s: nat, spec: Spec, exit: real, why: ExitReason, ts: int)
    requires EntryPx(inp, s, spec) == EntryPx(other, s, spec) && EntryTs(inp, s, spec) == EntryTs(other, s, spec)
    requires inp.costs == other.costs && inp.impact == other.impact
    ensures CloseTrade(inp, s, spec, exit, why, ts) == CloseTrade(other, s, spec, exit, why, ts)
  {
  }

  lemma SameExit(inp: Input, b: seq<seq<Bar>>, st: State, s: nat, idx: nat, t: int)
    requires |inp.names| == |inp.bars| && AgreeUpTo(inp.bars, b, t) && s < |b| && idx < |b[s]| && b[s][idx].ts <= t
    requires s in st.open ==> st.open[s].fill < |b[s]| && b[s][st.open[s].fill].ts <= t
    ensures idx < |inp.bars[s]| && ExitStep(inp, st, s, idx) == ExitStep(Over(inp, b), st, s, idx)
  {
    assert AgreeBars(inp.bars[s], b[s], t) && AgreeBar(inp.bars[s][idx], b[s][idx], t);
    if s in st.open {
      var bar := b[s][idx];
      var spec := st.open[s].(last := bar.close);
      assert AgreeBar(inp.bars[s][spec.fill], b[s][spec.fill], t);
      if bar.open.Some? {
        var exit := ExitFor(spec, bar, idx == |b[s]| - 1, inp.flatTime);
        if exit.Some? { SameClose(inp, Over(inp, b), s, spec, exit.value.0, exit.value.1, bar.ts); }
      }
    }
  }

  lemma AgreeingIsWellformed(inp: Input, b: seq<seq<Bar>>, t: int)
    requires Wellformed(inp) && AgreeUpTo(inp.bars, b, t)
    ensures Wellformed(Over(inp, b))
  {
    forall s, k | 0 <= s < |b| && 0 <= k < |b[s]| ensures b[s][k].ts in inp.timeline {
      assert AgreeBars(inp.bars[s], b[s], t) && AgreeBar(inp.bars[s][k], b[s][k], t);
    }
    forall s | 0 <= s < |b| ensures Sorted(b[s]) {
      assert AgreeBars(inp.bars[s], b[s], t) && Sorted(inp.bars[s]);
      forall k, l | 0 <= k < l < |b[s]| ensures b[s][k].ts <= b[s][l].ts {
        assert AgreeBar(inp.bars[s][k], b[s][k], t) && AgreeBar(inp.bars[s][l], b[s][l], t);
      }
    }
  }

  lemma SameVisit(inp: Input, b: seq<seq<Bar>>, st: State, i: nat, s: nat, t: int)
    requires Wellformed(Over(inp, b)) && |inp.names| == |inp.bars| && AgreeUpTo(inp.bars, b, t) && s < |b|
    requires IgnoresEntryPrices(inp.judge) && i < |inp.timeline| && inp.timeline[i] <= t
    requires !st.raised ==> Tidy(Over(inp, b), st, i, s)
    ensures Visit(inp, st, inp.timeline[i], s) == Visit(Over(inp, b), st, inp.timeline[i], s)
  {
    var ts := inp.timeline[i];
    assert AgreeBars(inp.bars[s], b[s], t);
    SameIndex(inp.bars[s], b[s], ts, t);
    var at := IndexAt(b[s], ts);
    if !st.raised && at.Some? {
      if s in st.open { FillHasHappened(b[s], st.open[s], inp.timeline[i - 1], at.value); }
      SameExit(inp, b, st, s, at.value, t);
      SameEntry(inp, b, ExitStep(inp, st, s, at.value), s, at.value, t);
    }
  }

  lemma {:induction false} SameStart(inp: Input, b: seq<seq<Bar>>, t: int, n: nat)
    requires AgreeUpTo(inp.bars, b, t) && n <= |b|
    ensures StartSkips(inp, n) == StartSkips(Over(inp, b), n)
  {
    if n > 0 {
      SameStart(inp, b, t, n - 1);
      assert AgreeBars(inp.bars[n - 1], b[n - 1], t);
      if b[n - 1] != [] { assert AgreeBar(inp.bars[n - 1][0], b[n - 1][0], t); }
    }
  }

  /**
   * No lookahead: over two bar sets that agree up to `t`, with a gate and caps that do not read
   * average entry prices, the replay is in the same state throughout, up to and including `t`.
   */
  lemma NoLookahead(inp: Input, b: seq<seq<Bar>>, t: int, i: nat, j: nat)
    requires Wellformed(inp) && AgreeUpTo(inp.bars, b, t) && IgnoresEntryPrices(inp.judge)
    requires j <= |b| && UpTo(inp.timeline, i, j, t) && (i == |inp.timeline| ==> j == 0)
    ensures After(inp, i, j) == After(Over(inp, b), i, j)
  {
    var other := Over(inp, b);
    AgreeingIsWellformed(inp, b, t);
    TidySurvives(other);
    var step, step', inv := Stepper(inp), Stepper(other), TidyInv(other);
    forall st, k: nat, s: nat | k < |inp.timeline| && s < |b| && inp.timeline[k] <= t && inv(st, k, s)
      ensures step(st, inp.timeline[k], s) == step'(st, inp.timeline[k], s)
    {
      SameVisit(inp, b, st, k, s, t);
    }
    SameStart(inp, b, t, |b|);
    FoldAgrees(step, step', Start(other), inp.timeline, |b|, inv, t, i, j);
  }

  /** So every signal up to `t` is put to the gate with the same bars, request, quote, equity and cash. */
  lemma DecisionsSeeNoFuture(inp: Input, b: seq<seq<Bar>>, t: int, i: nat, j: nat, stop: real)
    requires Wellformed(inp) && AgreeUpTo(inp.bars, b, t) && IgnoresEntryPrices(inp.judge)
    requires i < |inp.timeline| && j < |b| && inp.timeline[i] <= t
    requires !After(inp, i, j).raised
    ensures var at := IndexAt(b[j], inp.timeline[i]);
      IndexAt(inp.bars[j], inp.timeline[i]) == at
      && (at.Some? ==>
            && at.value < |inp.bars[j]|
            && Blind(ContextAt(inp, ExitStep(inp, After(inp, i, j), j, at.value), j, at.value, stop))
               == Blind(ContextAt(Over(inp, b), ExitStep(Over(inp, b), After(Over(inp, b), i, j), j, at.value), j,
                 at.value, stop)))
  {
    var st, at := After(inp, i, j), IndexAt(b[j], inp.timeline[i]);
    assert AgreeBars(inp.bars[j], b[j], t);
    SameIndex(inp.bars[j], b[j], inp.timeline[i], t);
    AgreeingIsWellformed(inp, b, t);
    NoLookahead(inp, b, t, i, j);
    EveryMomentIsTidy(Over(inp, b), i, j);
    if at.Some? {
      if j in st.open {
        assert HeldAt(Over(inp, b), j, st.open[j], Done(i, j, j));
        FillHasHappened(b[j], st.open[j], inp.timeline[i - 1], at.value);
      }
      SameExit(inp, b, st, j, at.value, t);
      SameContext(inp, b, ExitStep(inp, st, j, at.value), j, at.value, stop, t);
    }
  }

  /**
   * What the gate must not read: a position entered at a visit is shown to the decisions that follow
   * at the same timestamp with the open of a bar that lies in their future.
   */
  lemma FreshEntryIsPricedAhead(inp: Input, st: State, i: nat, s: nat)
    requires Wellformed(inp) && i < |inp.timeline| && s < |inp.bars| && Takes(inp, st, inp.timeline[i], s)
    ensures var next := Visit(inp, st, inp.timeline[i], s);
      && s in next.open && PositionOf(inp, s, next.open[s]).avgEntry == EntryPx(inp, s, next.open[s])
      && EntryTs(inp, s, next.open[s]) > inp.timeline[i]
  {
    var idx := IndexAt(inp.bars[s], inp.timeline[i]).value;
    assert inp.bars[s][idx].ts <= inp.bars[s][idx + 1].ts;
  }

  // ---- exits -----------------------------------------------------------------------------------

  predicate Sane(bar: Bar) {
    bar.open.Some? && bar.low <= bar.open.value <= bar.high && bar.low <= bar.close <= bar.high
  }

  /**
   * An exit trades inside its bar, a stop never better than its level and a target never worse, and
   * a bar that touches both levels exits at the stop.
   */
  lemma ExitTradesInsideTheBar(spec: Spec, bar: Bar, isLast: bool, flatTime: Option<int>)
    requires Sane(bar)
    ensures var exit := ExitFor(spec, bar, isLast, flatTime);
      var touched := if spec.side.Buy? then bar.low <= spec.stop else bar.high >= spec.stop;
      && (isLast ==> exit.Some?)
      && (exit.Some? ==> bar.low <= exit.value.0 <= bar.high)
      && (exit.Some? && exit.value.1 == StopHit <==> touched)
      && (touched ==> if spec.side.Buy? then exit.value.0 <= spec.stop else exit.value.0 >= spec.stop)
      && (exit.Some? && exit.value.1 == TargetHit ==>
            spec.target.Some? && if spec.side.Buy? then exit.value.0 >= spec.target.value
              else exit.value.0 <= spec.target.value)
  {
  }

  lemma PnlArithmetic(q: real, a: real, x: real, l0: real, l1: real, fees: real)
    ensures q * x - q * a - fees - 2.0 * (q * a * ((l0 + l1) / 2.0) / 10000.0)
         == (q * x - q * a - (q * a * l0 / 10000.0 + q * x * l1 / 10000.0) - fees) + (q * x - q * a) * l1 / 10000.0
  {
    var u, v := q * a, q * x;
    assert u * ((l0 + l1) / 2.0) * 2.0 == u * l0 + u * l1;
    assert (v - u) * l1 == v * l1 - u * l1;
  }

  /**
   * The result rebuilt from a row against the result of the trade: for a long they differ by the
   * exit leg's cost on the move alone.
   */
  lemma RowPnlOfLong(inp: Input, s: nat, spec: Spec, exit: real, why: ExitReason, exitTs: int)
    requires spec.side.Buy?
    ensures var row := CloseTrade(inp, s, spec, exit, why, exitTs);
      var move := Value(spec.qty, exit) - Value(spec.qty, row.entryPx);
      RowPnl(row) == NetPnl(inp, spec, row.entryPx, exit, row.entryTs, exitTs)
                     + Bps(move, LegBps(inp, spec, Value(spec.qty, exit)))
  {
    var row := CloseTrade(inp, s, spec, exit, why, exitTs);
    var q, a := spec.qty as real, row.entryPx;
    PnlArithmetic(q, a, exit, LegBps(inp, spec, Value(spec.qty, a)), LegBps(inp, spec, Value(spec.qty, exit)),
      row.feesUsd);
  }
}
