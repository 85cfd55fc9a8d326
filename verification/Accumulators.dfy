/**
 * One-pass accumulators of the validation code, proved against their plain definitions: the
 * drawdown of signald/lineage.py and the holding time of signald/validation/harness.py.
 */
module Accumulators {
  import opened Prelude

  // ---- maximum drawdown ------------------------------------------------------------------------

  /** The cumulative path after `j` values. */
  function Path(values: seq<real>, j: nat): real
    requires j <= |values|
  {
    if j == 0 then 0.0 else Path(values, j - 1) + values[j - 1]
  }

  /** The fall of the path from `i` to `j`. */
  function Fall(values: seq<real>, i: nat, j: nat): real
    requires i <= |values| && j <= |values|
  {
    Path(values, i) - Path(values, j)
  }

  predicate PeakAt(values: seq<real>, n: nat, top: nat) {
    top <= n <= |values| && forall i :: 0 <= i <= n ==> Path(values, i) <= Path(values, top)
  }

  predicate WorstFall(values: seq<real>, n: nat, from: nat, to: nat) {
    from <= to <= n <= |values| && forall i, j :: 0 <= i <= j <= n ==> Fall(values, i, j) <= Fall(values, from, to)
  }

  /** `d` is the largest fall from any point of the path to any later one, the start included. */
  predicate IsMaxDrawdown(values: seq<real>, d: real) {
    exists i, j :: 0 <= i <= j <= |values| && WorstFall(values, |values|, i, j) && Fall(values, i, j) == d
  }

  /** One more value: the peak and the worst fall move as the loop moves them. */
  lemma DrawdownStep(values: seq<real>, n: nat, top: nat, from: nat, to: nat)
    requires n < |values| && PeakAt(values, n, top) && WorstFall(values, n, from, to)
    ensures Path(values, n + 1) > Path(values, top) ==>
      PeakAt(values, n + 1, n + 1) && WorstFall(values, n + 1, from, to)
    ensures Path(values, n + 1) <= Path(values, top) ==> PeakAt(values, n + 1, top)
    ensures Path(values, n + 1) <= Path(values, top) && Fall(values, top, n + 1) > Fall(values, from, to) ==>
      WorstFall(values, n + 1, top, n + 1)
    ensures Path(values, n + 1) <= Path(values, top) && Fall(values, top, n + 1) <= Fall(values, from, to) ==>
      WorstFall(values, n + 1, from, to)
  {
    var m := n + 1;
    assert Fall(values, 0, 0) <= Fall(values, from, to);
    forall i | 0 <= i <= m
      ensures Fall(values, i, m) <= RMax(Fall(values, top, m), Fall(values, from, to))
    {
      if i == m { assert Fall(values, i, m) == 0.0 == Fall(values, 0, 0); }
    }
  }

  /** `_max_drawdown`: one pass with a running peak. */
  method MaxDrawdown(values: seq<real>) returns (drawdown: real)
    ensures IsMaxDrawdown(values, drawdown)
  {
    var peak, cumulative := 0.0, 0.0;
    drawdown := 0.0;
    ghost var top, from, to := 0, 0, 0;
    for n := 0 to |values|
      invariant cumulative == Path(values, n)
      invariant PeakAt(values, n, top) && peak == Path(values, top)
      invariant WorstFall(values, n, from, to) && drawdown == Fall(values, from, to) >= 0.0
    {
      DrawdownStep(values, n, top, from, to);
      cumulative := cumulative + values[n];
      if cumulative > peak {
        peak, top := cumulative, n + 1;
      }
      if peak - cumulative > drawdown {
        drawdown, from, to := peak - cumulative, top, n + 1;
      }
    }
  }

  /** The definition names one number, and it is zero exactly when no value is a loss. */
  lemma MaxDrawdownMeaning(values: seq<real>, d: real)
    requires IsMaxDrawdown(values, d)
    ensures forall e :: IsMaxDrawdown(values, e) ==> e == d
    ensures d >= 0.0
    ensures d == 0.0 <==> forall k :: 0 <= k < |values| ==> values[k] >= 0.0
  {
    var i, j :| 0 <= i <= j <= |values| && WorstFall(values, |values|, i, j) && Fall(values, i, j) == d;
    assert Fall(values, 0, 0) <= d;
    forall e | IsMaxDrawdown(values, e) ensures e == d {
      var k, l :| 0 <= k <= l <= |values| && WorstFall(values, |values|, k, l) && Fall(values, k, l) == e;
    }
    if forall k :: 0 <= k < |values| ==> values[k] >= 0.0 {
      RisingPath(values, i, j);
    } else {
      var k :| 0 <= k < |values| && values[k] < 0.0;
      assert Fall(values, k, k + 1) > 0.0;
    }
  }

  lemma {:induction false} RisingPath(values: seq<real>, i: nat, j: nat)
    requires i <= j <= |values| && forall k :: 0 <= k < |values| ==> values[k] >= 0.0
    ensures Path(values, i) <= Path(values, j)
  {
    if i < j { RisingPath(values, i, j - 1); }
  }

  // ---- holding time ----------------------------------------------------------------------------

  /** One trade's holding interval, in clock ticks; the end is exclusive. */
  datatype Holding = Holding(entry: int, exit: int)

  predicate Contains(h: Holding, t: int) {
    h.entry <= t < h.exit
  }

  /** The ticks of one interval. */
  function Ticks(a: int, b: int): (s: set<int>)
    ensures forall t :: t in s <==> a <= t < b
    ensures |s| == IMax(0, b - a)
    decreases b - a
  {
    if b <= a then {} else Ticks(a, b - 1) + {b - 1}
  }

  /** Every tick at which some trade was held. */
  function Covered(hs: seq<Holding>): set<int> {
    if hs == [] then {} else Covered(hs[..|hs| - 1]) + Ticks(hs[|hs| - 1].entry, hs[|hs| - 1].exit)
  }

  lemma {:induction false} CoveredMembers(hs: seq<Holding>)
    ensures forall t :: t in Covered(hs) <==> exists h :: h in hs && Contains(h, t)
  {
    if hs != [] {
      var init, last := hs[..|hs| - 1], hs[|hs| - 1];
      CoveredMembers(init);
      assert hs == init + [last];
      assert forall t :: Contains(last, t) <==> t in Ticks(last.entry, last.exit);
    }
  }

  lemma SubsetSize(a: set<int>, b: set<int>)
    requires a <= b
    ensures |a| <= |b|
  {
    assert b == a + (b - a);
    assert |b| == |a| + |b - a|;
  }

  predicate Ascending(hs: seq<Holding>) {
    forall i, j :: 0 <= i < j < |hs| ==> hs[i].entry <= hs[j].entry
  }

  /** Tuple order: by entry, then by exit. */
  predicate Precedes(a: Holding, b: Holding) {
    a.entry < b.entry || (a.entry == b.entry && a.exit <= b.exit)
  }

  /** Trades held for a positive time. */
  function Positive(hs: seq<Holding>): (r: seq<Holding>)
    ensures forall h :: h in r <==> h in hs && h.exit > h.entry
  {
    if hs == [] then []
    else
      var rest, last := Positive(hs[..|hs| - 1]), hs[|hs| - 1];
      assert hs == hs[..|hs| - 1] + [last];
      if last.exit > last.entry then rest + [last] else rest
  }

  lemma SameCover(a: seq<Holding>, b: seq<Holding>)
    requires forall h :: h in a <==> h in b && h.exit > h.entry
    ensures Covered(a) == Covered(b)
  {
    CoveredMembers(a);
    CoveredMembers(b);
    forall t ensures t in Covered(a) <==> t in Covered(b) {
      if t in Covered(b) {
        var h :| h in b && Contains(h, t);
        assert h in a;
      }
    }
  }

  /** What the sweep knows: closed blocks lie strictly before the open one, and nothing is missing. */
  ghost predicate Swept(covered: set<int>, closed: set<int>, start: int, end: int, total: int) {
    && start < end && total == |closed|
    && (forall t :: t in closed ==> t < start)
    && (forall t :: t in covered <==> t in closed || start <= t < end)
  }

  lemma SweepExtend(covered: set<int>, closed: set<int>, start: int, end: int, total: int, h: Holding)
    requires Swept(covered, closed, start, end, total) && h.entry < h.exit && start <= h.entry <= end
    ensures Swept(covered + Ticks(h.entry, h.exit), closed, start, IMax(end, h.exit), total)
  {
  }

  lemma SweepClose(covered: set<int>, closed: set<int>, start: int, end: int, total: int, h: Holding)
    requires Swept(covered, closed, start, end, total) && h.entry < h.exit && end < h.entry
    ensures Swept(covered + Ticks(h.entry, h.exit), closed + Ticks(start, end), h.entry, h.exit,
                  total + (end - start))
  {
    assert closed !! Ticks(start, end);
  }

  lemma SweepEnd(covered: set<int>, closed: set<int>, start: int, end: int, total: int)
    requires Swept(covered, closed, start, end, total)
    ensures |covered| == total + (end - start)
  {
    assert closed !! Ticks(start, end);
    assert covered == closed + Ticks(start, end);
  }

  lemma CoveredNext(hs: seq<Holding>, i: nat)
    requires i < |hs|
    ensures Covered(hs[..i + 1]) == Covered(hs[..i]) + Ticks(hs[i].entry, hs[i].exit)
  {
    assert hs[..i + 1][..i] == hs[..i];
  }

  /**
   * `_merged_holding_seconds`: sort the intervals, then sweep them once. The total is the measure
   * of their union, whatever their order and overlaps.
   */
  method MergedHolding(rows: seq<Holding>) returns (total: int)
    ensures total == |Covered(rows)|
  {
    var held := Positive(rows);
    var intervals := Sort(Precedes, held);
    SortOrders(Precedes, held);
    SortMembers(Precedes, held);
    SameCover(intervals, rows);
    total := 0;
    if intervals == [] { return; }
    total := Sweep(intervals);
  }

  method Sweep(intervals: seq<Holding>) returns (total: int)
    requires intervals != [] && Ascending(intervals)
    requires forall k :: 0 <= k < |intervals| ==> intervals[k].entry < intervals[k].exit
    ensures total == |Covered(intervals)|
  {
    total := 0;
    var start, end := intervals[0].entry, intervals[0].exit;
    ghost var closed: set<int> := {};
    CoveredNext(intervals, 0);
    ghost var covered := Covered(intervals[..1]);
    for i := 1 to |intervals|
      invariant covered == Covered(intervals[..i])
      invariant Swept(covered, closed, start, end, total)
      invariant start <= intervals[i - 1].entry
    {
      var h := intervals[i];
      CoveredNext(intervals, i);
      if h.entry <= end {
        SweepExtend(covered, closed, start, end, total, h);
        end := IMax(end, h.exit);
      } else {
        SweepClose(covered, closed, start, end, total, h);
        closed := closed + Ticks(start, end);
        total := total + (end - start);
        start, end := h.entry, h.exit;
      }
      covered := covered + Ticks(h.entry, h.exit);
    }
    assert intervals[..|intervals|] == intervals;
    SweepEnd(covered, closed, start, end, total);
    total := total + (end - start);
  }

  predicate Within(rows: seq<Holding>, first: int, last: int) {
    forall h :: h in rows ==> first <= h.entry && h.exit <= last
  }

  predicate EntryOf(rows: seq<Holding>, first: int) {
    exists h :: h in rows && h.entry == first
  }

  predicate ExitOf(rows: seq<Holding>, last: int) {
    exists h :: h in rows && h.exit == last
  }

  /** Time held never exceeds the span from the first entry to the last exit. */
  lemma HoldingWithinSpan(rows: seq<Holding>, first: int, last: int)
    requires first <= last && Within(rows, first, last)
    ensures |Covered(rows)| <= last - first
  {
    CoveredMembers(rows);
    SubsetSize(Covered(rows), Ticks(first, last));
  }

  /** The span of `summarize`. */
  method Span(rows: seq<Holding>) returns (first: int, last: int)
    requires rows != []
    ensures Within(rows, first, last) && EntryOf(rows, first) && ExitOf(rows, last)
  {
    first, last := rows[0].entry, rows[0].exit;
    for i := 1 to |rows|
      invariant Within(rows[..i], first, last) && EntryOf(rows, first) && ExitOf(rows, last)
    {
      assert rows[..i + 1] == rows[..i] + [rows[i]];
      assert rows[i] in rows;
      first, last := IMin(first, rows[i].entry), IMax(last, rows[i].exit);
    }
    assert rows[..|rows|] == rows;
  }

  /** The exposure of `summarize`: the source clamps the ratio at 1, and the clamp never binds. */
  method ExposurePct(rows: seq<Holding>) returns (exposure: Option<real>, first: int, last: int)
    requires rows != []
    ensures Within(rows, first, last) && EntryOf(rows, first) && ExitOf(rows, last)
    ensures exposure.None? <==> last <= first
    ensures exposure.Some? ==> exposure.value == |Covered(rows)| as real / (last - first) as real
    ensures exposure.Some? ==> 0.0 <= exposure.value <= 1.0
  {
    first, last := Span(rows);
    var merged := MergedHolding(rows);
    if last - first <= 0 { return None, first, last; }
    HoldingWithinSpan(rows, first, last);
    ShareOfSpan(merged, last - first);
    exposure := Some(RMin(1.0, merged as real / (last - first) as real));
  }

  lemma ShareOfSpan(m: int, s: int)
    requires 0 <= m <= s && s > 0
    ensures 0.0 <= m as real / s as real <= 1.0
  {
    DivLe(0.0, m as real, s as real);
    DivLe(m as real / s as real, s as real, s as real);
    DivLe(m as real / s as real, m as real, s as real);
  }
}
