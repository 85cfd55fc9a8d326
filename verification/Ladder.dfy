/** The path-independent de-risking ladder (signald/risk/ladder.py). */
module Ladder {
  import opened Prelude

  datatype LadderState = LadderState(
    rung: nat, sizeMultiplier: real, allowNewIntraday: bool,
    flattenIntraday: bool, freezeAllocation: bool, halt: bool)

  /** The equity path the ladder reads; losses are negative. */
  datatype Path = Path(dayPnl: real, fiveDay: real, drawdown: real)

  datatype Thresholds = Thresholds(
    soft: real, hard: real, derisk5d: real, deriskDd: real, haltDd: real)

  predicate Positive(t: Thresholds) {
    t.soft > 0.0 && t.hard > 0.0 && t.derisk5d > 0.0 && t.deriskDd > 0.0 && t.haltDd > 0.0
  }

  function RungState(rung: nat): LadderState
    requires rung <= 4
  {
    match rung
    case 0 => LadderState(0, 1.0, true, false, false, false)
    case 1 => LadderState(1, 1.0, false, false, false, false)
    case 2 => LadderState(2, 0.5, false, true, false, false)
    case 3 => LadderState(3, 0.5, false, false, true, false)
    case 4 => LadderState(4, 0.0, false, true, true, true)
  }

  /** `rung_for`: the worst applicable rung; an unusable threshold is an error, never a pass. */
  function RungFor(p: Path, t: Thresholds): Option<LadderState> {
    if !Positive(t) then None
    else if p.drawdown <= -t.haltDd then Some(RungState(4))
    else if p.fiveDay <= -t.derisk5d || p.drawdown <= -t.deriskDd then Some(RungState(3))
    else if p.dayPnl <= -t.hard then Some(RungState(2))
    else if p.dayPnl <= -t.soft then Some(RungState(1))
    else Some(RungState(0))
  }

  /** Every state the ladder can hand the gate. */
  predicate IsRung(l: LadderState) {
    l.rung <= 4 && l == RungState(l.rung)
  }

  predicate Worse(p: Path, q: Path) {
    p.dayPnl <= q.dayPnl && p.fiveDay <= q.fiveDay && p.drawdown <= q.drawdown
  }

  /** A worse equity path never buys a bigger size, a new intraday entry or a lifted halt. */
  lemma WorsePathNeverLoosens(p: Path, q: Path, t: Thresholds)
    requires Positive(t) && Worse(p, q)
    ensures RungFor(p, t).Some? && RungFor(q, t).Some?
    ensures var a, b := RungFor(p, t).value, RungFor(q, t).value;
            && IsRung(a) && IsRung(b)
            && a.rung >= b.rung
            && a.sizeMultiplier <= b.sizeMultiplier
            && (a.allowNewIntraday ==> b.allowNewIntraday)
            && (b.freezeAllocation ==> a.freezeAllocation)
            && (b.halt ==> a.halt)
  {
  }

  /**
   * Each action against its thresholds. New intraday entries stop at the first threshold of any kind,
   * the size is halved from a hard day on and gone at the halt, the allocation freezes at a de-risking
   * threshold, and only the drawdown halts the house; a threshold that is not positive is an error.
   */
  lemma ActionsExactlyWhen(p: Path, t: Thresholds)
    ensures RungFor(p, t).Some? <==>
      t.soft > 0.0 && t.hard > 0.0 && t.derisk5d > 0.0 && t.deriskDd > 0.0 && t.haltDd > 0.0
    ensures RungFor(p, t).Some? ==>
      var l := RungFor(p, t).value;
      && (l.halt <==> p.drawdown <= -t.haltDd)
      && (l.freezeAllocation <==>
            p.fiveDay <= -t.derisk5d || p.drawdown <= -t.deriskDd || p.drawdown <= -t.haltDd)
      && (l.allowNewIntraday <==>
            && p.dayPnl > -t.soft && p.dayPnl > -t.hard && p.fiveDay > -t.derisk5d
            && p.drawdown > -t.deriskDd && p.drawdown > -t.haltDd)
      && (l.flattenIntraday <==> l.halt || HardDayOnly(p, t))
      && (l.sizeMultiplier == 0.0 <==> l.halt)
      && (l.sizeMultiplier == 0.5 <==> !l.halt && (l.freezeAllocation || p.dayPnl <= -t.hard))
      && (l.sizeMultiplier == 1.0 <==> !l.freezeAllocation && p.dayPnl > -t.hard)
  {
  }

  /** A hard losing day, short of every de-risking threshold. */
  predicate HardDayOnly(p: Path, t: Thresholds) {
    && p.dayPnl <= -t.hard
    && p.fiveDay > -t.derisk5d && p.drawdown > -t.deriskDd && p.drawdown > -t.haltDd
  }

  /** Past a de-risking threshold, short of the halt. */
  predicate Derisked(p: Path, t: Thresholds) {
    p.drawdown > -t.haltDd && (p.fiveDay <= -t.derisk5d || p.drawdown <= -t.deriskDd)
  }

  /**
   * Flattening is the one action a worse path can lift: rung 3 does not carry rung 2's flatten.
   * It is lifted exactly when the better path is a hard losing day and no more, and the worse one
   * has passed a de-risking threshold but not the halt.
   */
  lemma FlattenLiftedExactlyFromTwoToThree(p: Path, q: Path, t: Thresholds)
    requires Positive(t) && Worse(p, q)
    ensures RungFor(p, t).Some? && RungFor(q, t).Some?
    ensures (RungFor(q, t).value.flattenIntraday && !RungFor(p, t).value.flattenIntraday)
       <==> HardDayOnly(q, t) && Derisked(p, t)
    ensures HardDayOnly(q, t) <==> RungFor(q, t).value.rung == 2
    ensures Derisked(p, t) <==> RungFor(p, t).value.rung == 3
  {
    WorsePathNeverLoosens(p, q, t);
  }

  /** The lift does happen: a hard losing day that deepens into a five-day de-risk. */
  lemma FlattenLiftHappens()
    ensures var t := Thresholds(0.01, 0.03, 0.06, 0.10, 0.15);
            && Worse(Path(-0.04, -0.07, -0.07), Path(-0.04, -0.05, -0.05))
            && RungFor(Path(-0.04, -0.05, -0.05), t) == Some(RungState(2))
            && RungFor(Path(-0.04, -0.07, -0.07), t) == Some(RungState(3))
  {
  }
}
