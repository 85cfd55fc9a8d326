/** The halt machine with its reopen cooldown (signald/order/halts.py). Times are in seconds. */
module Halts {
  import opened Prelude

  const NO_REOPEN_MINUTES := 10.0

  datatype Phase = Normal | LimitState | Halted | Reopening | Cooldown

  datatype Reason = ReasonNormal | ReasonHalt | ReasonNoReopen | ReasonLimit | ReasonReopening | ReasonCooldown

  /** The machine's fields. */
  datatype Machine = Machine(
    phase: Phase, reason: Reason, since: Option<real>, reopenAt: Option<real>, noReopen: bool)

  const FRESH := Machine(Normal, ReasonNormal, None, None, false)

  /** The posture the machine reports. */
  datatype HaltState = HaltState(
    phase: Phase, allowEntries: bool, allowExits: bool, cooldownS: real, reason: Reason, since: Option<real>)

  /** A call on the machine: a venue observation or the exchange's reopen. */
  datatype Op =
    | Update(halted: bool, limit: bool, at: real, minutesToClose: Option<real>)
    | Reopen(at: real)

  function Elapsed(m: Machine, at: real): real {
    if m.reopenAt.None? then 0.0 else RMax(0.0, at - m.reopenAt.value)
  }

  function Snapshot(m: Machine, at: real): HaltState {
    HaltState(m.phase, m.phase == Normal, m.phase == Normal || m.phase == Cooldown,
              if m.phase == Cooldown then Elapsed(m, at) else 0.0, m.reason, m.since)
  }

  /** A halt observed this close to the bell never reopens. */
  predicate FinalHalt(op: Op) {
    op.Update? && op.halted && op.minutesToClose.Some? && op.minutesToClose.value <= NO_REOPEN_MINUTES
  }

  function Enter(m: Machine, phase: Phase, reason: Reason, at: real): Machine {
    m.(phase := phase, reason := reason, reopenAt := None,
       since := if m.phase == phase then m.since else Some(at))
  }

  function Step(m: Machine, op: Op, cooldown: real): Machine {
    match op
    case Reopen(at) =>
      if m.noReopen || m.phase != Reopening then m
      else Machine(Cooldown, ReasonCooldown, Some(at), Some(at), false)
    case Update(halted, limit, at, _) =>
      if halted then
        if FinalHalt(op) then Enter(m, Halted, ReasonNoReopen, at).(noReopen := true)
        else Enter(m, Halted, ReasonHalt, at)
      else if m.noReopen then Enter(m, Halted, ReasonNoReopen, at)
      else if limit then Enter(m, LimitState, ReasonLimit, at)
      else match m.phase
        case Halted => Machine(Reopening, ReasonReopening, Some(at), None, m.noReopen)
        case LimitState => Machine(Reopening, ReasonReopening, Some(at), None, m.noReopen)
        case Reopening => m
        case Cooldown =>
          if Elapsed(m, at) >= cooldown then Machine(Normal, ReasonNormal, Some(at), None, m.noReopen) else m
        case Normal => m.(reason := ReasonNormal, since := if m.since.None? then Some(at) else m.since)
  }

  function Run(ops: seq<Op>, cooldown: real): Machine {
    if ops == [] then FRESH else Step(Run(ops[..|ops| - 1], cooldown), ops[|ops| - 1], cooldown)
  }

  // ---- the object ----------------------------------------------------------------------------

  class HaltMachine {
    const cooldown: real
    var phase: Phase
    var reason: Reason
    var since: Option<real>
    var reopenAt: Option<real>
    var noReopen: bool

    ghost function Now(): Machine
      reads this
    {
      Machine(phase, reason, since, reopenAt, noReopen)
    }

    constructor (cooldownS: real)
      requires cooldownS > 0.0
      ensures Now() == FRESH && cooldown == cooldownS
    {
      cooldown := cooldownS;
      phase, reason, since, reopenAt, noReopen := Normal, ReasonNormal, None, None, false;
    }

    method Report(at: real) returns (s: HaltState)
      ensures s == Snapshot(Now(), at)
    {
      var elapsed := 0.0;
      if phase == Cooldown && reopenAt.Some? {
        elapsed := RMax(0.0, at - reopenAt.value);
      }
      s := HaltState(phase, phase == Normal, phase in {Normal, Cooldown}, elapsed, reason, since);
    }

    /** One observation of the venue: whether it is halted, whether it is in a limit state. */
    method Observe(halted: bool, limit: bool, at: real, minutesToClose: Option<real>) returns (s: HaltState)
      modifies this
      ensures Now() == Step(old(Now()), Update(halted, limit, at, minutesToClose), cooldown)
      ensures s == Snapshot(Now(), at)
    {
      if halted {
        if phase != Halted { phase, since := Halted, Some(at); }
        reopenAt := None;
        reason := ReasonHalt;
        if minutesToClose.Some? && minutesToClose.value <= NO_REOPEN_MINUTES {
          noReopen := true;
          reason := ReasonNoReopen;
        }
        s := Report(at);
        return;
      }
      if noReopen {
        if phase != Halted { phase, since := Halted, Some(at); }
        reopenAt := None;
        reason := ReasonNoReopen;
        s := Report(at);
        return;
      }
      if limit {
        if phase != LimitState { phase, since := LimitState, Some(at); }
        reopenAt := None;
        reason := ReasonLimit;
        s := Report(at);
        return;
      }
      if phase == Halted || phase == LimitState {
        phase, since := Reopening, Some(at);
        reason := ReasonReopening;
        reopenAt := None;
      }
      if phase == Cooldown {
        var elapsed := if reopenAt.None? then 0.0 else RMax(0.0, at - reopenAt.value);
        if elapsed >= cooldown {
          phase, since := Normal, Some(at);
          reason := ReasonNormal;
          reopenAt := None;
        }
      } else if phase == Normal {
        reason := ReasonNormal;
        if since.None? { since := Some(at); }
      }
      s := Report(at);
    }

    /** Record the exchange's reopen; ignored unless a clear has been observed. */
    method NoteReopen(at: real)
      modifies this
      ensures Now() == Step(old(Now()), Reopen(at), cooldown)
    {
      if noReopen || phase != Reopening { return; }
      phase := Cooldown;
      since := Some(at);
      reopenAt := Some(at);
      reason := ReasonCooldown;
    }
  }

  // ---- traces --------------------------------------------------------------------------------

  /** An observation of a halt or a limit state. */
  predicate Disturbs(op: Op) {
    op.Update? && (op.halted || op.limit)
  }

  /** Calling `update` twice with the same arguments advances nothing. */
  lemma UpdateIsIdempotent(m: Machine, op: Op, cooldown: real)
    requires op.Update?
    ensures Step(Step(m, op, cooldown), op, cooldown) == Step(m, op, cooldown)
  {
  }

  lemma {:induction false} NoReopenIsFinalHaltSeen(ops: seq<Op>, cooldown: real)
    ensures Run(ops, cooldown).noReopen <==> exists i :: 0 <= i < |ops| && FinalHalt(ops[i])
    ensures Run(ops, cooldown).noReopen ==> Run(ops, cooldown).phase == Halted
  {
    if ops != [] {
      var rest := ops[..|ops| - 1];
      NoReopenIsFinalHaltSeen(rest, cooldown);
      if Run(rest, cooldown).noReopen {
        var i :| 0 <= i < |rest| && FinalHalt(rest[i]);
        assert FinalHalt(ops[i]);
      }
      if exists i :: 0 <= i < |ops| && FinalHalt(ops[i]) {
        var i :| 0 <= i < |ops| && FinalHalt(ops[i]);
        assert i < |rest| ==> FinalHalt(rest[i]);
      }
    }
  }

  /** One observation sets the flag exactly when it is a halt with ten minutes or less to a known close. */
  lemma FlagIsSetExactlyWhen(m: Machine, op: Op, cooldown: real)
    ensures Step(m, op, cooldown).noReopen <==>
      m.noReopen
      || (op.Update? && op.halted && op.minutesToClose.Some? && op.minutesToClose.value <= 10.0)
  {
  }

  /** A halt that begins thirty minutes before the close, and is seen again nine minutes before it. */
  lemma EarlierHaltSetsTheFlag(cooldown: real)
    ensures var begins, seen := Update(true, false, 0.0, Some(30.0)), Update(true, false, 1260.0, Some(9.0));
      && !Run([begins], cooldown).noReopen && Run([begins], cooldown).since == Some(0.0)
      && Run([begins, seen], cooldown).noReopen && Run([begins, seen], cooldown).since == Some(0.0)
  {
    var begins, seen := Update(true, false, 0.0, Some(30.0)), Update(true, false, 1260.0, Some(9.0));
    assert [begins][..0] == [] && [begins, seen][..1] == [begins];
  }

  /**
   * A halt seen with ten minutes or less to the close absorbs: from then on, whatever is observed
   * and however often a reopen is noted, the machine stays halted.
   */
  lemma FinalHaltAbsorbs(ops: seq<Op>, i: nat, cooldown: real)
    requires i < |ops| && FinalHalt(ops[i])
    ensures Run(ops, cooldown).phase == Halted
    ensures forall at :: !Snapshot(Run(ops, cooldown), at).allowEntries && !Snapshot(Run(ops, cooldown), at).allowExits
  {
    NoReopenIsFinalHaltSeen(ops, cooldown);
  }

  /** `ops[c..]` after a disturbance: some observation was clear. */
  predicate Cleared(suf: seq<Op>) {
    exists c :: 0 <= c < |suf| && suf[c].Update?
  }

  /** `r` is the first reopen noted after a clearing observation: the one that starts the cooldown. */
  predicate StartsCooldown(suf: seq<Op>, r: nat)
    requires r < |suf|
  {
    && suf[r].Reopen? && Cleared(suf[..r])
    && forall j :: 0 <= j < r && suf[j].Reopen? ==> !Cleared(suf[..j])
  }

  /** An observation at least a cooldown after the reopen at `r`. */
  predicate Outlasts(suf: seq<Op>, r: nat, u: nat, cooldown: real)
    requires r < |suf| && u < |suf|
  {
    r < u && suf[u].Update? && suf[u].at - suf[r].at >= cooldown
  }

  /** The whole way back: a clear, then a reopen, then an observation a full cooldown later. */
  predicate Reopened(suf: seq<Op>, cooldown: real) {
    exists r, u :: 0 <= r < |suf| && 0 <= u < |suf| && StartsCooldown(suf, r) && Outlasts(suf, r, u, cooldown)
  }

  predicate Quiet(suf: seq<Op>) {
    forall j :: 0 <= j < |suf| ==> !Disturbs(suf[j])
  }

  lemma UniqueStart(suf: seq<Op>, r: nat, s: nat)
    requires r < |suf| && s < |suf| && StartsCooldown(suf, r) && StartsCooldown(suf, s)
    ensures r == s
  {
  }

  /** Where a quiet stretch after the disturbance `d` leaves the machine. */
  predicate PhaseAfter(d: Op, m: Machine, suf: seq<Op>, cooldown: real)
    requires d.Update?
  {
    && !m.noReopen
    && (m.phase in {Halted, LimitState} ==> !Cleared(suf) && (m.phase == Halted <==> d.halted))
    && (m.phase == Reopening ==> Cleared(suf) && forall r :: 0 <= r < |suf| ==> !StartsCooldown(suf, r))
    && (m.phase == Cooldown ==>
          && (exists r :: 0 <= r < |suf| && StartsCooldown(suf, r) && m.reopenAt == Some(suf[r].at))
          && !Reopened(suf, cooldown))
    && (m.phase == Normal ==> Reopened(suf, cooldown))
  }

  lemma ClearedAppend(suf: seq<Op>, op: Op)
    ensures Cleared(suf + [op]) <==> Cleared(suf) || op.Update?
  {
    if Cleared(suf) {
      var c :| 0 <= c < |suf| && suf[c].Update?;
      assert (suf + [op])[c].Update?;
    }
    if op.Update? { assert (suf + [op])[|suf|].Update?; }
  }

  lemma StartsAppend(suf: seq<Op>, op: Op)
    ensures forall r :: 0 <= r < |suf| ==> (StartsCooldown(suf + [op], r) <==> StartsCooldown(suf, r))
    ensures StartsCooldown(suf + [op], |suf|) <==>
      op.Reopen? && Cleared(suf) && forall r :: 0 <= r < |suf| ==> !StartsCooldown(suf, r)
  {
    var s := suf + [op];
    forall r | 0 <= r <= |suf| ensures s[..r] == suf[..r] {}
    assert suf[..|suf|] == suf;
    if op.Reopen? && Cleared(suf) && exists j :: 0 <= j < |suf| && suf[j].Reopen? && Cleared(suf[..j]) {
      var j :| 0 <= j < |suf| && suf[j].Reopen? && Cleared(suf[..j]);
      LeastStart(suf, j);
    }
  }

  /** Some reopen after a clear means there is a first one. */
  lemma {:induction false} LeastStart(suf: seq<Op>, j: nat)
    requires j < |suf| && suf[j].Reopen? && Cleared(suf[..j])
    ensures exists r :: 0 <= r < |suf| && StartsCooldown(suf, r)
    decreases j
  {
    if !StartsCooldown(suf, j) {
      var i :| 0 <= i < j && suf[i].Reopen? && Cleared(suf[..i]);
      LeastStart(suf, i);
    }
  }

  lemma ReopenedAppend(suf: seq<Op>, op: Op, cooldown: real)
    requires cooldown > 0.0
    ensures Reopened(suf + [op], cooldown) <==>
      Reopened(suf, cooldown)
      || exists r :: 0 <= r < |suf| && StartsCooldown(suf, r) && op.Update? && op.at - suf[r].at >= cooldown
  {
    var s := suf + [op];
    StartsAppend(suf, op);
    if Reopened(suf, cooldown) {
      var r, u :| 0 <= r < |suf| && 0 <= u < |suf| && StartsCooldown(suf, r) && Outlasts(suf, r, u, cooldown);
      assert StartsCooldown(s, r) && Outlasts(s, r, u, cooldown);
    }
    if r :| 0 <= r < |suf| && StartsCooldown(suf, r) && op.Update? && op.at - suf[r].at >= cooldown {
      assert StartsCooldown(s, r) && Outlasts(s, r, |suf|, cooldown);
    }
    if Reopened(s, cooldown) {
      var r, u :| 0 <= r < |s| && 0 <= u < |s| && StartsCooldown(s, r) && Outlasts(s, r, u, cooldown);
      assert r < |suf| && StartsCooldown(suf, r);
      assert u < |suf| ==> Outlasts(suf, r, u, cooldown);
    }
  }

  lemma PrefixCleared(suf: seq<Op>, r: nat)
    requires r <= |suf|
    ensures Cleared(suf[..r]) ==> Cleared(suf)
  {
    if Cleared(suf[..r]) {
      var c :| 0 <= c < r && suf[..r][c].Update?;
      assert suf[c].Update?;
    }
  }

  lemma PhaseStep(d: Op, m: Machine, suf: seq<Op>, op: Op, cooldown: real)
    requires cooldown > 0.0 && d.Update? && PhaseAfter(d, m, suf, cooldown) && !Disturbs(op)
    ensures PhaseAfter(d, Step(m, op, cooldown), suf + [op], cooldown)
  {
    var s := suf + [op];
    ClearedAppend(suf, op);
    StartsAppend(suf, op);
    ReopenedAppend(suf, op, cooldown);
    if m.phase == Cooldown {
      var r :| 0 <= r < |suf| && StartsCooldown(suf, r) && m.reopenAt == Some(suf[r].at);
      assert StartsCooldown(s, r) && s[r].at == suf[r].at;
      forall q | 0 <= q < |suf| && StartsCooldown(suf, q) ensures q == r { UniqueStart(suf, q, r); }
    } else if m.phase == Reopening {
      if op.Reopen? { assert StartsCooldown(s, |suf|) && s[|suf|].at == op.at; }
    } else if m.phase in {Halted, LimitState} {
      forall r | 0 <= r < |suf| ensures !StartsCooldown(suf, r) { PrefixCleared(suf, r); }
    }
  }

  lemma {:induction false} QuietStretch(ops: seq<Op>, i: nat, cooldown: real)
    requires cooldown > 0.0 && i < |ops| && Disturbs(ops[i]) && Quiet(ops[i + 1..])
    requires forall j :: 0 <= j < |ops| ==> !FinalHalt(ops[j])
    ensures PhaseAfter(ops[i], Run(ops, cooldown), ops[i + 1..], cooldown)
  {
    var rest, op := ops[..|ops| - 1], ops[|ops| - 1];
    NoReopenIsFinalHaltSeen(rest, cooldown);
    if i == |rest| {
      assert ops[i + 1..] == [];
    } else {
      assert ops[i + 1..] == rest[i + 1..] + [op];
      assert ops[i + 1..][|rest| - i - 1] == op;
      assert Quiet(rest[i + 1..]);
      QuietStretch(rest, i, cooldown);
      PhaseStep(ops[i], Run(rest, cooldown), rest[i + 1..], op, cooldown);
    }
  }

  /**
   * When entries come back, exactly. With `i` the last halt or limit observation, entries are
   * allowed now if and only if no halt ever fell in the last ten minutes and since `i` there was a
   * clearing observation, after it a noted reopen, and after that an observation at least one
   * cooldown later than the reopen.
   */
  lemma EntriesReturnExactlyWhen(ops: seq<Op>, i: nat, at: real, cooldown: real)
    requires cooldown > 0.0 && i < |ops| && Disturbs(ops[i]) && Quiet(ops[i + 1..])
    ensures Snapshot(Run(ops, cooldown), at).allowEntries <==>
      (forall j :: 0 <= j < |ops| ==> !FinalHalt(ops[j])) && Reopened(ops[i + 1..], cooldown)
  {
    NoReopenIsFinalHaltSeen(ops, cooldown);
    if forall j :: 0 <= j < |ops| ==> !FinalHalt(ops[j]) {
      QuietStretch(ops, i, cooldown);
      var m, suf := Run(ops, cooldown), ops[i + 1..];
      if Reopened(suf, cooldown) {
        var r, u :| 0 <= r < |suf| && 0 <= u < |suf| && StartsCooldown(suf, r) && Outlasts(suf, r, u, cooldown);
        PrefixCleared(suf, r);
      }
    } else {
      var j :| 0 <= j < |ops| && FinalHalt(ops[j]);
    }
  }

  /** Some reopen was noted after a clearing observation. */
  predicate ReopenNoted(suf: seq<Op>) {
    exists r :: 0 <= r < |suf| && StartsCooldown(suf, r)
  }

  /** What the machine makes of the stretch since the last halt or limit observation `d`. */
  function PhaseOf(d: Op, suf: seq<Op>, final: bool, cooldown: real): Phase
    requires d.Update?
  {
    if final then Halted
    else if !Cleared(suf) then (if d.halted then Halted else LimitState)
    else if !ReopenNoted(suf) then Reopening
    else if !Reopened(suf, cooldown) then Cooldown
    else Normal
  }

  predicate FinalHaltSeen(ops: seq<Op>) {
    exists j :: 0 <= j < |ops| && FinalHalt(ops[j])
  }

  lemma ReopenNeedsAClear(suf: seq<Op>, cooldown: real)
    ensures ReopenNoted(suf) ==> Cleared(suf)
    ensures Reopened(suf, cooldown) ==> ReopenNoted(suf)
  {
    if r :| 0 <= r < |suf| && StartsCooldown(suf, r) { PrefixCleared(suf, r); }
  }

  /** The phase at any moment, read off the observations: `i` is the last halt or limit among them. */
  lemma PhaseExactly(ops: seq<Op>, i: nat, cooldown: real)
    requires cooldown > 0.0 && i < |ops| && Disturbs(ops[i]) && Quiet(ops[i + 1..])
    ensures Run(ops, cooldown).phase == PhaseOf(ops[i], ops[i + 1..], FinalHaltSeen(ops), cooldown)
  {
    NoReopenIsFinalHaltSeen(ops, cooldown);
    ReopenNeedsAClear(ops[i + 1..], cooldown);
    if !FinalHaltSeen(ops) { QuietStretch(ops, i, cooldown); }
  }

  /** Exits come back earlier than entries: with the reopen that starts the cooldown, unless a final halt was seen. */
  lemma ExitsReturnExactlyWhen(ops: seq<Op>, i: nat, at: real, cooldown: real)
    requires cooldown > 0.0 && i < |ops| && Disturbs(ops[i]) && Quiet(ops[i + 1..])
    ensures Snapshot(Run(ops, cooldown), at).allowExits <==> !FinalHaltSeen(ops) && ReopenNoted(ops[i + 1..])
  {
    PhaseExactly(ops, i, cooldown);
    ReopenNeedsAClear(ops[i + 1..], cooldown);
  }

  /** The cooldown is reported from the reopen that started it, and as zero in every other phase. */
  lemma CooldownIsReported(ops: seq<Op>, i: nat, at: real, cooldown: real)
    requires cooldown > 0.0 && i < |ops| && Disturbs(ops[i]) && Quiet(ops[i + 1..])
    ensures var m, suf := Run(ops, cooldown), ops[i + 1..];
      if m.phase != Cooldown then Snapshot(m, at).cooldownS == 0.0
      else exists r ::
        0 <= r < |suf| && StartsCooldown(suf, r) && Snapshot(m, at).cooldownS == RMax(0.0, at - suf[r].at)
  {
    NoReopenIsFinalHaltSeen(ops, cooldown);
    if Run(ops, cooldown).phase == Cooldown { QuietStretch(ops, i, cooldown); }
  }

  /** The last observation of the venue is a halt that is not one of the last ten minutes. */
  predicate PlainHaltLast(ops: seq<Op>) {
    ops != []
    && var last := ops[|ops| - 1];
    if last.Update? then last.halted && !FinalHalt(last) else PlainHaltLast(ops[..|ops| - 1])
  }

  /**
   * The reason names the phase at every moment. Behind a final halt it says that trading will not
   * reopen, except while the last observation is a halt without a close in sight: then it says only
   * that the name is halted, although the flag stands.
   */
  lemma {:induction false} ReasonNamesThePhase(ops: seq<Op>, cooldown: real)
    ensures var m := Run(ops, cooldown);
      && (m.reason == ReasonNoReopen <==> FinalHaltSeen(ops) && !PlainHaltLast(ops))
      && (m.reason == ReasonHalt <==> m.phase == Halted && m.reason != ReasonNoReopen)
      && (m.reason == ReasonLimit <==> m.phase == LimitState)
      && (m.reason == ReasonReopening <==> m.phase == Reopening)
      && (m.reason == ReasonCooldown <==> m.phase == Cooldown)
      && (m.reason == ReasonNormal <==> m.phase == Normal)
  {
    NoReopenIsFinalHaltSeen(ops, cooldown);
    if ops != [] {
      NoReopenIsFinalHaltSeen(ops[..|ops| - 1], cooldown);
      ReasonNamesThePhase(ops[..|ops| - 1], cooldown);
    }
  }

  /** `since` is when the phase was entered: it moves with the phase and, once set, not without it. */
  lemma SinceIsTheEntry(m: Machine, op: Op, cooldown: real)
    ensures var next := Step(m, op, cooldown);
      next.since == if next.phase != m.phase || (m.phase == Normal && op.Update? && m.since.None?) then Some(op.at)
                    else m.since
  {
  }

  /** With no halt or limit ever observed the machine never leaves normal. */
  lemma {:induction false} UndisturbedStaysNormal(ops: seq<Op>, cooldown: real)
    requires Quiet(ops)
    ensures Run(ops, cooldown).phase == Normal
  {
    if ops != [] {
      NoReopenIsFinalHaltSeen(ops[..|ops| - 1], cooldown);
      UndisturbedStaysNormal(ops[..|ops| - 1], cooldown);
    }
  }
}
