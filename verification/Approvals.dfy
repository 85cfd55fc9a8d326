/**
 * signald/mcp/server.py: proposals, single-use approvals and the effects they release, with crashes
 * anywhere and restarts that replay the two append-only files.
 */
module Approvals {
  import opened Prelude

  /** An order payload; its content matters only through its hash and the two policy questions. */
  type Payload = nat

  datatype Proposal = Proposal(id: string, hash: string, payload: Payload)

  datatype Approval = Approval(id: string, proposalId: string, hash: string, signer: string, expires: int)

  datatype ApprovalRow = Issued(approval: Approval) | Consumed(id: string)

  datatype Rules = Rules(
    sha: Payload -> string, llmNumber: Payload -> bool,
    proposalId: (string, int) -> string, approvalId: (string, string, int) -> string)

  ghost predicate Injective(r: Rules) {
    forall a, b :: r.sha(a) == r.sha(b) ==> a == b
  }

  datatype GateAnswer = Allow | Reduce | Block | OtherAnswer

  datatype Use = Submit(proposalId: string) | Cancel | Allocate

  /**
   * What reached the order path and under which approval. The callback of a submit is handed the two
   * ids only; `held` records what the server stored under the proposal's id at that moment.
   */
  datatype Effect = Effect(use: Use, approval: Approval, held: Option<Payload>, at: int)

  datatype Refusal =
    | LlmNumber | SimulateUnavailable | Blocked | ProposalUnknown
    | ApprovalRequired | ApprovalUnknown | ApprovalUsed | ApprovalExpired | ApprovalOperator | HashMismatch
    | CallbackMissing

  const OPERATOR_ROLES: set<string> := {"operator", "admin"}

  datatype Memory = Memory(proposals: map<string, Proposal>, approvals: map<string, Approval>, consumed: set<string>)

  datatype Logs = Logs(proposals: seq<Proposal>, approvals: seq<ApprovalRow>)

  // ---- the operations on values ----------------------------------------------------------------

  function SetDefault<V>(m: map<string, V>, key: string, value: V): map<string, V> {
    if key in m then m else m[key := value]
  }

  predicate Intact(r: Rules, p: Proposal) {
    r.sha(p.payload) == p.hash
  }

  function LoadProposals(r: Rules, rows: seq<Proposal>): map<string, Proposal> {
    if rows == [] then map[]
    else
      var loaded, last := LoadProposals(r, rows[..|rows| - 1]), rows[|rows| - 1];
      if Intact(r, last) then SetDefault(loaded, last.id, last) else loaded
  }

  function LoadApprovals(rows: seq<ApprovalRow>): map<string, Approval> {
    if rows == [] then map[]
    else
      var loaded, last := LoadApprovals(rows[..|rows| - 1]), rows[|rows| - 1];
      if last.Issued? then SetDefault(loaded, last.approval.id, last.approval) else loaded
  }

  function ConsumedIds(rows: seq<ApprovalRow>): set<string> {
    if rows == [] then {}
    else
      ConsumedIds(rows[..|rows| - 1]) + if rows[|rows| - 1].Consumed? then {rows[|rows| - 1].id} else {}
  }

  function Load(r: Rules, logs: Logs): Memory {
    Memory(LoadProposals(r, logs.proposals), LoadApprovals(logs.approvals), ConsumedIds(logs.approvals))
  }

  /** Why a payload is not turned into a proposal. */
  function ProposeRefusal(r: Rules, payload: Payload, answer: Option<GateAnswer>): Option<Refusal> {
    if r.llmNumber(payload) then Some(LlmNumber)
    else if answer.None? then Some(SimulateUnavailable)
    else if answer.value.Block? then Some(Blocked)
    else if answer.value.OtherAnswer? then Some(SimulateUnavailable)
    else None
  }

  function MakeProposal(r: Rules, payload: Payload, at: int): Proposal {
    var hash := r.sha(payload);
    Proposal(r.proposalId(hash, at), hash, payload)
  }

  function MakeApproval(r: Rules, p: Proposal, signer: string, at: int, ttl: int): Approval {
    Approval(r.approvalId(p.id, signer, at), p.id, p.hash, signer, at + ttl)
  }

  /** The checks of `_consume_approval`, in their order. */
  function SpendRefusal(r: Rules, m: Memory, use: Use, id: string, now: int): Option<Refusal> {
    if id == "" then Some(ApprovalRequired)
    else if id !in m.approvals then Some(ApprovalUnknown)
    else if id in m.consumed then Some(ApprovalUsed)
    else
      var approval := m.approvals[id];
      if approval.expires <= now then Some(ApprovalExpired)
      else if use.Allocate? && approval.signer !in OPERATOR_ROLES then Some(ApprovalOperator)
      else if use.Submit? then
        if use.proposalId !in m.proposals || !Intact(r, m.proposals[use.proposalId]) then Some(ProposalUnknown)
        else if approval.proposalId != use.proposalId || approval.hash != m.proposals[use.proposalId].hash then
          Some(HashMismatch)
        else None
      else None
  }

  function EffectOf(m: Memory, use: Use, id: string, now: int): Effect
    requires id in m.approvals
  {
    Effect(use, m.approvals[id],
           if use.Submit? && use.proposalId in m.proposals then Some(m.proposals[use.proposalId].payload) else None,
           now)
  }

  // ---- the server ------------------------------------------------------------------------------

  class McpServer {
    var proposals: map<string, Proposal>
    var approvals: map<string, Approval>
    var consumed: set<string>
    /** The two files; they outlive the process. */
    var proposalLog: seq<Proposal>
    var approvalLog: seq<ApprovalRow>
    ghost var effects: seq<Effect>

    ghost function InMemory(): Memory
      reads this
    {
      Memory(proposals, approvals, consumed)
    }

    ghost function OnDisk(): Logs
      reads this
    {
      Logs(proposalLog, approvalLog)
    }

    /** A start, or a restart behind a crash: both files are replayed, tampered proposals skipped. */
    constructor (r: Rules, proposalLog: seq<Proposal>, approvalLog: seq<ApprovalRow>)
      ensures OnDisk() == Logs(proposalLog, approvalLog)
      ensures InMemory() == Load(r, OnDisk()) && effects == []
    {
      this.proposalLog, this.approvalLog, this.effects := proposalLog, approvalLog, [];
      proposals, approvals, consumed := map[], map[], {};
      new;
      for i := 0 to |proposalLog|
        invariant OnDisk() == Logs(proposalLog, approvalLog) && effects == []
        invariant proposals == LoadProposals(r, proposalLog[..i]) && approvals == map[] && consumed == {}
      {
        assert proposalLog[..i + 1][..i] == proposalLog[..i];
        if Intact(r, proposalLog[i]) {
          proposals := SetDefault(proposals, proposalLog[i].id, proposalLog[i]);
        }
      }
      assert proposalLog[..|proposalLog|] == proposalLog;
      for i := 0 to |approvalLog|
        invariant OnDisk() == Logs(proposalLog, approvalLog) && effects == []
        invariant proposals == LoadProposals(r, proposalLog)
        invariant approvals == LoadApprovals(approvalLog[..i]) && consumed == ConsumedIds(approvalLog[..i])
      {
        assert approvalLog[..i + 1][..i] == approvalLog[..i];
        match approvalLog[i] {
          case Consumed(id) => consumed := consumed + {id};
          case Issued(a) => approvals := SetDefault(approvals, a.id, a);
        }
      }
      assert approvalLog[..|approvalLog|] == approvalLog;
    }

    method ProposeOrder(r: Rules, payload: Payload, answer: Option<GateAnswer>, at: int)
      returns (refusal: Option<Refusal>)
      modifies this`proposals, this`proposalLog
      ensures refusal == ProposeRefusal(r, payload, answer)
      ensures var p := MakeProposal(r, payload, at);
        proposals == (if refusal.None? then SetDefault(old(proposals), p.id, p) else old(proposals))
        && proposalLog == old(proposalLog) + (if refusal.None? then [p] else [])
    {
      if r.llmNumber(payload) { return Some(LlmNumber); }
      match answer {
        case None => return Some(SimulateUnavailable);
        case Some(Block) => return Some(Blocked);
        case Some(OtherAnswer) => return Some(SimulateUnavailable);
        case Some(_) =>
      }
      var p := MakeProposal(r, payload, at);
      proposals := SetDefault(proposals, p.id, p);
      proposalLog := proposalLog + [p];
      return None;
    }

    /** An approval is issued only for a stored proposal whose payload still matches its pin. */
    method Approve(r: Rules, proposalId: string, signer: string, at: int, ttl: int) returns (approval: Option<Approval>)
      modifies this`approvals, this`approvalLog
      ensures approval.Some? <==> proposalId in proposals && Intact(r, proposals[proposalId])
      ensures approval.None? ==> approvals == old(approvals) && approvalLog == old(approvalLog)
      ensures approval.Some? ==>
        var a := MakeApproval(r, proposals[proposalId], signer, at, ttl);
        && approvals == SetDefault(old(approvals), a.id, a) && approvalLog == old(approvalLog) + [Issued(a)]
        && approval.value == approvals[a.id]
    {
      if proposalId !in proposals || !Intact(r, proposals[proposalId]) { return None; }
      var a := MakeApproval(r, proposals[proposalId], signer, at, ttl);
      approvals := SetDefault(approvals, a.id, a);
      approvalLog := approvalLog + [Issued(a)];
      return Some(approvals[a.id]);
    }

    /** Validate and burn one approval; the burn is on disk before anything is released. */
    method ConsumeApproval(r: Rules, use: Use, id: string, now: int) returns (refusal: Option<Refusal>)
      modifies this`consumed, this`approvalLog
      ensures refusal == SpendRefusal(r, old(InMemory()), use, id, now)
      ensures consumed == old(consumed) + (if refusal.None? then {id} else {})
      ensures approvalLog == old(approvalLog) + (if refusal.None? then [Consumed(id)] else [])
    {
      if id == "" { return Some(ApprovalRequired); }
      if id !in approvals { return Some(ApprovalUnknown); }
      if id in consumed { return Some(ApprovalUsed); }
      var approval := approvals[id];
      if approval.expires <= now { return Some(ApprovalExpired); }
      if use.Allocate? && approval.signer !in OPERATOR_ROLES { return Some(ApprovalOperator); }
      if use.Submit? {
        if use.proposalId !in proposals || !Intact(r, proposals[use.proposalId]) { return Some(ProposalUnknown); }
        var pinned := approval.hash == proposals[use.proposalId].hash;
        if approval.proposalId != use.proposalId || !pinned { return Some(HashMismatch); }
      }
      consumed := consumed + {id};
      approvalLog := approvalLog + [Consumed(id)];
      return None;
    }

    /** The three tools behind an approval: submit, cancel and set the allocation, if wired at all. */
    method Spend(r: Rules, wired: bool, use: Use, id: string, now: int) returns (refusal: Option<Refusal>)
      modifies this`consumed, this`approvalLog, this`effects
      ensures refusal == if !wired then Some(CallbackMissing) else SpendRefusal(r, old(InMemory()), use, id, now)
      ensures consumed == old(consumed) + (if refusal.None? then {id} else {})
      ensures approvalLog == old(approvalLog) + (if refusal.None? then [Consumed(id)] else [])
      ensures refusal.None? ==> effects == old(effects) + [EffectOf(InMemory(), use, id, now)]
      ensures refusal.Some? ==> effects == old(effects)
    {
      if !wired { return Some(CallbackMissing); }
      refusal := ConsumeApproval(r, use, id, now);
      if refusal.None? { effects := effects + [EffectOf(InMemory(), use, id, now)]; }
    }
  }

  // ---- runs ------------------------------------------------------------------------------------

  /** The whole system. `vetted` remembers the payloads the gate has answered ALLOW or REDUCE to. */
  datatype World = World(memory: Memory, logs: Logs, effects: seq<Effect>, vetted: set<Payload>)

  /**
   * One call and how far it got before a crash (`landed` counts its outside effects), a restart, or
   * somebody editing a stored payload in memory or on disk, its pinned hash untouched.
   */
  datatype Step =
    | DoPropose(payload: Payload, answer: Option<GateAnswer>, at: int, landed: nat)
    | DoApprove(proposalId: string, signer: string, at: int, ttl: int, landed: nat)
    | DoSpend(use: Use, id: string, now: int, landed: nat)
    | Restart
    | EditMemory(id: string, payload: Payload)
    | EditRow(row: nat, payload: Payload)

  const FRESH := World(Memory(map[], map[], {}), Logs([], []), [], {})

  function Reboot(r: Rules, w: World): World {
    w.(memory := Load(r, w.logs))
  }

  /** The gate lets the order go ahead. */
  predicate GatePasses(answer: Option<GateAnswer>) {
    answer == Some(Allow) || answer == Some(Reduce)
  }

  /** Kept from the gate's answer alone, whatever the server makes of it. */
  function Vet(w: World, payload: Payload, answer: Option<GateAnswer>): World {
    if GatePasses(answer) then w.(vetted := w.vetted + {payload}) else w
  }

  function AfterPropose(r: Rules, w: World, payload: Payload, answer: Option<GateAnswer>, at: int, landed: nat): World {
    if ProposeRefusal(r, payload, answer).Some? then w
    else if landed == 0 then Reboot(r, w)
    else
      var p := MakeProposal(r, payload, at);
      w.(memory := w.memory.(proposals := SetDefault(w.memory.proposals, p.id, p)),
         logs := w.logs.(proposals := w.logs.proposals + [p]))
  }

  function AfterApprove(r: Rules, w: World, id: string, signer: string, at: int, ttl: int, landed: nat): World {
    if id !in w.memory.proposals || !Intact(r, w.memory.proposals[id]) then w
    else if landed == 0 then Reboot(r, w)
    else
      var a := MakeApproval(r, w.memory.proposals[id], signer, at, ttl);
      w.(memory := w.memory.(approvals := SetDefault(w.memory.approvals, a.id, a)),
         logs := w.logs.(approvals := w.logs.approvals + [Issued(a)]))
  }

  /** The log after a burn. */
  function Burn(w: World, id: string): World {
    w.(logs := w.logs.(approvals := w.logs.approvals + [Consumed(id)]))
  }

  function AfterSpend(r: Rules, w: World, use: Use, id: string, now: int, landed: nat): World {
    if SpendRefusal(r, w.memory, use, id, now).Some? then w
    else if landed == 0 then Reboot(r, w)
    else
      var burned := Burn(w, id);
      if landed == 1 then Reboot(r, burned)
      else
        burned.(memory := w.memory.(consumed := w.memory.consumed + {id}),
                effects := w.effects + [EffectOf(w.memory, use, id, now)])
  }

  function Next(r: Rules, w: World, step: Step): World {
    match step
    case DoPropose(payload, answer, at, landed) =>
      AfterPropose(r, Vet(w, payload, answer), payload, answer, at, landed)
    case DoApprove(id, signer, at, ttl, landed) => AfterApprove(r, w, id, signer, at, ttl, landed)
    case DoSpend(use, id, now, landed) => AfterSpend(r, w, use, id, now, landed)
    case Restart => Reboot(r, w)
    case EditMemory(id, payload) =>
      if id !in w.memory.proposals then w
      else w.(memory := w.memory.(proposals := w.memory.proposals[id := w.memory.proposals[id].(payload := payload)]))
    case EditRow(row, payload) =>
      if row >= |w.logs.proposals| then w
      else w.(logs := w.logs.(proposals := w.logs.proposals[row := w.logs.proposals[row].(payload := payload)]))
  }

  function Run(r: Rules, w: World, steps: seq<Step>): World {
    if steps == [] then w else Next(r, Run(r, w, steps[..|steps| - 1]), steps[|steps| - 1])
  }

  // ---- what every run keeps --------------------------------------------------------------------

  /** The hash belongs to a payload that passed the gate and carries no number of the model's own. */
  predicate Passed(r: Rules, vetted: set<Payload>, hash: string) {
    exists p :: p in vetted && !r.llmNumber(p) && r.sha(p) == hash
  }

  predicate PinsPassed(r: Rules, w: World) {
    && (forall id :: id in w.memory.proposals ==> Passed(r, w.vetted, w.memory.proposals[id].hash))
    && (forall i :: 0 <= i < |w.logs.proposals| ==> Passed(r, w.vetted, w.logs.proposals[i].hash))
  }

  /** Issued, unexpired and fit for its use; a submit is bound to the approved payload, which passed the gate. */
  predicate Authorised(r: Rules, w: World, e: Effect) {
    && Issued(e.approval) in w.logs.approvals && e.at < e.approval.expires
    && (e.use.Allocate? ==> e.approval.signer in OPERATOR_ROLES)
    && (e.use.Submit? ==>
          && e.approval.proposalId == e.use.proposalId && e.held.Some?
          && r.sha(e.held.value) == e.approval.hash && e.held.value in w.vetted && !r.llmNumber(e.held.value))
  }

  predicate SpentOnce(w: World) {
    && (forall i, j :: 0 <= i < j < |w.effects| ==> w.effects[i].approval.id != w.effects[j].approval.id)
    && (forall i :: 0 <= i < |w.effects| ==> w.effects[i].approval.id in ConsumedIds(w.logs.approvals))
  }

  predicate MirrorsLog(w: World) {
    && w.memory.consumed == ConsumedIds(w.logs.approvals)
    && w.memory.approvals == LoadApprovals(w.logs.approvals)
  }

  predicate Sound(r: Rules, w: World) {
    && PinsPassed(r, w) && SpentOnce(w) && MirrorsLog(w)
    && (forall i :: 0 <= i < |w.effects| ==> Authorised(r, w, w.effects[i]))
  }

  lemma {:induction false} LoadedApproval(rows: seq<ApprovalRow>, id: string)
    requires id in LoadApprovals(rows)
    ensures LoadApprovals(rows)[id].id == id && Issued(LoadApprovals(rows)[id]) in rows
  {
    var init, last := rows[..|rows| - 1], rows[|rows| - 1];
    assert rows == init + [last];
    if id in LoadApprovals(init) { LoadedApproval(init, id); }
  }

  lemma {:induction false} LoadedProposal(r: Rules, rows: seq<Proposal>, id: string)
    requires id in LoadProposals(r, rows)
    ensures LoadProposals(r, rows)[id] in rows && LoadProposals(r, rows)[id].id == id
  {
    var init, last := rows[..|rows| - 1], rows[|rows| - 1];
    assert rows == init + [last];
    if id in LoadProposals(r, init) { LoadedProposal(r, init, id); }
  }

  /** The first row of an id that still matches its pin. */
  predicate FirstIntact(r: Rules, rows: seq<Proposal>, i: nat) {
    && i < |rows| && Intact(r, rows[i])
    && forall j :: 0 <= j < i && rows[j].id == rows[i].id ==> !Intact(r, rows[j])
  }

  /** A start keeps, of every id, exactly the first row that still matches its pin. */
  lemma {:induction false} LoadedExactly(r: Rules, rows: seq<Proposal>, p: Proposal)
    ensures p.id in LoadProposals(r, rows) && LoadProposals(r, rows)[p.id] == p
       <==> exists i :: 0 <= i < |rows| && rows[i] == p && FirstIntact(r, rows, i)
  {
    if rows != [] {
      var init, last := rows[..|rows| - 1], rows[|rows| - 1];
      LoadedExactly(r, init, p);
      LoadedWhenIntact(r, init, last.id);
      assert forall i :: 0 <= i < |init| ==> (FirstIntact(r, rows, i) <==> FirstIntact(r, init, i));
      assert forall i :: 0 <= i < |init| ==> rows[i] == init[i];
      if p == last && FirstIntact(r, rows, |init|) { assert rows[|init|] == p; }
    }
  }

  lemma {:induction false} LoadedWhenIntact(r: Rules, rows: seq<Proposal>, id: string)
    ensures id in LoadProposals(r, rows) <==> exists i :: 0 <= i < |rows| && rows[i].id == id && Intact(r, rows[i])
  {
    if rows != [] {
      var init, last := rows[..|rows| - 1], rows[|rows| - 1];
      LoadedWhenIntact(r, init, id);
      assert forall i :: 0 <= i < |init| ==> rows[i] == init[i];
    }
  }

  /** And of every approval id the first row that issued it. */
  lemma {:induction false} LoadedFirst(rows: seq<ApprovalRow>, i: nat)
    requires i < |rows| && rows[i].Issued?
    requires forall j :: 0 <= j < i && rows[j].Issued? ==> rows[j].approval.id != rows[i].approval.id
    ensures rows[i].approval.id in LoadApprovals(rows) && LoadApprovals(rows)[rows[i].approval.id] == rows[i].approval
  {
    var init := rows[..|rows| - 1];
    if i < |init| {
      LoadedFirst(init, i);
    } else if rows[i].approval.id in LoadApprovals(init) {
      LoadedApproval(init, rows[i].approval.id);
    }
  }

  lemma ApprovalRowAppended(rows: seq<ApprovalRow>, row: ApprovalRow)
    ensures ConsumedIds(rows + [row]) == ConsumedIds(rows) + if row.Consumed? then {row.id} else {}
    ensures LoadApprovals(rows + [row])
         == if row.Issued? then SetDefault(LoadApprovals(rows), row.approval.id, row.approval) else LoadApprovals(rows)
  {
    assert (rows + [row])[..|rows|] == rows;
  }

  lemma RebootIsSound(r: Rules, w: World)
    requires Sound(r, w)
    ensures Sound(r, Reboot(r, w))
  {
    forall id | id in LoadProposals(r, w.logs.proposals)
      ensures Passed(r, w.vetted, LoadProposals(r, w.logs.proposals)[id].hash)
    {
      LoadedProposal(r, w.logs.proposals, id);
    }
  }

  /** Replaying the files makes up for a memory that mirrors nothing. */
  lemma RebootRestores(r: Rules, w: World)
    requires forall i :: 0 <= i < |w.logs.proposals| ==> Passed(r, w.vetted, w.logs.proposals[i].hash)
    requires SpentOnce(w) && forall i :: 0 <= i < |w.effects| ==> Authorised(r, w, w.effects[i])
    ensures Sound(r, Reboot(r, w))
  {
    forall id | id in LoadProposals(r, w.logs.proposals)
      ensures Passed(r, w.vetted, LoadProposals(r, w.logs.proposals)[id].hash)
    {
      LoadedProposal(r, w.logs.proposals, id);
    }
  }

  /** A payload becomes a proposal exactly when it carries no such number and the gate answers ALLOW or REDUCE. */
  lemma ProposedExactlyWhen(r: Rules, payload: Payload, answer: Option<GateAnswer>)
    ensures ProposeRefusal(r, payload, answer).None? <==> !r.llmNumber(payload) && GatePasses(answer)
    ensures ProposeRefusal(r, payload, answer) == Some(LlmNumber) <==> r.llmNumber(payload)
    ensures ProposeRefusal(r, payload, answer) == Some(Blocked) <==> !r.llmNumber(payload) && answer == Some(Block)
  {
  }

  lemma VetIsSound(r: Rules, w: World, payload: Payload, answer: Option<GateAnswer>)
    requires Sound(r, w)
    ensures Sound(r, Vet(w, payload, answer))
  {
    var after := Vet(w, payload, answer);
    forall h | Passed(r, w.vetted, h) ensures Passed(r, after.vetted, h) {
      var p :| p in w.vetted && !r.llmNumber(p) && r.sha(p) == h;
      assert p in after.vetted;
    }
  }

  lemma ProposeIsSound(r: Rules, w: World, payload: Payload, answer: Option<GateAnswer>, at: int, landed: nat)
    requires Sound(r, w) && (GatePasses(answer) ==> payload in w.vetted)
    ensures Sound(r, AfterPropose(r, w, payload, answer, at, landed))
  {
    ProposedExactlyWhen(r, payload, answer);
    if ProposeRefusal(r, payload, answer).None? {
      assert Passed(r, w.vetted, r.sha(payload));
      if landed == 0 { RebootIsSound(r, w); }
    }
  }

  lemma ApproveIsSound(r: Rules, w: World, id: string, signer: string, at: int, ttl: int, landed: nat)
    requires Sound(r, w)
    ensures Sound(r, AfterApprove(r, w, id, signer, at, ttl, landed))
  {
    if id in w.memory.proposals && Intact(r, w.memory.proposals[id]) {
      if landed == 0 {
        RebootIsSound(r, w);
      } else {
        ApprovalRowAppended(w.logs.approvals, Issued(MakeApproval(r, w.memory.proposals[id], signer, at, ttl)));
      }
    }
  }

  lemma BurnKeeps(r: Rules, w: World, id: string)
    requires Sound(r, w)
    ensures ConsumedIds(Burn(w, id).logs.approvals) == ConsumedIds(w.logs.approvals) + {id}
    ensures LoadApprovals(Burn(w, id).logs.approvals) == LoadApprovals(w.logs.approvals)
    ensures SpentOnce(Burn(w, id))
    ensures forall i :: 0 <= i < |w.effects| ==> Authorised(r, Burn(w, id), w.effects[i])
  {
    ApprovalRowAppended(w.logs.approvals, Consumed(id));
  }

  lemma EffectIsAuthorised(r: Rules, w: World, use: Use, id: string, now: int)
    requires Injective(r) && PinsPassed(r, w) && MirrorsLog(w) && SpendRefusal(r, w.memory, use, id, now).None?
    ensures Authorised(r, w, EffectOf(w.memory, use, id, now))
    ensures EffectOf(w.memory, use, id, now).approval.id == id
  {
    LoadedApproval(w.logs.approvals, id);
    if use.Submit? {
      var stored := w.memory.proposals[use.proposalId];
      var p :| p in w.vetted && !r.llmNumber(p) && r.sha(p) == stored.hash;
      assert p == stored.payload;
    }
  }

  lemma EffectAppended(r: Rules, w: World, e: Effect)
    requires SpentOnce(w) && PinsPassed(r, w) && Authorised(r, w, e)
    requires forall i :: 0 <= i < |w.effects| ==>
      Authorised(r, w, w.effects[i]) && w.effects[i].approval.id != e.approval.id
    requires e.approval.id in ConsumedIds(w.logs.approvals)
    ensures var w' := w.(effects := w.effects + [e]);
      SpentOnce(w') && PinsPassed(r, w') && forall i :: 0 <= i < |w'.effects| ==> Authorised(r, w', w'.effects[i])
  {
  }

  lemma SpendIsSound(r: Rules, w: World, use: Use, id: string, now: int, landed: nat)
    requires Injective(r) && Sound(r, w)
    ensures Sound(r, AfterSpend(r, w, use, id, now, landed))
  {
    if SpendRefusal(r, w.memory, use, id, now).None? {
      BurnKeeps(r, w, id);
      if landed == 0 {
        RebootIsSound(r, w);
      } else if landed == 1 {
        RebootRestores(r, Burn(w, id));
      } else {
        var e := EffectOf(w.memory, use, id, now);
        EffectIsAuthorised(r, w, use, id, now);
        var burned := Burn(w, id).(memory := w.memory.(consumed := w.memory.consumed + {id}));
        assert Authorised(r, burned, e);
        EffectAppended(r, burned, e);
      }
    }
  }

  /**
   * Over every run with crashes, restarts and edited payloads: each approval releases at most one
   * effect, only before it expires; a submit carries exactly the approved payload, and to that payload
   * the gate answered ALLOW or REDUCE when it was proposed.
   */
  lemma {:induction false} EveryRunIsSound(r: Rules, steps: seq<Step>)
    requires Injective(r)
    ensures Sound(r, Run(r, FRESH, steps))
  {
    if steps != [] {
      EveryRunIsSound(r, steps[..|steps| - 1]);
      StepIsSound(r, Run(r, FRESH, steps[..|steps| - 1]), steps[|steps| - 1]);
    }
  }

  lemma StepIsSound(r: Rules, w: World, step: Step)
    requires Injective(r) && Sound(r, w)
    ensures Sound(r, Next(r, w, step))
  {
    match step
    case DoPropose(payload, answer, at, landed) =>
      VetIsSound(r, w, payload, answer);
      ProposeIsSound(r, Vet(w, payload, answer), payload, answer, at, landed);
    case DoApprove(id, signer, at, ttl, landed) => ApproveIsSound(r, w, id, signer, at, ttl, landed);
    case DoSpend(use, id, now, landed) => SpendIsSound(r, w, use, id, now, landed);
    case Restart => RebootIsSound(r, w);
    case EditMemory(_, _) =>
    case EditRow(row, payload) =>
  }

  // ---- where an effect comes from --------------------------------------------------------------

  lemma {:induction false} VettedByAStep(r: Rules, steps: seq<Step>, payload: Payload) returns (i: nat)
    requires payload in Run(r, FRESH, steps).vetted
    ensures i < |steps| && steps[i].DoPropose? && steps[i].payload == payload && GatePasses(steps[i].answer)
  {
    var init := steps[..|steps| - 1];
    i := |init|;
    if payload in Run(r, FRESH, init).vetted { i := VettedByAStep(r, init, payload); }
  }

  /** A proposal is filed under its own id. */
  predicate Filed(w: World) {
    forall id :: id in w.memory.proposals ==> w.memory.proposals[id].id == id
  }

  lemma {:induction false} EveryProposalIsFiled(r: Rules, steps: seq<Step>)
    ensures Filed(Run(r, FRESH, steps))
  {
    if steps != [] {
      EveryProposalIsFiled(r, steps[..|steps| - 1]);
      var logs := Run(r, FRESH, steps[..|steps| - 1]).logs;
      forall id | id in LoadProposals(r, logs.proposals) ensures LoadProposals(r, logs.proposals)[id].id == id {
        LoadedProposal(r, logs.proposals, id);
      }
    }
  }

  /** The approval that step gives, on what the server holds at that moment. */
  predicate Grants(r: Rules, before: World, step: Step, a: Approval) {
    && step.DoApprove? && step.proposalId in before.memory.proposals
    && Intact(r, before.memory.proposals[step.proposalId])
    && a.proposalId == step.proposalId && a.hash == before.memory.proposals[step.proposalId].hash
    && a.signer == step.signer && a.expires == step.at + step.ttl
  }

  /** Every approval on disk was given by a step of the run. */
  lemma {:induction false} IssuedByAStep(r: Rules, steps: seq<Step>, a: Approval) returns (j: nat)
    requires Issued(a) in Run(r, FRESH, steps).logs.approvals
    ensures j < |steps| && Grants(r, Run(r, FRESH, steps[..j]), steps[j], a)
  {
    var init := steps[..|steps| - 1];
    if Issued(a) in Run(r, FRESH, init).logs.approvals {
      j := IssuedByAStep(r, init, a);
      assert init[..j] == steps[..j];
    } else {
      j := |init|;
      EveryProposalIsFiled(r, init);
    }
  }

  predicate Spends(r: Rules, before: World, step: Step, e: Effect) {
    && step.DoSpend? && step.landed >= 2 && SpendRefusal(r, before.memory, step.use, step.id, step.now).None?
    && e == EffectOf(before.memory, step.use, step.id, step.now)
  }

  /** Every effect is that of a spend which nothing refused and which outlived its burn. */
  lemma {:induction false} EffectOfAStep(r: Rules, steps: seq<Step>, k: nat) returns (m: nat)
    requires k < |Run(r, FRESH, steps).effects|
    ensures m < |steps| && Spends(r, Run(r, FRESH, steps[..m]), steps[m], Run(r, FRESH, steps).effects[k])
  {
    var init := steps[..|steps| - 1];
    if k < |Run(r, FRESH, init).effects| {
      m := EffectOfAStep(r, init, k);
      assert init[..m] == steps[..m];
    } else {
      m := |init|;
    }
  }

  /**
   * The whole way of an order, over every run: the payload that reaches the order path was proposed
   * and passed by the gate at one step, approved under its proposal's id at a later one, and spent at
   * a third, before the time to live given at the approval ran out.
   */
  lemma EveryOrderWasProposedAndApproved(r: Rules, steps: seq<Step>, k: nat) returns (i: nat, j: nat, m: nat)
    requires Injective(r) && k < |Run(r, FRESH, steps).effects| && Run(r, FRESH, steps).effects[k].use.Submit?
    ensures i < j < m < |steps| && steps[i].DoPropose? && steps[j].DoApprove? && steps[m].DoSpend?
    ensures var e := Run(r, FRESH, steps).effects[k];
      && e.held == Some(steps[i].payload) && GatePasses(steps[i].answer) && !r.llmNumber(steps[i].payload)
      && steps[j].proposalId == e.use.proposalId
      && steps[m].use == e.use && steps[m].now < steps[j].at + steps[j].ttl
  {
    var e := Run(r, FRESH, steps).effects[k];
    m := EffectOfAStep(r, steps, k);
    var atSpend := Run(r, FRESH, steps[..m]);
    EveryRunIsSound(r, steps[..m]);
    EffectIsAuthorised(r, atSpend, e.use, steps[m].id, e.at);
    j := IssuedByAStep(r, steps[..m], e.approval);
    assert steps[..m][..j] == steps[..j];
    var atApproval := Run(r, FRESH, steps[..j]);
    EveryRunIsSound(r, steps[..j]);
    var p :| p in atApproval.vetted && !r.llmNumber(p) && r.sha(p) == e.approval.hash;
    assert p == e.held.value;
    i := VettedByAStep(r, steps[..j], p);
  }

  // ---- what a burn costs -----------------------------------------------------------------------

  predicate Released(w: World, id: string) {
    exists i :: 0 <= i < |w.effects| && w.effects[i].approval.id == id
  }

  /** Burned on disk, with nothing to show for it. */
  predicate Wasted(w: World, id: string) {
    id in ConsumedIds(w.logs.approvals) && !Released(w, id)
  }

  lemma WastedAfterApprove(r: Rules, w: World, step: Step, id: string)
    requires step.DoApprove? && Wasted(w, id)
    ensures Wasted(Next(r, w, step), id)
  {
    if step.proposalId in w.memory.proposals {
      var p := w.memory.proposals[step.proposalId];
      ApprovalRowAppended(w.logs.approvals, Issued(MakeApproval(r, p, step.signer, step.at, step.ttl)));
    }
    assert Next(r, w, step).effects == w.effects;
  }

  lemma WastedAfterSpend(r: Rules, w: World, use: Use, other: string, now: int, landed: nat, id: string)
    requires MirrorsLog(w) && Wasted(w, id)
    ensures Wasted(AfterSpend(r, w, use, other, now, landed), id)
  {
    var after := AfterSpend(r, w, use, other, now, landed);
    if SpendRefusal(r, w.memory, use, other, now).None? {
      ApprovalRowAppended(w.logs.approvals, Consumed(other));
      LoadedApproval(w.logs.approvals, other);
      assert other != id;
      assert forall i :: 0 <= i < |after.effects| ==>
        after.effects[i].approval.id == other || (i < |w.effects| && after.effects[i] == w.effects[i]);
    }
  }

  lemma WastedStays(r: Rules, w: World, step: Step, id: string)
    requires MirrorsLog(w) && Wasted(w, id)
    ensures Wasted(Next(r, w, step), id)
  {
    if step.DoApprove? {
      WastedAfterApprove(r, w, step, id);
    } else if step.DoSpend? {
      WastedAfterSpend(r, w, step.use, step.id, step.now, step.landed, id);
    } else {
      assert Next(r, w, step).effects == w.effects && Next(r, w, step).logs.approvals == w.logs.approvals;
    }
  }

  /** A burn without its effect, as a crash between the two leaves it, is never made good. */
  lemma {:induction false} BurnedIsSpentForGood(r: Rules, w: World, steps: seq<Step>, id: string)
    requires Injective(r) && Sound(r, w) && Wasted(w, id)
    ensures Sound(r, Run(r, w, steps)) && Wasted(Run(r, w, steps), id)
  {
    if steps != [] {
      var before, last := Run(r, w, steps[..|steps| - 1]), steps[|steps| - 1];
      BurnedIsSpentForGood(r, w, steps[..|steps| - 1], id);
      StepIsSound(r, before, last);
      WastedStays(r, before, last, id);
    }
  }

  /** Over the whole run, an approval takes effect exactly when its spend outlives the burn. */
  lemma SpendTakesEffectExactlyWhen(r: Rules, w: World, use: Use, id: string, now: int, landed: nat, steps: seq<Step>)
    requires Injective(r) && Sound(r, w) && SpendRefusal(r, w.memory, use, id, now).None? && landed > 0
    ensures Released(Run(r, AfterSpend(r, w, use, id, now, landed), steps), id) <==> landed >= 2
  {
    var after := AfterSpend(r, w, use, id, now, landed);
    SpendIsSound(r, w, use, id, now, landed);
    LoadedApproval(w.logs.approvals, id);
    ApprovalRowAppended(w.logs.approvals, Consumed(id));
    assert !Released(w, id);
    if landed >= 2 {
      assert after.effects[|w.effects|].approval.id == id;
      ReleasedStays(r, after, steps, id);
    } else {
      BurnedIsSpentForGood(r, after, steps, id);
    }
  }

  lemma {:induction false} ReleasedStays(r: Rules, w: World, steps: seq<Step>, id: string)
    requires Released(w, id)
    ensures Released(Run(r, w, steps), id)
  {
    if steps != [] {
      ReleasedStays(r, w, steps[..|steps| - 1], id);
      var before := Run(r, w, steps[..|steps| - 1]);
      var i :| 0 <= i < |before.effects| && before.effects[i].approval.id == id;
      assert Run(r, w, steps).effects[i] == before.effects[i];
    }
  }

  // ---- when a spend is admitted ----------------------------------------------------------------

  /** Issued, not burned, and in time. */
  predicate Spendable(m: Memory, id: string, now: int) {
    id != "" && id in m.approvals && id !in m.consumed && now < m.approvals[id].expires
  }

  /** The approval is one for that very proposal, which still matches its pin. */
  predicate Covers(r: Rules, m: Memory, a: Approval, proposalId: string) {
    && a.proposalId == proposalId && proposalId in m.proposals && Intact(r, m.proposals[proposalId])
    && a.hash == m.proposals[proposalId].hash
  }

  /** A spend goes through exactly when its approval is good, and good for that use. */
  lemma SpendAdmittedExactlyWhen(r: Rules, m: Memory, use: Use, id: string, now: int)
    ensures SpendRefusal(r, m, use, id, now).None?
       <==> (Spendable(m, id, now)
             && (use.Allocate? ==> m.approvals[id].signer in OPERATOR_ROLES)
             && (use.Submit? ==> Covers(r, m, m.approvals[id], use.proposalId)))
    ensures SpendRefusal(r, m, use, id, now) == Some(ApprovalUsed)
       <==> id != "" && id in m.approvals && id in m.consumed
  {
  }

  // ---- what an approval is bound to ------------------------------------------------------------

  /** The same approval, had it been issued for another proposal. */
  function Reissued(m: Memory, id: string, proposalId: string, hash: string): Memory
    requires id in m.approvals
  {
    m.(approvals := m.approvals[id := m.approvals[id].(proposalId := proposalId, hash := hash)])
  }

  /** Only an approval of that very proposal and payload hash would have been admitted. */
  ghost predicate Binding(r: Rules, m: Memory, use: Use, id: string, now: int)
    requires id in m.approvals
  {
    forall proposalId: string, hash: string ::
      SpendRefusal(r, Reissued(m, id, proposalId, hash), use, id, now).None? ==>
      proposalId == m.approvals[id].proposalId && hash == m.approvals[id].hash
  }

  /** An admitted spend is bound to the proposal its approval was issued for exactly when it is a submit. */
  lemma BoundExactlyOnSubmit(r: Rules, m: Memory, use: Use, id: string, now: int)
    requires id in m.approvals && SpendRefusal(r, m, use, id, now).None?
    ensures Binding(r, m, use, id, now) <==> use.Submit?
  {
    if !use.Submit? {
      var other := m.approvals[id].proposalId + "+";
      assert other != m.approvals[id].proposalId;
      assert SpendRefusal(r, Reissued(m, id, other, m.approvals[id].hash), use, id, now).None?;
    }
  }

  /** An order is proposed and approved, and its approval is spent on a cancel. */
  lemma CancelSpendsAnOrdersApproval(r: Rules, payload: Payload, signer: string, ttl: int)
    requires !r.llmNumber(payload) && ttl > 0
    requires r.approvalId(r.proposalId(r.sha(payload), 0), signer, 0) != ""
    ensures var p := MakeProposal(r, payload, 0);
      var a := MakeApproval(r, p, signer, 0, ttl);
      var steps := [DoPropose(payload, Some(Allow), 0, 1), DoApprove(p.id, signer, 0, ttl, 1),
                    DoSpend(Cancel, a.id, 0, 2)];
      Run(r, FRESH, steps).effects == [Effect(Cancel, a, None, 0)] && a.proposalId == p.id
  {
    var p := MakeProposal(r, payload, 0);
    var a := MakeApproval(r, p, signer, 0, ttl);
    var s1, s2 := DoPropose(payload, Some(Allow), 0, 1), DoApprove(p.id, signer, 0, ttl, 1);
    var s3 := DoSpend(Cancel, a.id, 0, 2);
    assert [s1][..0] == [] && [s1, s2][..1] == [s1] && [s1, s2, s3][..2] == [s1, s2];
    var w1 := Run(r, FRESH, [s1]);
    assert Run(r, FRESH, []) == FRESH;
    assert w1 == Next(r, FRESH, s1) == AfterPropose(r, Vet(FRESH, payload, Some(Allow)), payload, Some(Allow), 0, 1);
    assert w1.memory.proposals == map[p.id := p] && Intact(r, p);
    var w2 := Run(r, FRESH, [s1, s2]);
    assert w2 == Next(r, w1, s2) == AfterApprove(r, w1, p.id, signer, 0, ttl, 1);
    assert w2.memory.approvals == map[a.id := a] && w2.memory.consumed == {} && w2.effects == [];
    assert Run(r, FRESH, [s1, s2, s3]) == Next(r, w2, s3) == AfterSpend(r, w2, Cancel, a.id, 0, 2);
  }
}
