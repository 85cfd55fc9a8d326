/**
 * Effectively-once ingest: the inbox, the journal and the order of the durable writes of one
 * processor call (signald/inbox.py, signald/stores.py Journal, signald/processor.py).
 *
 * The three append-only files are sequences of rows. One call of the processor is the list of rows
 * it appends, in order; a crash between two of them leaves a prefix of that list.
 */
module Ingest {
  import opened Prelude

  datatype InboxState = Admitted | Committed | DeadLettered

  datatype Entry = Entry(key: string, state: InboxState)

  datatype JournalRow = Processed(hash: string, mandate: Option<string>) | Signal(hash: string)

  /** The durable state: `inbox.jsonl`, `journal.jsonl` and the signal feed. */
  datatype Store = Store(inbox: seq<Entry>, journal: seq<JournalRow>, feed: seq<string>)

  datatype Row = Boundary(entry: Entry) | Book(row: JournalRow) | Feed(hash: string)

  /** A JSON object: what it declares as its decision hash, and everything else. */
  datatype Artifact = Artifact(body: Body, declared: Option<string>)

  datatype Body = Empty | Fields(id: nat, service: string, runId: string, artifactSha: string)

  datatype File = Unreadable(name: string, stamp: string) | Json(name: string, artifact: Artifact)

  /** The canonical body hash, and whether a body resolves to a decision. */
  datatype Rules = Rules(sha: Artifact -> string, resolves: Body -> bool)

  ghost predicate Injective(rules: Rules) {
    forall a, b :: rules.sha(a) == rules.sha(b) ==> a == b
  }

  /** What the surroundings answer during one call. */
  datatype Env = Env(halted: bool, envelopeOk: bool, future: bool, refOk: bool, routeOk: bool,
                     blocked: bool, dryRun: bool)

  // ---- reading the logs ------------------------------------------------------------------------

  /** `state_of`: the last row of a key wins. */
  function LastState(rows: seq<Entry>, key: string): Option<InboxState> {
    if rows == [] then None
    else if rows[|rows| - 1].key == key then Some(rows[|rows| - 1].state)
    else LastState(rows[..|rows| - 1], key)
  }

  lemma {:induction false} UnseenMeansAbsent(rows: seq<Entry>, key: string)
    ensures LastState(rows, key).None? <==> forall i :: 0 <= i < |rows| ==> rows[i].key != key
  {
    if rows != [] && rows[|rows| - 1].key != key { UnseenMeansAbsent(rows[..|rows| - 1], key); }
  }

  lemma LastStateAppend(rows: seq<Entry>, e: Entry, key: string)
    ensures LastState(rows + [e], key) == if e.key == key then Some(e.state) else LastState(rows, key)
  {
    assert (rows + [e])[..|rows|] == rows;
  }

  /** Does this journal row suppress the decision under that mandate? */
  predicate Suppresses(row: JournalRow, hash: string, mandate: Option<string>) {
    row.Processed? && row.hash == hash
    && (row.mandate.None? || mandate.None? || row.mandate == mandate)
  }

  predicate IsProcessed(journal: seq<JournalRow>, hash: string, mandate: Option<string>) {
    exists i :: 0 <= i < |journal| && Suppresses(journal[i], hash, mandate)
  }

  // ---- keys ------------------------------------------------------------------------------------

  function DecisionHash(rules: Rules, a: Artifact): string {
    rules.sha(Artifact(a.body, None))
  }

  /** `parse_research_decision` accepts: the body resolves and a declared hash is the true one. */
  predicate Parses(rules: Rules, a: Artifact) {
    rules.resolves(a.body)
    && (a.declared.None? || a.declared.value == "" || a.declared.value == DecisionHash(rules, a))
  }

  function KeyFor(rules: Rules, a: Artifact): string {
    if a.body.Fields? && a.body.service != "" && a.body.runId != "" && a.body.artifactSha != "" then
      a.body.service + ":" + a.body.runId + ":" + a.body.artifactSha
    else if a.declared.Some? && a.declared.value != "" then a.declared.value
    else rules.sha(a)
  }

  predicate IsBlank(a: Artifact) {
    a.body.Empty? && a.declared.None?
  }

  function NameKey(name: string): string {
    "unreadable:" + name
  }

  function StampKey(name: string, stamp: string): string {
    "unreadable:" + name + ":" + stamp
  }

  // ---- one call --------------------------------------------------------------------------------

  datatype Admission = Accepted(key: string) | Deduped(key: string) | Dead(key: string)

  function Admit(rules: Rules, rows: seq<Entry>, file: File, envelopeOk: bool): Admission {
    match file
    case Unreadable(name, stamp) =>
      if LastState(rows, StampKey(name, stamp)).Some? then Deduped(StampKey(name, stamp))
      else Dead(StampKey(name, stamp))
    case Json(name, a) =>
      var key := KeyFor(rules, a);
      if LastState(rows, key).Some? then Deduped(key)
      else if envelopeOk && !IsBlank(a) then Accepted(key)
      else if IsBlank(a) then Dead(NameKey(name))
      else Dead(key)
  }

  function Settle(rows: seq<Entry>, key: Option<string>): seq<Row> {
    if key.Some? && LastState(rows, key.value) != Some(Committed) then [Boundary(Entry(key.value, Committed))]
    else []
  }

  /**
   * What one call records about the decision itself, in the order of the writes. `None` is the one
   * exit that returns before the boundary row is settled.
   */
  function Verdict(rules: Rules, journal: seq<JournalRow>, mandate: string, file: File, env: Env): Option<seq<Row>> {
    match file
    case Unreadable(_, _) => Some([])
    case Json(_, a) =>
      if !Parses(rules, a) then
        if IsProcessed(journal, rules.sha(a), None) then None
        else Some([Book(Processed(rules.sha(a), None))])
      else
        var hash := DecisionHash(rules, a);
        if env.future || IsProcessed(journal, hash, Some(mandate)) || !env.refOk || !env.routeOk then Some([])
        else if env.blocked then Some([Book(Processed(hash, Some(mandate)))])
        else if env.dryRun then Some([])
        else Some([Book(Processed(hash, None)), Book(Signal(hash)), Feed(hash)])
  }

  /** Everything after the boundary row. */
  function Decide(rules: Rules, s: Store, mandate: string, file: File, env: Env, key: Option<string>): seq<Row> {
    match Verdict(rules, s.journal, mandate, file, env)
    case None => []
    case Some(rows) => rows + Settle(s.inbox, key)
  }

  /** `_process`: every durable row of one call, in order. */
  function Writes(rules: Rules, wired: bool, s: Store, mandate: string, file: File, env: Env): seq<Row> {
    if env.halted then []
    else if !wired then Decide(rules, s, mandate, file, env, None)
    else
      match Admit(rules, s.inbox, file, env.envelopeOk)
      case Deduped(_) => []
      case Dead(key) => [Boundary(Entry(key, DeadLettered))]
      case Accepted(key) =>
        var row := Boundary(Entry(key, Admitted));
        [row] + Decide(rules, Put(s, row), mandate, file, env, Some(key))
  }

  function Put(s: Store, row: Row): Store {
    match row
    case Boundary(e) => s.(inbox := s.inbox + [e])
    case Book(j) => s.(journal := s.journal + [j])
    case Feed(h) => s.(feed := s.feed + [h])
  }

  function Apply(s: Store, rows: seq<Row>): Store
    decreases rows
  {
    if rows == [] then s else Apply(Put(s, rows[0]), rows[1..])
  }

  lemma {:induction false} ApplyConcat(s: Store, a: seq<Row>, b: seq<Row>)
    ensures Apply(s, a + b) == Apply(Apply(s, a), b)
    decreases a
  {
    if a == [] {
      assert a + b == b;
    } else {
      assert (a + b)[1..] == a[1..] + b;
      ApplyConcat(Put(s, a[0]), a[1..], b);
    }
  }

  lemma OneRow(s: Store, row: Row)
    ensures Apply(s, [row]) == Put(s, row)
  {
    assert [row][1..] == [];
  }

  lemma ThreeRows(s: Store, hash: string)
    ensures Apply(s, [Book(Processed(hash, None)), Book(Signal(hash)), Feed(hash)])
         == Store(s.inbox, s.journal + [Processed(hash, None)] + [Signal(hash)], s.feed + [hash])
  {
    var r1, r2, r3 := Book(Processed(hash, None)), Book(Signal(hash)), Feed(hash);
    assert [r1, r2, r3][1..] == [r2, r3] && [r2, r3][1..] == [r3];
    OneRow(Put(Put(s, r1), r2), r3);
  }

  lemma AfterBoundary(s: Store, row: Row, rest: seq<Row>)
    ensures Apply(s, [row] + rest) == Apply(Put(s, row), rest)
  {
    assert ([row] + rest)[1..] == rest;
  }

  // ---- runs ------------------------------------------------------------------------------------

  /** One poll of one file, of whose writes `landed` reach the disk, or a mandate reload. */
  datatype Step = Poll(file: File, env: Env, landed: nat) | Reload(mandate: string)

  datatype Daemon = Daemon(store: Store, mandate: string)

  function Next(rules: Rules, wired: bool, d: Daemon, step: Step): Daemon {
    match step
    case Reload(m) => d.(mandate := m)
    case Poll(file, env, landed) =>
      var writes := Writes(rules, wired, d.store, d.mandate, file, env);
      d.(store := Apply(d.store, writes[..IMin(landed, |writes|)]))
  }

  function Run(rules: Rules, wired: bool, d: Daemon, steps: seq<Step>): Daemon {
    if steps == [] then d else Next(rules, wired, Run(rules, wired, d, steps[..|steps| - 1]), steps[|steps| - 1])
  }

  const FRESH := Store([], [], [])

  /** The keys under which blank objects were recorded. */
  function BlankKeys(steps: seq<Step>): set<string> {
    if steps == [] then {}
    else
      var last := steps[|steps| - 1];
      BlankKeys(steps[..|steps| - 1])
      + if last.Poll? && last.file.Json? && IsBlank(last.file.artifact) then {NameKey(last.file.name)} else {}
  }

  // ---- safety ----------------------------------------------------------------------------------

  predicate FeedOnce(s: Store) {
    forall i, j :: 0 <= i < j < |s.feed| ==> s.feed[i] != s.feed[j]
  }

  predicate OwnedBeforeFed(s: Store) {
    forall i :: 0 <= i < |s.feed| ==> Processed(s.feed[i], None) in s.journal && Signal(s.feed[i]) in s.journal
  }

  /** The later row repeats a verdict that already stands: without a mandate, or under the same one. */
  predicate Covers(row: JournalRow, later: JournalRow) {
    row.Processed? && later.Processed? && row.hash == later.hash
    && (row.mandate.None? || row.mandate == later.mandate)
  }

  /** A decision is recorded once per mandate, and never again once recorded without one. */
  predicate RecordedOnce(s: Store) {
    forall i, j :: 0 <= i < j < |s.journal| ==> !Covers(s.journal[i], s.journal[j])
  }

  predicate SameArrival(a: Entry, b: Entry) {
    a.key == b.key && a.state != Committed && b.state != Committed
  }

  /** Outside the excepted keys, no key is accepted or dead-lettered twice. */
  predicate ArrivesOnce(s: Store, except: set<string>) {
    forall i, j :: 0 <= i < j < |s.inbox| && SameArrival(s.inbox[i], s.inbox[j]) ==> s.inbox[i].key in except
  }

  predicate Safe(s: Store, except: set<string>) {
    FeedOnce(s) && OwnedBeforeFed(s) && RecordedOnce(s) && ArrivesOnce(s, except)
  }

  /** May this row be appended now? */
  predicate Allowed(s: Store, row: Row, except: set<string>) {
    match row
    case Boundary(e) => e.state == Committed || LastState(s.inbox, e.key).None? || e.key in except
    case Book(j) => forall i :: 0 <= i < |s.journal| ==> !Covers(s.journal[i], j)
    case Feed(h) => h !in s.feed && Processed(h, None) in s.journal && Signal(h) in s.journal
  }

  predicate AllAllowed(s: Store, rows: seq<Row>, except: set<string>)
    decreases rows
  {
    rows == [] || (Allowed(s, rows[0], except) && AllAllowed(Put(s, rows[0]), rows[1..], except))
  }

  lemma AllowedRowIsSafe(s: Store, row: Row, except: set<string>)
    requires Safe(s, except) && Allowed(s, row, except)
    ensures Safe(Put(s, row), except)
  {
    match row
    case Boundary(e) => UnseenMeansAbsent(s.inbox, e.key);
    case Book(_) =>
    case Feed(_) =>
  }

  lemma {:induction false} AllowedRowsAreSafe(s: Store, rows: seq<Row>, n: nat, except: set<string>)
    requires Safe(s, except) && AllAllowed(s, rows, except) && n <= |rows|
    ensures Safe(Apply(s, rows[..n]), except)
    decreases n
  {
    if n > 0 {
      AllowedRowIsSafe(s, rows[0], except);
      AllowedRowsAreSafe(Put(s, rows[0]), rows[1..], n - 1, except);
      assert rows[..n][0] == rows[0] && rows[..n][1..] == rows[1..][..n - 1];
    }
  }
}
