/**
 * Effectively-once ingest over whole runs: any number of polls, restarts, mandate reloads, and a
 * crash between any two durable writes.
 */
module IngestRuns {
  import opened Prelude
  import opened Ingest

  // ---- every call writes only allowed rows -----------------------------------------------------

  lemma {:induction false} AllAllowedConcat(s: Store, a: seq<Row>, b: seq<Row>, except: set<string>)
    requires AllAllowed(s, a, except) && AllAllowed(Apply(s, a), b, except)
    ensures AllAllowed(s, a + b, except)
    decreases a
  {
    if a == [] {
      assert a + b == b;
    } else {
      assert (a + b)[1..] == a[1..] + b;
      AllAllowedConcat(Put(s, a[0]), a[1..], b, except);
    }
  }

  lemma VerdictAllowed(rules: Rules, s: Store, mandate: string, file: File, env: Env, except: set<string>)
    requires Safe(s, except)
    ensures var verdict := Verdict(rules, s.journal, mandate, file, env);
      verdict.Some? ==> AllAllowed(s, verdict.value, except)
  {
    if file.Json? {
      var hash := DecisionHash(rules, file.artifact);
      if Parses(rules, file.artifact) && !IsProcessed(s.journal, hash, Some(mandate)) {
        EmissionAllowed(s, hash, mandate, except);
      }
    }
  }

  lemma EmissionAllowed(s: Store, hash: string, mandate: string, except: set<string>)
    requires Safe(s, except) && !IsProcessed(s.journal, hash, Some(mandate))
    ensures AllAllowed(s, [Book(Processed(hash, None)), Book(Signal(hash)), Feed(hash)], except)
  {
    var r1, r2, r3 := Book(Processed(hash, None)), Book(Signal(hash)), Feed(hash);
    assert AllAllowed(Put(Put(s, r1), r2), [r3], except);
    assert [r2, r3][1..] == [r3] && [r1, r2, r3][1..] == [r2, r3];
  }

  /** Every call appends only rows that may be appended, whatever the file, the answers and the store. */
  lemma CallAllowed(rules: Rules, wired: bool, s: Store, mandate: string, file: File, env: Env, except: set<string>)
    requires Safe(s, except)
    requires file.Json? && IsBlank(file.artifact) ==> NameKey(file.name) in except
    ensures AllAllowed(s, Writes(rules, wired, s, mandate, file, env), except)
  {
    if env.halted {
    } else if !wired {
      DecideAllowed(rules, s, mandate, file, env, None, except);
    } else {
      var admission := Admit(rules, s.inbox, file, env.envelopeOk);
      if admission.Accepted? {
        var row := Boundary(Entry(admission.key, Admitted));
        AllowedRowIsSafe(s, row, except);
        DecideAllowed(rules, Put(s, row), mandate, file, env, Some(admission.key), except);
        AllAllowedConcat(s, [row], Decide(rules, Put(s, row), mandate, file, env, Some(admission.key)), except);
      }
    }
  }

  lemma DecideAllowed(rules: Rules, s: Store, mandate: string, file: File, env: Env, key: Option<string>,
                      except: set<string>)
    requires Safe(s, except)
    ensures AllAllowed(s, Decide(rules, s, mandate, file, env, key), except)
  {
    VerdictAllowed(rules, s, mandate, file, env, except);
    var verdict := Verdict(rules, s.journal, mandate, file, env);
    if verdict.Some? {
      AllAllowedConcat(s, verdict.value, Settle(s.inbox, key), except);
    }
  }

  // ---- safety of every run ---------------------------------------------------------------------

  lemma SafeWiden(s: Store, a: set<string>, b: set<string>)
    requires Safe(s, a) && a <= b
    ensures Safe(s, b)
  {
  }

  /**
   * In every run, at every crash point: one feed row at most per decision hash, each behind its
   * processed row; one refusal at most per decision and mandate, and nothing after an emission;
   * one arrival at most per key, except under the name of a polled blank object.
   */
  lemma {:induction false} EveryRunIsSafe(rules: Rules, wired: bool, d: Daemon, steps: seq<Step>, except: set<string>)
    requires Safe(d.store, except)
    ensures Safe(Run(rules, wired, d, steps).store, except + BlankKeys(steps))
  {
    if steps == [] {
      SafeWiden(d.store, except, except + BlankKeys(steps));
    } else {
      var init, last := steps[..|steps| - 1], steps[|steps| - 1];
      var before := Run(rules, wired, d, init);
      var all := except + BlankKeys(steps);
      EveryRunIsSafe(rules, wired, d, init, except);
      SafeWiden(before.store, except + BlankKeys(init), all);
      if last.Poll? {
        var writes := Writes(rules, wired, before.store, before.mandate, last.file, last.env);
        CallAllowed(rules, wired, before.store, before.mandate, last.file, last.env, all);
        AllowedRowsAreSafe(before.store, writes, IMin(last.landed, |writes|), all);
      }
    }
  }

  lemma EveryRunFromFreshIsSafe(rules: Rules, wired: bool, mandate: string, steps: seq<Step>)
    ensures Safe(Run(rules, wired, Daemon(FRESH, mandate), steps).store, BlankKeys(steps))
  {
    EveryRunIsSafe(rules, wired, Daemon(FRESH, mandate), steps, {});
    assert {} + BlankKeys(steps) == BlankKeys(steps);
  }

  // ---- the boundary ----------------------------------------------------------------------------

  predicate Arrived(rows: seq<Entry>, key: string) {
    exists i :: 0 <= i < |rows| && rows[i].key == key
  }

  /**
   * What the boundary lets in: a readable artifact with a sound envelope and some content, under a key
   * no row of the inbox carries. Whatever is neither let in nor known by its key is a dead letter.
   */
  lemma AdmittedExactlyWhen(rules: Rules, rows: seq<Entry>, file: File, envelopeOk: bool)
    ensures var admission := Admit(rules, rows, file, envelopeOk);
      var key := if file.Json? then KeyFor(rules, file.artifact) else StampKey(file.name, file.stamp);
      && (admission.Accepted? <==>
            file.Json? && envelopeOk && file.artifact != Artifact(Empty, None) && !Arrived(rows, key))
      && (admission.Deduped? <==> Arrived(rows, key))
      && (admission.key == if admission.Dead? && file.Json? && file.artifact == Artifact(Empty, None)
                           then "unreadable:" + file.name else key)
  {
    UnseenMeansAbsent(rows, if file.Json? then KeyFor(rules, file.artifact) else StampKey(file.name, file.stamp));
  }

  /** The artifact says where it comes from, in words that do not contain the key's separator. */
  predicate Provenanced(a: Artifact) {
    a.body.Fields? && a.body.service != "" && a.body.runId != "" && a.body.artifactSha != ""
    && ':' !in a.body.service && ':' !in a.body.runId
  }

  /** The text in front of the first colon. */
  function Head(text: string): string {
    if text == "" || text[0] == ':' then "" else [text[0]] + Head(text[1..])
  }

  lemma {:induction false} HeadOf(x: string, p: string)
    requires ':' !in x
    ensures Head(x + ":" + p) == x
  {
    if x != "" {
      assert (x + ":" + p)[1..] == x[1..] + ":" + p;
      HeadOf(x[1..], p);
    }
  }

  lemma SplitAtColon(x: string, p: string, y: string, q: string)
    requires ':' !in x && ':' !in y && x + ":" + p == y + ":" + q
    ensures x == y && p == q
  {
    HeadOf(x, p);
    HeadOf(y, q);
    assert (x + ":" + p)[|x| + 1..] == p && (y + ":" + q)[|y| + 1..] == q;
  }

  /**
   * What the inbox takes for the same artifact: of two that say where they come from, those of one
   * service, run and digest, whatever else they hold.
   */
  lemma SameKeyExactlyWhen(rules: Rules, a: Artifact, b: Artifact)
    requires Provenanced(a) && Provenanced(b)
    ensures KeyFor(rules, a) == KeyFor(rules, b)
       <==> (a.body.service == b.body.service && a.body.runId == b.body.runId
             && a.body.artifactSha == b.body.artifactSha)
  {
    if KeyFor(rules, a) == KeyFor(rules, b) {
      var ra, rb := a.body.runId + ":" + a.body.artifactSha, b.body.runId + ":" + b.body.artifactSha;
      assert KeyFor(rules, a) == a.body.service + ":" + ra && KeyFor(rules, b) == b.body.service + ":" + rb;
      SplitAtColon(a.body.service, ra, b.body.service, rb);
      SplitAtColon(a.body.runId, a.body.artifactSha, b.body.runId, b.body.artifactSha);
    }
  }

  /** Without a provenance the declared hash is the key, and without that only the very same artifact shares it. */
  lemma AnonymousKeyExactlyWhen(rules: Rules, a: Artifact, b: Artifact)
    requires Injective(rules) && a.body.Empty? && b.body.Empty?
    ensures a.declared.Some? && a.declared.value != "" ==> KeyFor(rules, a) == a.declared.value
    ensures a.declared.GetOr("") == "" == b.declared.GetOr("") ==> (KeyFor(rules, a) == KeyFor(rules, b) <==> a == b)
  {
  }

  /** A declared hash binds the body: the artifact no longer parses once another body stands under it. */
  lemma TamperedBodyIsRejected(rules: Rules, a: Artifact, body: Body)
    requires Injective(rules) && Parses(rules, a) && a.declared.GetOr("") != "" && body != a.body
    ensures !Parses(rules, a.(body := body))
  {
    assert Artifact(body, None) != Artifact(a.body, None);
  }

  /** Undeclared, an artifact parses exactly when its body resolves; the hash it goes by is the body's alone. */
  lemma UndeclaredParsesExactlyWhen(rules: Rules, body: Body, declared: string)
    requires declared != ""
    ensures Parses(rules, Artifact(body, None)) <==> rules.resolves(body)
    ensures Parses(rules, Artifact(body, Some(""))) <==> rules.resolves(body)
    ensures Parses(rules, Artifact(body, Some(declared)))
       <==> rules.resolves(body) && declared == DecisionHash(rules, Artifact(body, None))
    ensures DecisionHash(rules, Artifact(body, Some(declared))) == DecisionHash(rules, Artifact(body, None))
  {
  }

  // ---- what one call decides -------------------------------------------------------------------

  /** The artifact gets past the halt and, with an inbox wired, past the boundary. */
  predicate Reaches(rules: Rules, wired: bool, s: Store, file: File, env: Env) {
    !env.halted && file.Json? && (wired ==> Admit(rules, s.inbox, file, env.envelopeOk).Accepted?)
  }

  /** It is a decision for today that nothing has closed, with a reference and a route: the gate is asked. */
  predicate ReachesGate(rules: Rules, wired: bool, s: Store, mandate: string, file: File, env: Env) {
    && Reaches(rules, wired, s, file, env) && Parses(rules, file.artifact)
    && !env.future && env.refOk && env.routeOk
    && !IsProcessed(s.journal, DecisionHash(rules, file.artifact), Some(mandate))
  }

  /** The gate passes it, and the run is no rehearsal. */
  predicate Emits(rules: Rules, wired: bool, s: Store, mandate: string, file: File, env: Env) {
    ReachesGate(rules, wired, s, mandate, file, env) && !env.blocked && !env.dryRun
  }

  /** It gets past the boundary, resolves to no decision, and that verdict is not on record yet. */
  predicate Invalidates(rules: Rules, wired: bool, s: Store, file: File, env: Env) {
    && Reaches(rules, wired, s, file, env) && !Parses(rules, file.artifact)
    && !IsProcessed(s.journal, rules.sha(file.artifact), None)
  }

  /** One call puts a decision on the feed exactly when the gate was asked about that decision and passed it. */
  lemma FedExactlyWhen(rules: Rules, wired: bool, s: Store, mandate: string, file: File, env: Env, hash: string)
    ensures Feed(hash) in Writes(rules, wired, s, mandate, file, env)
       <==> Emits(rules, wired, s, mandate, file, env) && DecisionHash(rules, file.artifact) == hash
  {
  }

  function BookOf(row: Row): seq<JournalRow> {
    if row.Book? then [row.row] else []
  }

  function FeedOf(row: Row): seq<string> {
    if row.Feed? then [row.hash] else []
  }

  function Books(rows: seq<Row>): seq<JournalRow>
    decreases rows
  {
    if rows == [] then [] else BookOf(rows[0]) + Books(rows[1..])
  }

  function Feeds(rows: seq<Row>): seq<string>
    decreases rows
  {
    if rows == [] then [] else FeedOf(rows[0]) + Feeds(rows[1..])
  }

  lemma {:induction false} ApplyAppends(s: Store, rows: seq<Row>)
    ensures Apply(s, rows).journal == s.journal + Books(rows) && Apply(s, rows).feed == s.feed + Feeds(rows)
    decreases rows
  {
    if rows != [] { ApplyAppends(Put(s, rows[0]), rows[1..]); }
  }

  lemma {:induction false} BooksConcat(a: seq<Row>, b: seq<Row>)
    ensures Books(a + b) == Books(a) + Books(b)
    decreases a
  {
    if a == [] {
      assert a + b == b;
    } else {
      assert (a + b)[1..] == a[1..] + b;
      BooksConcat(a[1..], b);
      ConcatAssoc(BookOf(a[0]), Books(a[1..]), Books(b));
    }
  }

  lemma {:induction false} FeedsConcat(a: seq<Row>, b: seq<Row>)
    ensures Feeds(a + b) == Feeds(a) + Feeds(b)
    decreases a
  {
    if a == [] {
      assert a + b == b;
    } else {
      assert (a + b)[1..] == a[1..] + b;
      FeedsConcat(a[1..], b);
      ConcatAssoc(FeedOf(a[0]), Feeds(a[1..]), Feeds(b));
    }
  }

  lemma RowsConcat(a: seq<Row>, b: seq<Row>)
    ensures Books(a + b) == Books(a) + Books(b) && Feeds(a + b) == Feeds(a) + Feeds(b)
  {
    BooksConcat(a, b);
    FeedsConcat(a, b);
  }

  lemma SettleBooksNothing(s: Store, key: Option<string>)
    ensures Books(Settle(s.inbox, key)) == [] && Feeds(Settle(s.inbox, key)) == []
  {
    if key.Some? { assert [Boundary(Entry(key.value, Committed))][1..] == []; }
  }

  /** The rows of the verdict, if the call gives one. */
  function VerdictRows(rules: Rules, journal: seq<JournalRow>, mandate: string, file: File, env: Env): seq<Row> {
    Verdict(rules, journal, mandate, file, env).GetOr([])
  }

  lemma DecideBooks(rules: Rules, s: Store, mandate: string, file: File, env: Env, key: Option<string>)
    ensures var rows, written := VerdictRows(rules, s.journal, mandate, file, env),
                                 Decide(rules, s, mandate, file, env, key);
      Books(written) == Books(rows) && Feeds(written) == Feeds(rows)
  {
    SettleBooksNothing(s, key);
    RowsConcat(VerdictRows(rules, s.journal, mandate, file, env), Settle(s.inbox, key));
  }

  /** Boundary rows are neither booked nor fed: a call books and feeds what its verdict does. */
  lemma DecisionRows(rules: Rules, wired: bool, s: Store, mandate: string, file: File, env: Env)
    ensures var rows := if Reaches(rules, wired, s, file, env) then VerdictRows(rules, s.journal, mandate, file, env)
                        else [];
      var writes := Writes(rules, wired, s, mandate, file, env);
      Books(writes) == Books(rows) && Feeds(writes) == Feeds(rows)
  {
    if !env.halted {
      if !wired {
        DecideBooks(rules, s, mandate, file, env, None);
      } else if Admit(rules, s.inbox, file, env.envelopeOk).Accepted? {
        var key := Admit(rules, s.inbox, file, env.envelopeOk).key;
        var row := Boundary(Entry(key, Admitted));
        DecideBooks(rules, Put(s, row), mandate, file, env, Some(key));
        RowsConcat([row], Decide(rules, Put(s, row), mandate, file, env, Some(key)));
      }
    }
  }

  lemma ThreeBooked(hash: string)
    ensures var rows := [Book(Processed(hash, None)), Book(Signal(hash)), Feed(hash)];
      Books(rows) == [Processed(hash, None), Signal(hash)] && Feeds(rows) == [hash]
  {
    var r1, r2, r3 := Book(Processed(hash, None)), Book(Signal(hash)), Feed(hash);
    assert [r1, r2, r3][1..] == [r2, r3] && [r2, r3][1..] == [r3];
    assert Books([r3]) == [] && Feeds([r3]) == [hash];
    assert Books([r2, r3]) == [Signal(hash)] && Feeds([r2, r3]) == [hash];
  }

  /**
   * What one complete call leaves behind, by how far the artifact got. A decision the gate refuses is
   * closed under the mandate and fed to nobody; one it passes is closed for good, recorded and fed; an
   * artifact that resolves to nothing is closed for good; every other call records no verdict.
   */
  lemma CallRecords(rules: Rules, wired: bool, s: Store, mandate: string, file: File, env: Env)
    ensures var after := Apply(s, Writes(rules, wired, s, mandate, file, env));
      var gate, hash := ReachesGate(rules, wired, s, mandate, file, env),
                        if file.Json? then DecisionHash(rules, file.artifact) else "";
      && after.feed == s.feed + (if gate && !env.blocked && !env.dryRun then [hash] else [])
      && after.journal == s.journal
           + if gate && env.blocked then [Processed(hash, Some(mandate))]
             else if gate && !env.dryRun then [Processed(hash, None), Signal(hash)]
             else if Invalidates(rules, wired, s, file, env) then [Processed(rules.sha(file.artifact), None)]
             else []
  {
    ApplyAppends(s, Writes(rules, wired, s, mandate, file, env));
    DecisionRows(rules, wired, s, mandate, file, env);
    if file.Json? { ThreeBooked(DecisionHash(rules, file.artifact)); }
  }

  /**
   * Over every run, with crashes and reloads: whatever the run has put on the feed was emitted by one
   * of its polls, which was not halted, not blocked by the gate and no rehearsal.
   */
  lemma {:induction false} FedWasEmitted(rules: Rules, wired: bool, d: Daemon, steps: seq<Step>, hash: string)
    returns (i: nat)
    requires hash !in d.store.feed && hash in Run(rules, wired, d, steps).store.feed
    ensures i < |steps| && steps[i].Poll?
    ensures var before := Run(rules, wired, d, steps[..i]);
      && Emits(rules, wired, before.store, before.mandate, steps[i].file, steps[i].env)
      && DecisionHash(rules, steps[i].file.artifact) == hash
  {
    var init, last := steps[..|steps| - 1], steps[|steps| - 1];
    var before := Run(rules, wired, d, init);
    if hash in before.store.feed {
      i := FedWasEmitted(rules, wired, d, init, hash);
      assert steps[..i] == init[..i];
    } else {
      var writes := Writes(rules, wired, before.store, before.mandate, last.file, last.env);
      ApplyKeeps(before.store, writes, IMin(last.landed, |writes|), hash);
      FedExactlyWhen(rules, wired, before.store, before.mandate, last.file, last.env, hash);
      i := |init|;
    }
  }

  // ---- what a run can still deliver ------------------------------------------------------------

  /** Some continuation puts the decision on the feed. */
  ghost predicate Obtainable(rules: Rules, wired: bool, d: Daemon, hash: string) {
    exists steps :: hash in Run(rules, wired, d, steps).store.feed
  }

  lemma {:induction false} ApplyKeeps(s: Store, rows: seq<Row>, n: nat, hash: string)
    requires n <= |rows|
    ensures forall j :: j in s.journal ==> j in Apply(s, rows[..n]).journal
    ensures hash in Apply(s, rows[..n]).feed ==> hash in s.feed || Feed(hash) in rows
    ensures hash in s.feed ==> hash in Apply(s, rows[..n]).feed
    decreases n
  {
    if n > 0 {
      ApplyKeeps(Put(s, rows[0]), rows[1..], n - 1, hash);
      assert rows[..n][0] == rows[0] && rows[..n][1..] == rows[1..][..n - 1];
    }
  }

  lemma NeverFedAgain(rules: Rules, wired: bool, s: Store, mandate: string, file: File, env: Env, hash: string)
    requires Processed(hash, None) in s.journal
    ensures Feed(hash) !in Writes(rules, wired, s, mandate, file, env)
  {
    var i :| 0 <= i < |s.journal| && s.journal[i] == Processed(hash, None);
    assert Suppresses(s.journal[i], hash, Some(mandate));
  }

  lemma {:induction false} LostForGood(rules: Rules, wired: bool, d: Daemon, steps: seq<Step>, hash: string)
    requires Processed(hash, None) in d.store.journal && hash !in d.store.feed
    ensures Processed(hash, None) in Run(rules, wired, d, steps).store.journal
    ensures hash !in Run(rules, wired, d, steps).store.feed
  {
    if steps != [] {
      var init, last := steps[..|steps| - 1], steps[|steps| - 1];
      LostForGood(rules, wired, d, init, hash);
      var before := Run(rules, wired, d, init);
      if last.Poll? {
        var writes := Writes(rules, wired, before.store, before.mandate, last.file, last.env);
        NeverFedAgain(rules, wired, before.store, before.mandate, last.file, last.env, hash);
        ApplyKeeps(before.store, writes, IMin(last.landed, |writes|), hash);
      }
    }
  }

  /** A mandate hash no row carries. */
  function Unused(journal: seq<JournalRow>): (m: string)
    ensures forall i :: 0 <= i < |journal| && journal[i].Processed? && journal[i].mandate.Some? ==>
      |journal[i].mandate.value| < |m|
  {
    if journal == [] then ""
    else
      var rest, last := Unused(journal[..|journal| - 1]), journal[|journal| - 1];
      if last.Processed? && last.mandate.Some? && |last.mandate.value| >= |rest| then last.mandate.value + "+"
      else rest
  }

  const OPEN := Env(false, true, false, true, true, false, false)

  /**
   * Without an inbox, a decision can still reach the feed exactly when no row without a mandate has
   * closed it: refusals re-open with the mandate, a crash right behind the processed row loses the
   * signal for good.
   */
  lemma ObtainableExactlyWhen(rules: Rules, d: Daemon, a: Artifact)
    requires Parses(rules, a)
    ensures var hash := DecisionHash(rules, a);
      Obtainable(rules, false, d, hash)
      <==> hash in d.store.feed || Processed(hash, None) !in d.store.journal
  {
    var hash := DecisionHash(rules, a);
    if hash in d.store.feed {
      assert Run(rules, false, d, []) == d;
    } else if Processed(hash, None) in d.store.journal {
      forall steps ensures hash !in Run(rules, false, d, steps).store.feed {
        LostForGood(rules, false, d, steps, hash);
      }
    } else {
      DeliverUnderNewMandate(rules, d, a);
    }
  }

  lemma DeliverUnderNewMandate(rules: Rules, d: Daemon, a: Artifact)
    requires Parses(rules, a) && Processed(DecisionHash(rules, a), None) !in d.store.journal
    ensures Obtainable(rules, false, d, DecisionHash(rules, a))
  {
    var hash, m := DecisionHash(rules, a), Unused(d.store.journal);
    var steps := [Reload(m), Poll(Json("", a), OPEN, 3)];
    var d1 := d.(mandate := m);
    assert steps[..1] == [Reload(m)] && steps[..1][..0] == [];
    assert Run(rules, false, d, steps[..1]) == d1;
    var rows := [Book(Processed(hash, None)), Book(Signal(hash)), Feed(hash)];
    assert Writes(rules, false, d1.store, m, Json("", a), OPEN) == rows + [] == rows;
    assert rows[..3] == rows;
    ThreeRows(d1.store, hash);
    assert hash in Run(rules, false, d, steps).store.feed;
  }

  /** A poll that reaches the gate records its verdict exactly when neither an emission nor this mandate stands. */
  lemma ReopensExactlyWhen(rules: Rules, s: Store, mandate: string, name: string, a: Artifact, env: Env)
    requires Parses(rules, a) && !env.halted && !env.future && env.refOk && env.routeOk && (env.blocked || !env.dryRun)
    ensures var hash := DecisionHash(rules, a);
      Writes(rules, false, s, mandate, Json(name, a), env) != []
      <==> Processed(hash, None) !in s.journal && Processed(hash, Some(mandate)) !in s.journal
  {
    var hash := DecisionHash(rules, a);
    if Processed(hash, None) in s.journal || Processed(hash, Some(mandate)) in s.journal {
      var i :| 0 <= i < |s.journal| && s.journal[i] in [Processed(hash, None), Processed(hash, Some(mandate))];
      assert Suppresses(s.journal[i], hash, Some(mandate));
    }
  }

  // ---- with the inbox in front -----------------------------------------------------------------

  lemma {:induction false} SeenStaysSeen(s: Store, rows: seq<Row>, n: nat, key: string)
    requires n <= |rows| && LastState(s.inbox, key).Some?
    ensures LastState(Apply(s, rows[..n]).inbox, key).Some?
    decreases n
  {
    if n > 0 {
      if rows[0].Boundary? { LastStateAppend(s.inbox, rows[0].entry, key); }
      SeenStaysSeen(Put(s, rows[0]), rows[1..], n - 1, key);
      assert rows[..n][0] == rows[0] && rows[..n][1..] == rows[1..][..n - 1];
    }
  }

  /**
   * With the inbox wired, a key once recorded is deduped in every later state: neither a mandate
   * change nor a restart after a crash drives its artifact again.
   */
  lemma {:induction false} SeenKeyIsSilent(rules: Rules, d: Daemon, steps: seq<Step>, name: string, a: Artifact,
                                           env: Env)
    requires LastState(d.store.inbox, KeyFor(rules, a)).Some?
    ensures var later := Run(rules, true, d, steps);
      && LastState(later.store.inbox, KeyFor(rules, a)).Some?
      && Writes(rules, true, later.store, later.mandate, Json(name, a), env) == []
  {
    if steps != [] {
      var init, last := steps[..|steps| - 1], steps[|steps| - 1];
      SeenKeyIsSilent(rules, d, init, name, a, env);
      var before := Run(rules, true, d, init);
      if last.Poll? {
        var writes := Writes(rules, true, before.store, before.mandate, last.file, last.env);
        SeenStaysSeen(before.store, writes, IMin(last.landed, |writes|), KeyFor(rules, a));
      }
    }
  }

  /** An artifact of that decision which the inbox would accept. */
  predicate Deliverable(rules: Rules, s: Store, a: Artifact, hash: string) {
    Parses(rules, a) && DecisionHash(rules, a) == hash && !IsBlank(a) && LastState(s.inbox, KeyFor(rules, a)).None?
  }

  lemma FedIsDeliverable(rules: Rules, s: Store, mandate: string, file: File, env: Env, hash: string)
    requires Feed(hash) in Writes(rules, true, s, mandate, file, env)
    ensures file.Json? && Deliverable(rules, s, file.artifact, hash)
  {
  }

  /** What a wired run feeds was deliverable all along: a key that is recorded stays recorded. */
  lemma {:induction false} FedWasDeliverable(rules: Rules, d: Daemon, steps: seq<Step>, hash: string)
    returns (a: Artifact)
    requires hash !in d.store.feed && hash in Run(rules, true, d, steps).store.feed
    ensures Deliverable(rules, d.store, a, hash)
  {
    var init, last := steps[..|steps| - 1], steps[|steps| - 1];
    var before := Run(rules, true, d, init);
    if hash in before.store.feed {
      a := FedWasDeliverable(rules, d, init, hash);
    } else {
      var writes := Writes(rules, true, before.store, before.mandate, last.file, last.env);
      ApplyKeeps(before.store, writes, IMin(last.landed, |writes|), hash);
      FedIsDeliverable(rules, before.store, before.mandate, last.file, last.env, hash);
      a := last.file.artifact;
      if LastState(d.store.inbox, KeyFor(rules, a)).Some? {
        SeenKeyIsSilent(rules, d, init, "", a, OPEN);
      }
    }
  }

  function Delivery(key: string, hash: string): seq<Row> {
    [Boundary(Entry(key, Admitted))]
    + ([Book(Processed(hash, None)), Book(Signal(hash)), Feed(hash)] + [Boundary(Entry(key, Committed))])
  }

  lemma DeliveryIsWritten(rules: Rules, s: Store, mandate: string, a: Artifact, hash: string)
    requires Deliverable(rules, s, a, hash) && !IsProcessed(s.journal, hash, Some(mandate))
    ensures Writes(rules, true, s, mandate, Json("", a), OPEN) == Delivery(KeyFor(rules, a), hash)
  {
    var key := KeyFor(rules, a);
    LastStateAppend(s.inbox, Entry(key, Admitted), key);
    assert Settle(s.inbox + [Entry(key, Admitted)], Some(key)) == [Boundary(Entry(key, Committed))];
  }

  lemma DeliveryFeeds(s: Store, key: string, hash: string)
    ensures hash in Apply(s, Delivery(key, hash)).feed
  {
    var row, settle := Boundary(Entry(key, Admitted)), Boundary(Entry(key, Committed));
    var rows := [Book(Processed(hash, None)), Book(Signal(hash)), Feed(hash)];
    AfterBoundary(s, row, rows + [settle]);
    ApplyConcat(Put(s, row), rows, [settle]);
    ThreeRows(Put(s, row), hash);
    OneRow(Apply(Put(s, row), rows), settle);
  }

  lemma UnusedIsOpen(journal: seq<JournalRow>, hash: string)
    requires Processed(hash, None) !in journal
    ensures !IsProcessed(journal, hash, Some(Unused(journal)))
  {
  }

  lemma DeliverThroughInbox(rules: Rules, d: Daemon, a: Artifact, hash: string)
    requires Deliverable(rules, d.store, a, hash) && Processed(hash, None) !in d.store.journal
    ensures Obtainable(rules, true, d, hash)
  {
    var m, key := Unused(d.store.journal), KeyFor(rules, a);
    var steps := [Reload(m), Poll(Json("", a), OPEN, 5)];
    assert steps[..1] == [Reload(m)] && steps[..1][..0] == [];
    assert Run(rules, true, d, steps[..1]) == d.(mandate := m);
    UnusedIsOpen(d.store.journal, hash);
    DeliveryIsWritten(rules, d.store, m, a, hash);
    assert Delivery(key, hash)[..5] == Delivery(key, hash);
    DeliveryFeeds(d.store, key, hash);
    assert hash in Run(rules, true, d, steps).store.feed;
  }

  /**
   * With the inbox wired, a decision that is not fed yet can still reach the feed exactly when no
   * row without a mandate has closed it and some artifact of it has a key the inbox has not seen.
   */
  lemma WiredObtainableExactlyWhen(rules: Rules, d: Daemon, hash: string)
    ensures Obtainable(rules, true, d, hash)
      <==> (hash in d.store.feed
            || (Processed(hash, None) !in d.store.journal && exists a :: Deliverable(rules, d.store, a, hash)))
  {
    if hash in d.store.feed {
      assert Run(rules, true, d, []) == d;
    } else if Processed(hash, None) in d.store.journal {
      forall steps ensures hash !in Run(rules, true, d, steps).store.feed {
        LostForGood(rules, true, d, steps, hash);
      }
    } else if Obtainable(rules, true, d, hash) {
      var steps :| hash in Run(rules, true, d, steps).store.feed;
      var a := FedWasDeliverable(rules, d, steps, hash);
    } else if a :| Deliverable(rules, d.store, a, hash) {
      DeliverThroughInbox(rules, d, a, hash);
    }
  }

  /** A blank object is recorded under its file name but looked up under its hash: one dead letter a poll. */
  lemma {:induction false} BlankIsRecordedEveryPoll(rules: Rules, mandate: string, name: string, env: Env, n: nat)
    requires !env.halted && rules.sha(Artifact(Empty, None)) != NameKey(name)
    ensures var rows := Run(rules, true, Daemon(FRESH, mandate),
      Repeat(Poll(Json(name, Artifact(Empty, None)), env, 1), n)).store.inbox;
      |rows| == n && forall i :: 0 <= i < n ==> rows[i] == Entry(NameKey(name), DeadLettered)
  {
    var blank := Artifact(Empty, None);
    var step := Poll(Json(name, blank), env, 1);
    if n > 0 {
      BlankIsRecordedEveryPoll(rules, mandate, name, env, n - 1);
      assert Repeat(step, n)[..n - 1] == Repeat(step, n - 1);
      var before := Run(rules, true, Daemon(FRESH, mandate), Repeat(step, n - 1));
      UnseenMeansAbsent(before.store.inbox, rules.sha(blank));
      var row := Boundary(Entry(NameKey(name), DeadLettered));
      assert Writes(rules, true, before.store, before.mandate, step.file, env) == [row];
      assert [row][..1] == [row];
      OneRow(before.store, row);
    }
  }

  // ---- every accepted key is closed ------------------------------------------------------------

  ghost predicate Closed(s: Store) {
    forall key :: LastState(s.inbox, key) != Some(Admitted)
  }

  /** The artifact behind a processed row, whose key the inbox knows. */
  predicate Origin(rules: Rules, s: Store, hash: string, a: Artifact) {
    LastState(s.inbox, KeyFor(rules, a)).Some?
    && hash == if Parses(rules, a) then DecisionHash(rules, a) else rules.sha(a)
  }

  ghost predicate Rooted(rules: Rules, s: Store) {
    forall j :: j in s.journal && j.Processed? ==> exists a :: Origin(rules, s, j.hash, a)
  }

  predicate NoBoundary(rows: seq<Row>) {
    forall i :: 0 <= i < |rows| ==> !rows[i].Boundary?
  }

  lemma {:induction false} ApplyBooks(s: Store, rows: seq<Row>)
    requires NoBoundary(rows)
    ensures Apply(s, rows).inbox == s.inbox
    ensures forall j :: j in Apply(s, rows).journal <==> j in s.journal || Book(j) in rows
    decreases rows
  {
    if rows != [] {
      ApplyBooks(Put(s, rows[0]), rows[1..]);
      assert rows == [rows[0]] + rows[1..];
    }
  }

  lemma VerdictBooks(rules: Rules, journal: seq<JournalRow>, mandate: string, file: File, env: Env)
    requires file.Json?
    ensures var verdict := Verdict(rules, journal, mandate, file, env);
      var hash := if Parses(rules, file.artifact) then DecisionHash(rules, file.artifact) else rules.sha(file.artifact);
      verdict.Some? ==>
        NoBoundary(verdict.value)
        && (forall j :: Book(j) in verdict.value && j.Processed? ==> j.hash == hash)
  {
  }

  /** The verdict's rows, then the settling row of an open key. */
  lemma SettledCall(s: Store, rows: seq<Row>, key: string)
    requires NoBoundary(rows) && LastState(s.inbox, key) == Some(Admitted)
    ensures var after := Apply(s, rows + Settle(s.inbox, Some(key)));
      && after.inbox == s.inbox + [Entry(key, Committed)]
      && forall j :: j in after.journal <==> j in s.journal || Book(j) in rows
  {
    var settle := Boundary(Entry(key, Committed));
    ApplyConcat(s, rows, [settle]);
    ApplyBooks(s, rows);
    OneRow(Apply(s, rows), settle);
  }

  /**
   * What follows the boundary row of an accepted artifact: nothing on the silent exit, else a verdict
   * and the settling row.
   */
  lemma DecidedCall(rules: Rules, s: Store, mandate: string, file: File, env: Env, key: string)
    requires file.Json? && LastState(s.inbox, key) == Some(Admitted)
    ensures var a := file.artifact;
      var after := Apply(s, Decide(rules, s, mandate, file, env, Some(key)));
      var silent := !Parses(rules, a) && IsProcessed(s.journal, rules.sha(a), None);
      var hash := if Parses(rules, a) then DecisionHash(rules, a) else rules.sha(a);
      && after.inbox == s.inbox + (if silent then [] else [Entry(key, Committed)])
      && (forall j :: j in after.journal && j.Processed? ==> j in s.journal || j.hash == hash)
  {
    var verdict := Verdict(rules, s.journal, mandate, file, env);
    if verdict.Some? {
      VerdictBooks(rules, s.journal, mandate, file, env);
      SettledCall(s, verdict.value, key);
    }
  }

  lemma StateAfter(rows: seq<Entry>, key: string, closed: bool, k: string)
    ensures LastState(rows + [Entry(key, Admitted)] + (if closed then [Entry(key, Committed)] else []), k)
      == if k == key then Some(if closed then Committed else Admitted) else LastState(rows, k)
  {
    var open := rows + [Entry(key, Admitted)];
    assert open + [] == open;
    LastStateAppend(rows, Entry(key, Admitted), k);
    LastStateAppend(open, Entry(key, Committed), k);
  }

  /** An accepted artifact, as one complete call leaves the store. */
  lemma AcceptedCall(rules: Rules, s: Store, mandate: string, file: File, env: Env)
    requires !env.halted && Admit(rules, s.inbox, file, env.envelopeOk).Accepted? && file.Json?
    ensures var a := file.artifact;
      var key := KeyFor(rules, a);
      var after := Apply(s, Writes(rules, true, s, mandate, file, env));
      var silent := !Parses(rules, a) && IsProcessed(s.journal, rules.sha(a), None);
      var hash := if Parses(rules, a) then DecisionHash(rules, a) else rules.sha(a);
      && (forall k :: LastState(after.inbox, k) ==
            if k == key then Some(if silent then Admitted else Committed) else LastState(s.inbox, k))
      && (forall j :: j in after.journal && j.Processed? ==> j in s.journal || j.hash == hash)
  {
    var a, key := file.artifact, KeyFor(rules, file.artifact);
    var row := Boundary(Entry(key, Admitted));
    var entered := Put(s, row);
    AfterBoundary(s, row, Decide(rules, entered, mandate, file, env, Some(key)));
    LastStateAppend(s.inbox, row.entry, key);
    DecidedCall(rules, entered, mandate, file, env, key);
    var silent := !Parses(rules, a) && IsProcessed(s.journal, rules.sha(a), None);
    var after := Apply(s, Writes(rules, true, s, mandate, file, env));
    forall k ensures LastState(after.inbox, k)
        == if k == key then Some(if silent then Admitted else Committed) else LastState(s.inbox, k) {
      StateAfter(s.inbox, key, !silent, k);
    }
  }

  /** One complete call leaves its accepted key open exactly on the exit that returns before settling. */
  lemma LeftOpenExactlyWhen(rules: Rules, s: Store, mandate: string, file: File, env: Env)
    requires !env.halted && file.Json? && Admit(rules, s.inbox, file, env.envelopeOk).Accepted?
    ensures var after := Apply(s, Writes(rules, true, s, mandate, file, env));
      LastState(after.inbox, KeyFor(rules, file.artifact)) == Some(Admitted)
      <==> !Parses(rules, file.artifact) && IsProcessed(s.journal, rules.sha(file.artifact), None)
  {
    AcceptedCall(rules, s, mandate, file, env);
  }

  /** It happens: an invalid artifact is journaled without an inbox, then one is wired and takes it again. */
  lemma WiredLaterLeavesOpen(rules: Rules, mandate: string, name: string, a: Artifact, env: Env)
    requires !env.halted && env.envelopeOk && !Parses(rules, a) && !IsBlank(a)
    ensures var poll := Poll(Json(name, a), env, 5);
      var before := Run(rules, false, Daemon(FRESH, mandate), [poll]);
      LastState(Run(rules, true, before, [poll]).store.inbox, KeyFor(rules, a)) == Some(Admitted)
  {
    var poll, empty := Poll(Json(name, a), env, 5), Daemon(FRESH, mandate);
    var row := Book(Processed(rules.sha(a), None));
    assert [poll][..0] == [];
    assert Writes(rules, false, FRESH, mandate, poll.file, env) == [row] + [] == [row];
    var before := Run(rules, false, empty, [poll]);
    assert [row][..1] == [row];
    OneRow(FRESH, row);
    assert before == Next(rules, false, Run(rules, false, empty, [poll][..0]), poll) == Next(rules, false, empty, poll);
    assert before.store.journal == [Processed(rules.sha(a), None)] && before.store.inbox == [];
    assert Suppresses(before.store.journal[0], rules.sha(a), None);
    var writes := Writes(rules, true, before.store, mandate, poll.file, env);
    assert writes[..|writes|] == writes;
    LeftOpenExactlyWhen(rules, before.store, mandate, poll.file, env);
  }

  /** From an inbox and a journal that agree, that exit cannot be reached. */
  lemma SilentExitUnreachable(rules: Rules, s: Store, a: Artifact)
    requires Injective(rules) && Rooted(rules, s) && LastState(s.inbox, KeyFor(rules, a)).None?
    ensures IsProcessed(s.journal, rules.sha(a), None) ==> Parses(rules, a)
  {
    forall i | 0 <= i < |s.journal| && Suppresses(s.journal[i], rules.sha(a), None) ensures Parses(rules, a) {
      var b :| Origin(rules, s, s.journal[i].hash, b);
      assert b == a || Artifact(b.body, None) == a;
    }
  }

  lemma CompleteCallCloses(rules: Rules, s: Store, mandate: string, file: File, env: Env)
    requires Injective(rules) && Rooted(rules, s) && Closed(s)
    ensures var after := Apply(s, Writes(rules, true, s, mandate, file, env));
      Rooted(rules, after) && Closed(after)
  {
    var writes := Writes(rules, true, s, mandate, file, env);
    var after := Apply(s, writes);
    if !env.halted {
      var admission := Admit(rules, s.inbox, file, env.envelopeOk);
      if admission.Accepted? {
        SilentExitUnreachable(rules, s, file.artifact);
        AcceptedCall(rules, s, mandate, file, env);
        KeepsRoots(rules, s, after, file.artifact);
      } else if admission.Dead? {
        var row := Boundary(Entry(admission.key, DeadLettered));
        OneRow(s, row);
        forall k { LastStateAppend(s.inbox, row.entry, k); }
        KeepsRootsAlone(rules, s, after);
      }
    }
  }

  lemma KeepsRootsAlone(rules: Rules, s: Store, after: Store)
    requires Rooted(rules, s) && after.journal == s.journal
    requires forall k :: LastState(s.inbox, k).Some? ==> LastState(after.inbox, k).Some?
    ensures Rooted(rules, after)
  {
    forall j | j in after.journal && j.Processed? ensures exists a :: Origin(rules, after, j.hash, a) {
      var a :| Origin(rules, s, j.hash, a);
      assert Origin(rules, after, j.hash, a);
    }
  }

  lemma KeepsRoots(rules: Rules, s: Store, after: Store, b: Artifact)
    requires Rooted(rules, s) && LastState(after.inbox, KeyFor(rules, b)).Some?
    requires forall k :: LastState(s.inbox, k).Some? ==> LastState(after.inbox, k).Some?
    requires forall j :: j in after.journal && j.Processed? ==>
      j in s.journal || j.hash == if Parses(rules, b) then DecisionHash(rules, b) else rules.sha(b)
    ensures Rooted(rules, after)
  {
    forall j | j in after.journal && j.Processed? ensures exists a :: Origin(rules, after, j.hash, a) {
      if j in s.journal {
        var a :| Origin(rules, s, j.hash, a);
        assert Origin(rules, after, j.hash, a);
      } else {
        assert Origin(rules, after, j.hash, b);
      }
    }
  }

  predicate CrashFree(steps: seq<Step>) {
    forall i :: 0 <= i < |steps| && steps[i].Poll? ==> steps[i].landed >= 5
  }

  /** Without crashes, from an empty inbox and an empty journal, no accepted key is left pending. */
  lemma {:induction false} CrashFreeRunsCloseEveryKey(rules: Rules, mandate: string, steps: seq<Step>)
    requires Injective(rules) && CrashFree(steps)
    ensures var s := Run(rules, true, Daemon(FRESH, mandate), steps).store;
      Rooted(rules, s) && Closed(s)
  {
    if steps != [] {
      var init, last := steps[..|steps| - 1], steps[|steps| - 1];
      CrashFreeRunsCloseEveryKey(rules, mandate, init);
      var before := Run(rules, true, Daemon(FRESH, mandate), init);
      if last.Poll? {
        var writes := Writes(rules, true, before.store, before.mandate, last.file, last.env);
        assert |writes| <= 5;
        assert writes[..|writes|] == writes;
        CompleteCallCloses(rules, before.store, before.mandate, last.file, last.env);
      }
    }
  }
}
