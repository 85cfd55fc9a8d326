/**
 * The stateful side of ingest: `Inbox`, `Journal` and the signal processor write their files row by
 * row, in the order the specification of module Ingest lists.
 */
module Processor {
  import opened Prelude
  import opened Ingest

  class Inbox {
    var rows: seq<Entry>

    constructor ()
      ensures rows == []
    {
      rows := [];
    }

    method StateOf(key: string) returns (state: Option<InboxState>)
      ensures state == LastState(rows, key)
    {
      state := None;
      for i := 0 to |rows|
        invariant state == LastState(rows[..i], key)
      {
        assert rows[..i + 1][..i] == rows[..i];
        if rows[i].key == key { state := Some(rows[i].state); }
      }
      assert rows[..|rows|] == rows;
    }

    /** Keys whose last row is an admission: accepted, and never closed. */
    method Pending() returns (keys: set<string>)
      ensures forall key :: key in keys <==> LastState(rows, key) == Some(Admitted)
    {
      var latest: map<string, InboxState> := map[];
      for i := 0 to |rows|
        invariant forall key :: LastState(rows[..i], key) == if key in latest then Some(latest[key]) else None
      {
        assert rows[..i + 1] == rows[..i] + [rows[i]];
        forall key { LastStateAppend(rows[..i], rows[i], key); }
        latest := latest[rows[i].key := rows[i].state];
      }
      assert rows[..|rows|] == rows;
      keys := set key | key in latest && latest[key] == Admitted;
    }

    method Record(key: string, state: InboxState)
      modifies this
      ensures rows == old(rows) + [Entry(key, state)]
    {
      rows := rows + [Entry(key, state)];
    }

    /** The boundary decision on one artifact and, unless it is known already, its single row. */
    method Receive(rules: Rules, file: File, envelopeOk: bool) returns (admission: Admission)
      modifies this
      ensures admission == Admit(rules, old(rows), file, envelopeOk)
      ensures rows == old(rows)
        + (match admission
           case Deduped(_) => []
           case Dead(key) => [Entry(key, DeadLettered)]
           case Accepted(key) => [Entry(key, Admitted)])
    {
      match file {
        case Unreadable(name, stamp) =>
          var key := StampKey(name, stamp);
          var state := StateOf(key);
          if state.Some? { return Deduped(key); }
          Record(key, DeadLettered);
          return Dead(key);
        case Json(name, a) =>
          var key := KeyFor(rules, a);
          var state := StateOf(key);
          if !envelopeOk || IsBlank(a) {
            if state.Some? { return Deduped(key); }
            var recorded := if IsBlank(a) then NameKey(name) else key;
            Record(recorded, DeadLettered);
            return Dead(recorded);
          }
          if state.Some? { return Deduped(key); }
          Record(key, Admitted);
          return Accepted(key);
      }
    }

    method Commit(key: string)
      modifies this
      ensures rows == old(rows)
        + if LastState(old(rows), key) == Some(Committed) then [] else [Entry(key, Committed)]
    {
      var state := StateOf(key);
      if state == Some(Committed) { return; }
      Record(key, Committed);
    }
  }

  class Journal {
    var rows: seq<JournalRow>

    constructor ()
      ensures rows == []
    {
      rows := [];
    }

    method MarkProcessed(hash: string, mandate: Option<string>)
      modifies this
      ensures rows == old(rows) + [Processed(hash, mandate)]
    {
      rows := rows + [Processed(hash, mandate)];
    }

    method AddSignal(hash: string)
      modifies this
      ensures rows == old(rows) + [Signal(hash)]
    {
      rows := rows + [Signal(hash)];
    }

    method Handled(hash: string, mandate: Option<string>) returns (found: bool)
      ensures found <==> IsProcessed(rows, hash, mandate)
    {
      for i := 0 to |rows|
        invariant forall k :: 0 <= k < i ==> !Suppresses(rows[k], hash, mandate)
      {
        if Suppresses(rows[i], hash, mandate) { return true; }
      }
      return false;
    }
  }

  class SignalStore {
    var rows: seq<string>

    constructor ()
      ensures rows == []
    {
      rows := [];
    }

    method Append(hash: string)
      modifies this
      ensures rows == old(rows) + [hash]
    {
      rows := rows + [hash];
    }
  }

  datatype MandateFile = Missing | Invalid(stamp: int) | Loaded(stamp: int, hash: string)

  datatype Refresh = Unchanged | Reloaded | Failed

  class SignalProcessor {
    const inbox: Inbox
    const wired: bool
    const journal: Journal
    const store: SignalStore
    var mandate: string
    var stamp: Option<int>

    constructor (inbox: Inbox, wired: bool, journal: Journal, store: SignalStore, mandate: string)
      ensures this.inbox == inbox && this.wired == wired && this.journal == journal && this.store == store
      ensures this.mandate == mandate && this.stamp.None?
    {
      this.inbox, this.wired, this.journal, this.store := inbox, wired, journal, store;
      this.mandate, this.stamp := mandate, None;
    }

    ghost function Durable(): Store
      reads inbox, journal, store
    {
      Store(inbox.rows, journal.rows, store.rows)
    }

    method Settle(key: Option<string>)
      modifies inbox
      ensures inbox.rows == old(inbox.rows)
        + if key.Some? && LastState(old(inbox.rows), key.value) != Some(Committed)
          then [Entry(key.value, Committed)] else []
    {
      if key.Some? { inbox.Commit(key.value); }
    }

    /** `_process`: what reaches the three files is exactly the listed rows, in the listed order. */
    method Process(rules: Rules, file: File, env: Env)
      modifies inbox, journal, store
      ensures Durable() == Apply(old(Durable()), Writes(rules, wired, old(Durable()), mandate, file, env))
    {
      if env.halted { return; }
      ghost var s0 := Durable();
      var key: Option<string> := None;
      if wired {
        var admission := inbox.Receive(rules, file, env.envelopeOk);
        match admission {
          case Deduped(_) => return;
          case Dead(k) =>
            OneRow(s0, Boundary(Entry(k, DeadLettered)));
            return;
          case Accepted(k) => key := Some(k);
        }
      }
      ghost var s1 := Durable();
      Resolve(rules, file, env, key);
      if wired {
        AfterBoundary(s0, Boundary(Entry(key.value, Admitted)), Decide(rules, s1, mandate, file, env, key));
      }
    }

    /** The part of `_process` behind the boundary. */
    method Resolve(rules: Rules, file: File, env: Env, key: Option<string>)
      modifies inbox, journal, store
      ensures Durable() == Apply(old(Durable()), Decide(rules, old(Durable()), mandate, file, env, key))
    {
      ghost var s := Durable();
      SettledAfter(s, [], key);
      match file {
        case Unreadable(_, _) => Settle(key);
        case Json(_, a) =>
          if !Parses(rules, a) {
            var hash := rules.sha(a);
            var known := journal.Handled(hash, None);
            if known { return; }
            SettledAfter(s, [Book(Processed(hash, None))], key);
            OneRow(s, Book(Processed(hash, None)));
            journal.MarkProcessed(hash, None);
            Settle(key);
            return;
          }
          var hash := DecisionHash(rules, a);
          if env.future { Settle(key); return; }
          var known := journal.Handled(hash, Some(mandate));
          if known || !env.refOk || !env.routeOk { Settle(key); return; }
          if env.blocked {
            SettledAfter(s, [Book(Processed(hash, Some(mandate)))], key);
            OneRow(s, Book(Processed(hash, Some(mandate))));
            journal.MarkProcessed(hash, Some(mandate));
            Settle(key);
            return;
          }
          if env.dryRun { Settle(key); return; }
          SettledAfter(s, [Book(Processed(hash, None)), Book(Signal(hash)), Feed(hash)], key);
          ThreeRows(s, hash);
          journal.MarkProcessed(hash, None);
          journal.AddSignal(hash);
          store.Append(hash);
          Settle(key);
      }
    }

    /**
     * `refresh_mandate`: a file that is missing or does not parse keeps the mandate in force; any
     * other outcome leaves the mandate of the file in force, unless its stamp is the one last loaded.
     */
    method RefreshMandate(file: MandateFile) returns (outcome: Refresh)
      modifies this
      ensures outcome.Failed? <==> file.Missing? || (file.Invalid? && old(stamp) != Some(file.stamp))
      ensures outcome.Reloaded? <==> file.Loaded? && old(stamp) != Some(file.stamp) && file.hash != old(mandate)
      ensures mandate == if outcome.Reloaded? then file.hash else old(mandate)
      ensures stamp == if file.Loaded? then Some(file.stamp) else old(stamp)
    {
      if file.Missing? { return Failed; }
      if stamp == Some(file.stamp) { return Unchanged; }
      if file.Invalid? { return Failed; }
      stamp := Some(file.stamp);
      if file.hash == mandate { return Unchanged; }
      mandate := file.hash;
      return Reloaded;
    }
  }

  /** Settling appends to the inbox only, so it can be applied behind the verdict. */
  lemma SettledAfter(s: Store, rows: seq<Row>, key: Option<string>)
    ensures var after := Apply(s, rows);
      Apply(s, rows + Ingest.Settle(s.inbox, key))
      == after.(inbox := after.inbox
           + if key.Some? && LastState(s.inbox, key.value) != Some(Committed) then [Entry(key.value, Committed)]
             else [])
    decreases rows
  {
    var settle := Ingest.Settle(s.inbox, key);
    ApplyConcat(s, rows, settle);
    if settle != [] { OneRow(Apply(s, rows), settle[0]); }
  }
}
