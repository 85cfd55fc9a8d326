/**
 * The hash-chained audit ledger and its lock (signald/stores.py).
 *
 * The digest is a parameter: any function of the previous hash and the row body. What needs it to
 * be injective says so.
 */
module AuditLedger {
  import opened Prelude

  /** A 64-digit hexadecimal digest, read as a number; the genesis hash is all zeros. */
  type Hash = nat

  const GENESIS: Hash := 0

  /** A row without its own hash: what the canonical JSON text holds. */
  datatype RowBody = RowBody(index: nat, ts: string, kind: string, reason: string, data: string, prevHash: Hash)

  /** A line of the file; a line that does not parse is an empty row. */
  datatype Row = Row(body: RowBody, hash: Hash) | Corrupt

  type Digest = (Hash, RowBody) -> Hash

  predicate RowOk(h: Digest, prev: Hash, row: Row) {
    row.Row? && row.hash == h(prev, row.body) && row.body.prevHash == prev && row.body.kind != ""
  }

  /** The hash row `i` must link to. */
  function PrevAt(rows: seq<Row>, i: nat): Hash
    requires i <= |rows|
  {
    if i == 0 then GENESIS else if rows[i - 1].Row? then rows[i - 1].hash else GENESIS
  }

  function TailHash(rows: seq<Row>): Hash {
    PrevAt(rows, |rows|)
  }

  predicate LinkOk(h: Digest, rows: seq<Row>, i: nat)
    requires i < |rows|
  {
    RowOk(h, PrevAt(rows, i), rows[i])
  }

  predicate Verifies(h: Digest, rows: seq<Row>) {
    forall i :: 0 <= i < |rows| ==> LinkOk(h, rows, i)
  }

  lemma LinkLocal(h: Digest, a: seq<Row>, b: seq<Row>, i: nat)
    requires i < |a| && i < |b| && a[..i + 1] == b[..i + 1]
    ensures LinkOk(h, a, i) <==> LinkOk(h, b, i)
  {
    assert a[i] == a[..i + 1][i] && b[i] == b[..i + 1][i];
    if i > 0 { assert a[i - 1] == a[..i + 1][i - 1] && b[i - 1] == b[..i + 1][i - 1]; }
  }

  /** A ledger verifies exactly when its prefix does and its last row links. */
  lemma VerifiesSplit(h: Digest, rows: seq<Row>)
    requires rows != []
    ensures Verifies(h, rows) <==> Verifies(h, rows[..|rows| - 1]) && LinkOk(h, rows, |rows| - 1)
  {
    var rest := rows[..|rows| - 1];
    forall i | 0 <= i < |rest| ensures LinkOk(h, rest, i) <==> LinkOk(h, rows, i) {
      assert rest[..i + 1] == rows[..i + 1];
      LinkLocal(h, rest, rows, i);
    }
  }

  /** The row an appender that saw `seen` writes. */
  function LinkedRow(h: Digest, seen: seq<Row>, ts: string, kind: string, reason: string, data: string): Row {
    var body := RowBody(|seen|, ts, kind, reason, data, TailHash(seen));
    Row(body, h(TailHash(seen), body))
  }

  class AuditChain {
    const digest: Digest
    /** The file's lines. */
    var rows: seq<Row>

    constructor (h: Digest)
      ensures digest == h && rows == []
    {
      digest, rows := h, [];
    }

    /**
     * One locked append: read the tail, link to it, write. It raises, and writes nothing, on a
     * ledger whose last line is corrupt.
     */
    method Append(ts: string, kind: string, reason: string, data: string) returns (row: Option<Row>)
      modifies this
      ensures row.None? <==> old(rows) != [] && old(rows)[|old(rows)| - 1].Corrupt?
      ensures row.None? ==> rows == old(rows)
      ensures row.Some? ==> rows == old(rows) + [LinkedRow(digest, old(rows), ts, kind, reason, data)]
      ensures Verifies(digest, old(rows)) && kind != "" ==> row.Some? && Verifies(digest, rows)
    {
      var prevHash := GENESIS;
      if rows != [] {
        VerifiesSplit(digest, rows);
        if rows[|rows| - 1].Corrupt? { return None; }
        prevHash := rows[|rows| - 1].hash;
      }
      var body := RowBody(|rows|, ts, kind, reason, data, prevHash);
      var line := Row(body, digest(prevHash, body));
      if kind != "" { LinkVerifiesExactlyOnTail(digest, rows, rows, ts, kind, reason, data); }
      rows := rows + [line];
      row := Some(line);
    }

    /** Walk the chain: true on a verifying ledger, else the least bad index. */
    method Verify() returns (ok: bool, bad: int)
      ensures ok <==> Verifies(digest, rows)
      ensures ok ==> bad == -1
      ensures !ok ==>
        && 0 <= bad < |rows|
        && !LinkOk(digest, rows, bad)
        && Verifies(digest, rows[..bad])
    {
      var prev := GENESIS;
      for i := 0 to |rows|
        invariant prev == PrevAt(rows, i)
        invariant Verifies(digest, rows[..i])
      {
        assert rows[..i + 1][..i] == rows[..i];
        VerifiesSplit(digest, rows[..i + 1]);
        LinkLocal(digest, rows[..i + 1], rows, i);
        if !RowOk(digest, prev, rows[i]) {
          assert !LinkOk(digest, rows, i);
          return false, i;
        }
        prev := rows[i].hash;
      }
      assert rows[..|rows|] == rows;
      return true, -1;
    }
  }

  /**
   * An append onto a verifying ledger keeps it verifying exactly when the tail the appender linked
   * to is still the tail; a link to any other tail is a fork.
   */
  lemma LinkVerifiesExactlyOnTail(h: Digest, rows: seq<Row>, seen: seq<Row>,
                                  ts: string, kind: string, reason: string, data: string)
    requires kind != ""
    ensures Verifies(h, rows) ==>
      (Verifies(h, rows + [LinkedRow(h, seen, ts, kind, reason, data)]) <==> TailHash(seen) == TailHash(rows))
  {
    var all := rows + [LinkedRow(h, seen, ts, kind, reason, data)];
    assert all[..|rows|] == rows;
    VerifiesSplit(h, all);
    assert PrevAt(all, |rows|) == TailHash(rows);
  }

  /** Any prefix of a verifying ledger verifies: the chain alone cannot show a truncated tail. */
  lemma {:induction false} PrefixVerifies(h: Digest, rows: seq<Row>, n: nat)
    requires n <= |rows| && Verifies(h, rows)
    ensures Verifies(h, rows[..n])
  {
    if n == |rows| {
      assert rows[..n] == rows;
    } else {
      VerifiesSplit(h, rows);
      assert rows[..|rows| - 1][..n] == rows[..n];
      PrefixVerifies(h, rows[..|rows| - 1], n);
    }
  }

  // ---- many appenders ------------------------------------------------------------------------------

  /** What one appender wants to write. */
  datatype Entry = Entry(ts: string, kind: string, reason: string, data: string)

  /** Where an appender stands in `append`. A dead one never moves again. */
  datatype Pc = Idle | Waiting(e: Entry) | Locked(e: Entry) | HasRead(e: Entry, seen: seq<Row>) | HasWritten | Dead

  /** The file, the lock file's holder and every appender. */
  datatype System = System(file: seq<Row>, holder: Option<nat>, pcs: seq<Pc>)

  predicate InitSystem(s: System) {
    s.file == [] && s.holder.None? && forall p :: 0 <= p < |s.pcs| ==> s.pcs[p] == Idle
  }

  function Move(s: System, p: nat, pc: Pc): System
    requires p < |s.pcs|
  {
    s.(pcs := s.pcs[p := pc])
  }

  /** One atomic step of appender `p`; `e` is the entry when it starts an append. */
  predicate StepOf(h: Digest, s: System, t: System, p: nat, e: Entry)
    requires p < |s.pcs|
  {
    match s.pcs[p]
    case Idle => (e.kind != "" && t == Move(s, p, Waiting(e))) || t == Move(s, p, Dead)
    case Waiting(w) =>
      // exclusive creation succeeds only when no lock file exists
      || (s.holder.None? && t == Move(s, p, Locked(w)).(holder := Some(p)))
      || t == Move(s, p, Dead)
    case Locked(w) => t == Move(s, p, HasRead(w, s.file)) || t == Move(s, p, Dead)
    case HasRead(w, seen) =>
      || t == Move(s, p, HasWritten).(file := s.file + [LinkedRow(h, seen, w.ts, w.kind, w.reason, w.data)])
      || t == Move(s, p, Dead)
    case HasWritten => t == Move(s, p, Idle).(holder := None) || t == Move(s, p, Dead)
    case Dead => false
  }

  ghost predicate Next(h: Digest, s: System, t: System) {
    exists p: nat, e: Entry :: p < |s.pcs| && StepOf(h, s, t, p, e)
  }

  /** An interleaving of any number of appenders. */
  ghost predicate Execution(h: Digest, run: seq<System>) {
    && run != [] && InitSystem(run[0])
    && forall k :: 0 <= k < |run| - 1 ==> Next(h, run[k], run[k + 1])
  }

  predicate InCriticalSection(pc: Pc) {
    pc.Locked? || pc.HasRead? || pc.HasWritten?
  }

  /** Everything the invariant asks of the appenders, given the file and the holder. */
  predicate PcsOk(pcs: seq<Pc>, file: seq<Row>, holder: Option<nat>) {
    forall p :: 0 <= p < |pcs| ==> PcOk(pcs[p], p, file, holder)
  }

  predicate PcOk(pc: Pc, p: nat, file: seq<Row>, holder: Option<nat>) {
    && (InCriticalSection(pc) ==> holder == Some(p))
    && (pc.HasRead? ==> pc.seen == file)
    && ((pc.Waiting? || pc.Locked? || pc.HasRead?) ==> pc.e.kind != "")
  }

  /** One appender inside at a time, what it read is still the file, and the file verifies. */
  predicate Inv(h: Digest, s: System) {
    Verifies(h, s.file) && PcsOk(s.pcs, s.file, s.holder)
  }

  /** Who does not hold the lock does not notice a change of file or holder. */
  lemma OthersOk(s: System, p: nat, q: nat, file: seq<Row>, holder: Option<nat>)
    requires p < |s.pcs| && q < |s.pcs| && p != q && PcOk(s.pcs[q], q, s.file, s.holder)
    requires (file == s.file && holder == s.holder) || s.holder == Some(p) || (s.holder.None? && file == s.file)
    ensures PcOk(s.pcs[q], q, file, holder)
  {
  }

  lemma InvStep(h: Digest, s: System, t: System)
    requires Inv(h, s) && Next(h, s, t)
    ensures Inv(h, t) && s.file <= t.file
  {
    var p: nat, e: Entry :| p < |s.pcs| && StepOf(h, s, t, p, e);
    assert PcOk(s.pcs[p], p, s.file, s.holder);
    if s.pcs[p].HasRead? {
      var w := s.pcs[p].e;
      LinkVerifiesExactlyOnTail(h, s.file, s.pcs[p].seen, w.ts, w.kind, w.reason, w.data);
    }
    forall q | 0 <= q < |t.pcs| ensures PcOk(t.pcs[q], q, t.file, t.holder) {
      if q != p {
        assert t.pcs[q] == s.pcs[q];
        OthersOk(s, p, q, t.file, t.holder);
      }
    }
  }

  /**
   * Under the lock, in every interleaving of any number of appenders, dying anywhere, every
   * reachable ledger verifies and is only ever extended.
   */
  lemma {:induction false} EveryReachableLedgerVerifies(h: Digest, run: seq<System>)
    requires Execution(h, run)
    ensures forall k :: 0 <= k < |run| ==> Verifies(h, run[k].file)
    ensures forall j, k :: 0 <= j <= k < |run| ==> run[j].file <= run[k].file
    ensures Inv(h, run[|run| - 1])
  {
    if |run| > 1 {
      var rest := run[..|run| - 1];
      forall k | 0 <= k < |rest| - 1 ensures Next(h, rest[k], rest[k + 1]) {
        assert Next(h, run[k], run[k + 1]);
      }
      EveryReachableLedgerVerifies(h, rest);
      InvStep(h, run[|run| - 2], run[|run| - 1]);
    }
  }

  /** And appends do complete: with the lock free, any idle appender can write its row and let go again. */
  lemma AppendCanComplete(h: Digest, s: System, p: nat, e: Entry) returns (run: seq<System>)
    requires p < |s.pcs| && s.pcs[p] == Idle && s.holder.None? && e.kind != ""
    ensures |run| == 6 && run[0] == s && forall k :: 0 <= k < 5 ==> Next(h, run[k], run[k + 1])
    ensures run[5] == s.(file := s.file + [LinkedRow(h, s.file, e.ts, e.kind, e.reason, e.data)])
  {
    var row := LinkedRow(h, s.file, e.ts, e.kind, e.reason, e.data);
    var s1 := Move(s, p, Waiting(e));
    var s2 := Move(s1, p, Locked(e)).(holder := Some(p));
    var s3 := Move(s2, p, HasRead(e, s.file));
    var s4 := Move(s3, p, HasWritten).(file := s.file + [row]);
    var s5 := Move(s4, p, Idle).(holder := None);
    assert StepOf(h, s, s1, p, e) && StepOf(h, s1, s2, p, e) && StepOf(h, s2, s3, p, e);
    assert StepOf(h, s3, s4, p, e) && StepOf(h, s4, s5, p, e);
    assert s5.pcs == s.pcs;
    run := [s, s1, s2, s3, s4, s5];
  }

  /**
   * Why the lock is there: two appenders that read the same tail. The second write verifies only
   * if the first row's digest happens to equal the hash it links to.
   */
  lemma UnlockedAppendsFork(h: Digest, rows: seq<Row>, a: Entry, b: Entry)
    requires Verifies(h, rows) && a.kind != "" && b.kind != ""
    ensures var first := LinkedRow(h, rows, a.ts, a.kind, a.reason, a.data);
            var second := LinkedRow(h, rows, b.ts, b.kind, b.reason, b.data);
            && Verifies(h, rows + [first])
            && (Verifies(h, rows + [first] + [second]) <==> first.hash == TailHash(rows))
  {
    var first := LinkedRow(h, rows, a.ts, a.kind, a.reason, a.data);
    LinkVerifiesExactlyOnTail(h, rows, rows, a.ts, a.kind, a.reason, a.data);
    LinkVerifiesExactlyOnTail(h, rows + [first], rows, b.ts, b.kind, b.reason, b.data);
  }

  // ---- tampering -----------------------------------------------------------------------------------

  ghost predicate Injective(h: Digest) {
    forall p, x, q, y :: h(p, x) == h(q, y) ==> p == q && x == y
  }

  /** No row digests to the all-zero genesis hash. */
  ghost predicate AvoidsGenesis(h: Digest) {
    forall p, x :: h(p, x) != GENESIS
  }

  /** Two last rows with one hash are one row, linked to one previous hash. */
  lemma LastRowsAgree(h: Digest, a: seq<Row>, b: seq<Row>)
    requires Injective(h) && a != [] && b != [] && Verifies(h, a) && Verifies(h, b)
    requires TailHash(a) == TailHash(b)
    ensures a[|a| - 1] == b[|b| - 1]
    ensures Verifies(h, a[..|a| - 1]) && Verifies(h, b[..|b| - 1])
    ensures TailHash(a[..|a| - 1]) == TailHash(b[..|b| - 1])
  {
    VerifiesSplit(h, a);
    VerifiesSplit(h, b);
  }

  lemma SplitLast(a: seq<Row>)
    requires a != []
    ensures a == a[..|a| - 1] + [a[|a| - 1]]
  {
  }

  /**
   * The last hash pins the whole ledger: two verifying ledgers of one length that end on the same
   * hash are equal row by row.
   */
  lemma {:induction false} LastHashPinsLedger(h: Digest, a: seq<Row>, b: seq<Row>)
    requires Injective(h) && Verifies(h, a) && Verifies(h, b)
    requires |a| == |b| && TailHash(a) == TailHash(b)
    ensures a == b
  {
    if a != [] {
      LastRowsAgree(h, a, b);
      LastHashPinsLedger(h, a[..|a| - 1], b[..|b| - 1]);
      SplitLast(a);
      SplitLast(b);
    }
  }

  lemma NonEmptyTail(h: Digest, a: seq<Row>)
    requires AvoidsGenesis(h) && Verifies(h, a) && a != []
    ensures TailHash(a) != GENESIS
  {
    VerifiesSplit(h, a);
  }

  /** When no row digests to the genesis hash the lengths need not be known to agree. */
  lemma {:induction false} LastHashPinsLength(h: Digest, a: seq<Row>, b: seq<Row>)
    requires Injective(h) && AvoidsGenesis(h) && Verifies(h, a) && Verifies(h, b)
    requires TailHash(a) == TailHash(b)
    ensures a == b
    decreases |a| + |b|
  {
    if a == [] || b == [] {
      if a != [] { NonEmptyTail(h, a); }
      if b != [] { NonEmptyTail(h, b); }
    } else {
      LastRowsAgree(h, a, b);
      LastHashPinsLength(h, a[..|a| - 1], b[..|b| - 1]);
      SplitLast(a);
      SplitLast(b);
    }
  }

  /**
   * An edit breaks the chain no later than the first row it leaves alone: if row `j` is untouched
   * but something before it changed, the ledger up to `j` no longer verifies.
   */
  lemma EditIsCaughtByNextKeptRow(h: Digest, a: seq<Row>, b: seq<Row>, j: nat)
    requires Injective(h) && Verifies(h, a)
    requires j < |a| && j < |b| && a[j] == b[j] && a[..j] != b[..j]
    ensures !Verifies(h, b[..j + 1])
  {
    var a', b' := a[..j + 1], b[..j + 1];
    PrefixVerifies(h, a, j + 1);
    assert a'[..j] == a[..j] && b'[..j] == b[..j];
    if Verifies(h, b') {
      LastHashPinsLedger(h, a', b');
    }
  }
}
