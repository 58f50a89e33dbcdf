/** The migration ledger. */
module Migrations {
  // Across runs that stop anywhere.

  import opened Options

  /** A migration's source, identified with its statements; SHA-256 is injective, so a checksum stands for it. */
  type Source = seq<string>

  datatype Migration = Migration(version: int, name: string, source: Source)

  datatype RowStatus = APPLYING | APPLIED
  datatype Row = Row(version: int, name: string, checksum: Source, status: RowStatus)

  datatype Code =
    | DATABASE_MIGRATION_UNKNOWN_TO_APPLICATION | MIGRATION_CHECKSUM_MISMATCH
    | INCOMPLETE_MIGRATION_REQUIRES_MANUAL_REVIEW | MIGRATION_LEDGER_NOT_CONTIGUOUS
    | UNTRACKED_DATABASE_REQUIRES_REVIEWED_BASELINE | BASELINE_REQUIRES_UNTRACKED_DATABASE
    | BASELINE_SCHEMA_FINGERPRINT_CHANGED

  datatype Result<+T> = Ok(value: T) | Error(code: Code)

  /** A statement sent to the server. */
  datatype Entry = Entry(version: int, index: nat, statement: string)

  /** `foreign`: tables were there before any migration; `baseline`: version 1 was recorded without being run. */
  datatype Db = Db(foreign: bool, tracked: bool, baseline: bool, ledger: seq<Row>, log: seq<Entry>)

  /** What `load_migrations` returns: versions from 1 without gaps, each with a statement. */
  predicate Loaded(ms: seq<Migration>) {
    |ms| > 0 && forall i :: 0 <= i < |ms| ==> ms[i].version == i + 1 && ms[i].source != []
  }

  // ---- Validating the ledger ----

  function RowProblem(ms: seq<Migration>, row: Row): Option<Code>
    requires Loaded(ms)
  {
    if !(1 <= row.version <= |ms|) then Some(DATABASE_MIGRATION_UNKNOWN_TO_APPLICATION)
    else if row.checksum != ms[row.version - 1].source || row.name != ms[row.version - 1].name then
      Some(MIGRATION_CHECKSUM_MISMATCH)
    else if row.status != APPLIED then Some(INCOMPLETE_MIGRATION_REQUIRES_MANUAL_REVIEW)
    else None
  }

  function FirstProblem(ms: seq<Migration>, rows: seq<Row>): Option<Code>
    requires Loaded(ms)
  {
    if rows == [] then None
    else
      var p := FirstProblem(ms, rows[..|rows| - 1]);
      if p.Some? then p else RowProblem(ms, rows[|rows| - 1])
  }

  /** sorted(versions) == list(range(1, len(versions) + 1)) */
  predicate Contiguous(versions: seq<int>) { forall v :: 1 <= v <= |versions| ==> v in versions }

  function Versions(rows: seq<Row>): (vs: seq<int>)
    ensures |vs| == |rows| && forall i :: 0 <= i < |rows| ==> vs[i] == rows[i].version
  {
    seq(|rows|, i requires 0 <= i < |rows| => rows[i].version)
  }

  function Elements(vs: seq<int>): set<int> { set v | v in vs }

  predicate Within(v: int, n: nat) { 1 <= v <= n }

  function UpTo(n: nat): set<int> { set v: int | 1 <= v <= n && Within(v, n) }

  lemma {:induction false} UpToSize(n: nat)
    ensures |UpTo(n)| == n
  {
    if n > 0 {
      UpToSize(n - 1);
      assert UpTo(n) == UpTo(n - 1) + {n};
    }
  }

  lemma {:induction false} ElementsSize(vs: seq<int>)
    ensures |Elements(vs)| <= |vs|
  {
    if vs != [] {
      var n := |vs| - 1;
      ElementsSize(vs[..n]);
      assert vs == vs[..n] + [vs[n]];
      assert Elements(vs) == Elements(vs[..n]) + {vs[n]};
    }
  }

  /** A contiguous list holds nothing but 1 to its length. */
  lemma ContiguousIsExact(vs: seq<int>)
    requires Contiguous(vs)
    ensures forall v :: v in vs <==> 1 <= v <= |vs|
  {
    UpToSize(|vs|);
    ElementsSize(vs);
    var extra := Elements(vs) - UpTo(|vs|);
    assert Elements(vs) == UpTo(|vs|) + extra;
    assert extra == {};
    forall v | v in vs ensures 1 <= v <= |vs| { assert v in Elements(vs); }
  }

  /** The row records a migration of `ms` under its own name and checksum, and as applied. */
  ghost predicate Recorded(ms: seq<Migration>, row: Row) {
    exists i :: 0 <= i < |ms| && row == Row(i + 1, ms[i].name, ms[i].source, APPLIED)
  }

  /** The rows record the first migrations of `ms`, each exactly once, in whatever order they were read. */
  ghost predicate RecordsFirst(ms: seq<Migration>, rows: seq<Row>) {
    && |rows| <= |ms|
    && (forall i :: 0 <= i < |rows| ==> Recorded(ms, rows[i]) && rows[i].version <= |rows|)
    && (forall i, j :: 0 <= i < j < |rows| ==> rows[i].version != rows[j].version)
  }

  /** The first row that is not recorded as it should be, and what is said of it: its version is not known; or its
      name or its source is another; or else it was never finished. */
  ghost predicate FirstMisfit(ms: seq<Migration>, rows: seq<Row>, i: nat, code: Code)
    requires Loaded(ms)
  {
    && i < |rows| && !Recorded(ms, rows[i]) && (forall j :: 0 <= j < i ==> Recorded(ms, rows[j]))
    && var v := rows[i].version;
       && (code == DATABASE_MIGRATION_UNKNOWN_TO_APPLICATION <==> v < 1 || |ms| < v)
       && (code == MIGRATION_CHECKSUM_MISMATCH
           <==> 1 <= v <= |ms| && (rows[i].name != ms[v - 1].name || rows[i].checksum != ms[v - 1].source))
       && (code == INCOMPLETE_MIGRATION_REQUIRES_MANUAL_REVIEW
           <==> 1 <= v <= |ms| && rows[i] == Row(v, ms[v - 1].name, ms[v - 1].source, APPLYING))
  }

  lemma RecordedHasNoProblem(ms: seq<Migration>, row: Row)
    requires Loaded(ms)
    ensures Recorded(ms, row) <==> RowProblem(ms, row).None?
  {
    var i := row.version - 1;
    if 0 <= i < |ms| && RowProblem(ms, row).None? { assert row == Row(i + 1, ms[i].name, ms[i].source, APPLIED); }
  }

  lemma {:induction false} MisfitIsReported(ms: seq<Migration>, rows: seq<Row>)
    requires Loaded(ms)
    ensures if FirstProblem(ms, rows).Some? then exists i: nat :: FirstMisfit(ms, rows, i, FirstProblem(ms, rows).value)
            else forall i :: 0 <= i < |rows| ==> Recorded(ms, rows[i])
  {
    if rows != [] {
      var n := |rows| - 1;
      MisfitIsReported(ms, rows[..n]);
      RecordedHasNoProblem(ms, rows[n]);
      if FirstProblem(ms, rows[..n]).Some? {
        var i: nat :| FirstMisfit(ms, rows[..n], i, FirstProblem(ms, rows[..n]).value);
        assert FirstMisfit(ms, rows, i, FirstProblem(ms, rows).value);
      } else {
        forall i | 0 <= i < n ensures Recorded(ms, rows[i]) { assert rows[..n][i] == rows[i]; }
        if RowProblem(ms, rows[n]).Some? { assert FirstMisfit(ms, rows, n, RowProblem(ms, rows[n]).value); }
      }
    }
  }

  lemma {:induction false} DistinctFill(vs: seq<int>)
    requires forall i :: 0 <= i < |vs| ==> 1 <= vs[i] <= |vs|
    requires forall i, j :: 0 <= i < j < |vs| ==> vs[i] != vs[j]
    ensures Contiguous(vs)
  {
    DistinctSize(vs);
    UpToSize(|vs|);
    assert Elements(vs) <= UpTo(|vs|);
    var missing := UpTo(|vs|) - Elements(vs);
    assert UpTo(|vs|) == Elements(vs) + missing;
    assert missing == {};
    forall v | 1 <= v <= |vs| ensures v in vs { assert v in UpTo(|vs|); }
  }

  lemma {:induction false} DistinctSize(vs: seq<int>)
    requires forall i, j :: 0 <= i < j < |vs| ==> vs[i] != vs[j]
    ensures |Elements(vs)| == |vs|
  {
    if vs != [] {
      var n := |vs| - 1;
      DistinctSize(vs[..n]);
      assert vs == vs[..n] + [vs[n]];
      assert Elements(vs) == Elements(vs[..n]) + {vs[n]} && vs[n] !in Elements(vs[..n]);
    }
  }

  lemma {:induction false} ContiguousIsDistinct(vs: seq<int>)
    requires Contiguous(vs)
    ensures forall i, j :: 0 <= i < j < |vs| ==> vs[i] != vs[j]
  {
    forall i, j | 0 <= i < j < |vs| ensures vs[i] != vs[j] {
      if vs[i] == vs[j] {
        var rest := vs[..j] + vs[j + 1..];
        forall v | v in Elements(vs) ensures v in Elements(rest) {
          var k :| 0 <= k < |vs| && vs[k] == v;
          if k < j { assert rest[k] == v; } else if k > j { assert rest[k - 1] == v; } else { assert rest[i] == v; }
        }
        ElementsSize(rest);
        UpToSize(|vs|);
        assert UpTo(|vs|) <= Elements(vs) <= Elements(rest);
        SubsetSize(UpTo(|vs|), Elements(rest));
      }
    }
  }

  lemma SubsetSize(a: set<int>, b: set<int>)
    requires a <= b
    ensures |a| <= |b|
  {
    assert b == a + (b - a);
  }

  /** A ledger is accepted if and only if its rows record the first migrations there are, each once. */
  lemma AcceptedExactlyWhenRecorded(ms: seq<Migration>, rows: seq<Row>)
    requires Loaded(ms)
    ensures FirstProblem(ms, rows).None? && Contiguous(Versions(rows)) <==> RecordsFirst(ms, rows)
  {
    MisfitIsReported(ms, rows);
    var vs := Versions(rows);
    if FirstProblem(ms, rows).None? && Contiguous(vs) {
      ContiguousFits(ms, rows);
      ContiguousIsDistinct(vs);
      ContiguousIsExact(vs);
      forall i | 0 <= i < |rows| ensures rows[i].version <= |rows| { assert vs[i] in vs; }
      forall i, j | 0 <= i < j < |rows| ensures rows[i].version != rows[j].version { assert vs[i] != vs[j]; }
    }
    if RecordsFirst(ms, rows) {
      forall i | 0 <= i < |rows| ensures 1 <= vs[i] <= |vs| { assert Recorded(ms, rows[i]); }
      DistinctFill(vs);
    }
  }

  /** `validate_ledger`: accepted if and only if the rows record the first migrations, and then what is left to do is
      exactly the others; or else the first misfit is reported, or that versions are missing. */
  method ValidateLedger(ms: seq<Migration>, rows: seq<Row>) returns (r: Result<seq<Migration>>)
    requires Loaded(ms)
    ensures FirstProblem(ms, rows).Some? ==> r == Error(FirstProblem(ms, rows).value)
    ensures FirstProblem(ms, rows).None? && !Contiguous(Versions(rows)) ==> r == Error(MIGRATION_LEDGER_NOT_CONTIGUOUS)
    ensures FirstProblem(ms, rows).None? && Contiguous(Versions(rows)) ==> |rows| <= |ms| && r == Ok(ms[|rows|..])
    ensures r.Ok? <==> RecordsFirst(ms, rows)
  {
    AcceptedExactlyWhenRecorded(ms, rows);
    hide RecordsFirst, RowProblem;
    var versions: seq<int> := [];
    for i := 0 to |rows|
      invariant FirstProblem(ms, rows[..i]).None?
      invariant versions == Versions(rows[..i])
    {
      assert rows[..i + 1][..i] == rows[..i];
      var row := rows[i];
      var problem := RowProblem(ms, row);
      if problem.Some? {
        ProblemStays(ms, rows, i);
        return Error(problem.value);
      }
      versions := versions + [row.version];
    }
    assert rows[..|rows|] == rows;
    if !Contiguous(versions) { return Error(MIGRATION_LEDGER_NOT_CONTIGUOUS); }
    var pending := Pending(ms, rows, versions);
    return Ok(pending);
  }

  /** The migrations whose versions are not listed. */
  method Pending(ms: seq<Migration>, ghost rows: seq<Row>, versions: seq<int>) returns (pending: seq<Migration>)
    requires Loaded(ms) && versions == Versions(rows) && Contiguous(versions) && FirstProblem(ms, rows).None?
    ensures |rows| <= |ms| && pending == ms[|rows|..]
  {
    hide FirstProblem, RowProblem;
    ContiguousIsExact(versions);
    ContiguousFits(ms, rows);
    pending := [];
    for i := 0 to |ms|
      invariant pending == if i <= |rows| then [] else ms[|rows|..i]
    {
      if ms[i].version !in versions { pending := pending + [ms[i]]; }
    }
    assert ms[|rows|..|ms|] == ms[|rows|..];
  }

  lemma {:induction false} ProblemStays(ms: seq<Migration>, rows: seq<Row>, i: nat)
    requires Loaded(ms) && i < |rows| && FirstProblem(ms, rows[..i]).None? && RowProblem(ms, rows[i]).Some?
    ensures FirstProblem(ms, rows) == RowProblem(ms, rows[i])
    decreases |rows|
  {
    if i < |rows| - 1 {
      var rest := rows[..|rows| - 1];
      assert rest[..i] == rows[..i];
      ProblemStays(ms, rest, i);
    }
  }

  lemma {:induction false} NoProblemMeans(ms: seq<Migration>, rows: seq<Row>)
    requires Loaded(ms) && FirstProblem(ms, rows).None?
    ensures forall i :: 0 <= i < |rows| ==> RowProblem(ms, rows[i]).None?
  {
    if rows != [] { NoProblemMeans(ms, rows[..|rows| - 1]); }
  }

  lemma ContiguousFits(ms: seq<Migration>, rows: seq<Row>)
    requires Loaded(ms) && FirstProblem(ms, rows).None? && Contiguous(Versions(rows))
    ensures |rows| <= |ms|
  {
    NoProblemMeans(ms, rows);
    if |rows| > 0 {
      assert |rows| in Versions(rows);
      var i :| 0 <= i < |rows| && Versions(rows)[i] == |rows|;
      assert RowProblem(ms, rows[i]).None?;
    }
  }

  // ---- The steps of a run ----

  datatype Action = CreateLedger | Mark(migration: Migration) | Execute(entry: Entry) | Finish(migration: Migration)

  function EntriesOf(version: int, source: Source): (es: seq<Entry>)
    ensures |es| == |source|
    ensures forall i :: 0 <= i < |source| ==> es[i] == Entry(version, i, source[i])
  {
    seq(|source|, i requires 0 <= i < |source| => Entry(version, i, source[i]))
  }

  function Executes(m: Migration): (actions: seq<Action>)
    ensures |actions| == |m.source|
    ensures forall i :: 0 <= i < |m.source| ==> actions[i] == Execute(Entry(m.version, i, m.source[i]))
  {
    seq(|m.source|, i requires 0 <= i < |m.source| => Execute(Entry(m.version, i, m.source[i])))
  }

  function ActionsOf(m: Migration): seq<Action> { [Mark(m)] + Executes(m) + [Finish(m)] }

  function Actions(pending: seq<Migration>): seq<Action> {
    if pending == [] then [] else ActionsOf(pending[0]) + Actions(pending[1..])
  }

  function MarkedRow(m: Migration, status: RowStatus): Row { Row(m.version, m.name, m.source, status) }

  /** UPDATE schema_migrations SET status = 'APPLIED' WHERE version = ... AND checksum = ... */
  function Applied(rows: seq<Row>, m: Migration): (r: seq<Row>)
    ensures |r| == |rows|
    ensures forall i :: 0 <= i < |rows| ==>
              r[i] == if rows[i].version == m.version && rows[i].checksum == m.source
                      then rows[i].(status := APPLIED) else rows[i]
  {
    seq(|rows|, i requires 0 <= i < |rows| =>
      if rows[i].version == m.version && rows[i].checksum == m.source then rows[i].(status := APPLIED) else rows[i])
  }

  function Do(db: Db, a: Action): Db {
    match a
    case CreateLedger => db.(tracked := true)
    case Mark(m) => db.(ledger := db.ledger + [MarkedRow(m, APPLYING)])
    case Execute(e) => db.(log := db.log + [e])
    case Finish(m) => db.(ledger := Applied(db.ledger, m))
  }

  function DoAll(db: Db, actions: seq<Action>): Db {
    if actions == [] then db else Do(DoAll(db, actions[..|actions| - 1]), actions[|actions| - 1])
  }

  /** What a run of `apply` sets out to do. */
  function Plan(db: Db, ms: seq<Migration>): Result<seq<Action>>
    requires Loaded(ms)
  {
    if !db.tracked && (db.foreign || db.log != []) then Error(UNTRACKED_DATABASE_REQUIRES_REVIEWED_BASELINE)
    else
      var p := FirstProblem(ms, db.ledger);
      if p.Some? then Error(p.value)
      else if !Contiguous(Versions(db.ledger)) then Error(MIGRATION_LEDGER_NOT_CONTIGUOUS)
      else if |db.ledger| > |ms| then Error(DATABASE_MIGRATION_UNKNOWN_TO_APPLICATION)  // cannot happen
      else Ok((if db.tracked then [] else [CreateLedger]) + Actions(ms[|db.ledger|..]))
  }

  /** A run stops before its `n`-th action, by finishing, crashing or failing; an action whose commit raised counts if
      it took effect. */
  function ApplyUpTo(db: Db, ms: seq<Migration>, n: nat): Db
    requires Loaded(ms)
  {
    var plan := Plan(db, ms);
    if plan.Error? then db else DoAll(db, plan.value[..if n < |plan.value| then n else |plan.value|])
  }

  /** `baseline`: an existing schema, reviewed by its fingerprint, is recorded as version 1.  The process may die before
      its `n`-th action: creating the ledger, then committing its row. */
  function Baseline(db: Db, ms: seq<Migration>, reviewed: bool, n: nat): Db
    requires Loaded(ms)
  {
    if db.tracked || !db.foreign || !reviewed || n == 0 then db
    else if n == 1 then db.(tracked := true)
    else db.(tracked := true, baseline := true, ledger := [MarkedRow(ms[0], APPLIED)])
  }

  // ---- The invariant ----

  /** All statements of the given rows, in order. */
  function Full(rows: seq<Row>): seq<Entry> {
    if rows == [] then []
    else Full(rows[..|rows| - 1]) + EntriesOf(rows[|rows| - 1].version, rows[|rows| - 1].checksum)
  }

  /** The rows whose statements were run by this ledger. */
  function Run(db: Db): seq<Row> { if db.baseline && db.ledger != [] then db.ledger[1..] else db.ledger }

  ghost predicate Numbered(rows: seq<Row>) { forall i :: 0 <= i < |rows| ==> rows[i].version == i + 1 }
  ghost predicate AllApplied(rows: seq<Row>) { forall i :: 0 <= i < |rows| ==> rows[i].status == APPLIED }

  /** Nothing is under way: versions 1 to n are applied, and their statements are what was run. */
  ghost predicate Settled(db: Db) {
    && Numbered(db.ledger) && AllApplied(db.ledger)
    && (!db.tracked ==> db.ledger == [])
    && (db.baseline ==> db.ledger != [])
    && db.log == Full(Run(db))
  }

  /** The last version stopped half-way: some first part of its statements was run. */
  ghost predicate Stopped(db: Db) {
    && Numbered(db.ledger) && db.ledger != [] && db.tracked
    && (db.baseline ==> |db.ledger| > 1)
    && var n := |db.ledger| - 1;
       && AllApplied(db.ledger[..n]) && db.ledger[n].status == APPLYING
       && Full(Run(db.(ledger := db.ledger[..n]))) <= db.log <= Full(Run(db))
  }

  ghost predicate LedgerInv(db: Db) { Settled(db) || Stopped(db) }

  lemma RunOfMore(db: Db, row: Row)
    requires db.baseline ==> db.ledger != []
    ensures Run(db.(ledger := db.ledger + [row])) == Run(db) + [row]
    ensures Full(Run(db) + [row]) == Full(Run(db)) + EntriesOf(row.version, row.checksum)
  {
    var rows := Run(db) + [row];
    assert rows[..|rows| - 1] == Run(db);
  }

  /** The first `n` actions of one migration, from a settled ledger. */
  function Partly(db: Db, m: Migration, n: nat): Db
    requires n <= |m.source| + 2
  {
    if n == 0 then db
    else if n <= |m.source| + 1 then
      db.(ledger := db.ledger + [MarkedRow(m, APPLYING)], log := db.log + EntriesOf(m.version, m.source)[..n - 1])
    else
      db.(ledger := db.ledger + [MarkedRow(m, APPLIED)], log := db.log + EntriesOf(m.version, m.source))
  }

  lemma ExecuteNext(db: Db, m: Migration, n: nat)
    requires 1 <= n <= |m.source|
    ensures Do(Partly(db, m, n), ActionsOf(m)[n]) == Partly(db, m, n + 1)
  {
    var es := EntriesOf(m.version, m.source);
    assert ActionsOf(m)[n] == Execute(es[n - 1]);
    assert es[..n] == es[..n - 1] + [es[n - 1]];
  }

  lemma FinishNext(db: Db, m: Migration)
    requires Numbered(db.ledger) && m.version == |db.ledger| + 1
    ensures Do(Partly(db, m, |m.source| + 1), ActionsOf(m)[|m.source| + 1]) == Partly(db, m, |m.source| + 2)
  {
    var es := EntriesOf(m.version, m.source);
    assert es[..|es|] == es;
    assert Applied(db.ledger + [MarkedRow(m, APPLYING)], m) == db.ledger + [MarkedRow(m, APPLIED)];
  }

  lemma {:induction false} DoneIsPartly(db: Db, m: Migration, n: nat)
    requires Settled(db) && m.version == |db.ledger| + 1 && n <= |m.source| + 2
    ensures DoAll(db, ActionsOf(m)[..n]) == Partly(db, m, n)
    decreases n
  {
    hide Partly, Do, ActionsOf, Full;
    var actions := ActionsOf(m);
    ActionsCount(m);
    if n == 0 {
      FirstPart(db, m);
    } else {
      DoneIsPartly(db, m, n - 1);
      assert actions[..n][..n - 1] == actions[..n - 1];
      if n == 1 { FirstPart(db, m); }
      else if n <= |m.source| + 1 { ExecuteNext(db, m, n - 1); }
      else { FinishNext(db, m); }
    }
  }

  lemma ActionsCount(m: Migration)
    ensures |ActionsOf(m)| == |m.source| + 2
  {
  }

  lemma FirstPart(db: Db, m: Migration)
    ensures Partly(db, m, 0) == db && Do(db, ActionsOf(m)[0]) == Partly(db, m, 1)
  {
    assert EntriesOf(m.version, m.source)[..0] == [];
    assert db.log + [] == db.log;
  }

  lemma PartlyInv(db: Db, m: Migration, n: nat)
    requires Settled(db) && db.tracked && m.version == |db.ledger| + 1 && n <= |m.source| + 2
    ensures LedgerInv(Partly(db, m, n))
    ensures n == |m.source| + 2 ==> Settled(Partly(db, m, n)) && Partly(db, m, n).tracked
  {
    hide Full, Run;
    var u := Partly(db, m, n);
    if 0 < n <= |m.source| + 1 {
      RunOfMore(db, MarkedRow(m, APPLYING));
      var es := EntriesOf(m.version, m.source);
      RunReads(u, db.(ledger := u.ledger));
      RunReads(u.(ledger := db.ledger), db);
      assert u.ledger[..|db.ledger|] == db.ledger;
      assert es[..n - 1] <= es;
      assert Stopped(u);
    } else if n > 0 {
      RunOfMore(db, MarkedRow(m, APPLIED));
      RunReads(u, db.(ledger := u.ledger));
    }
  }

  lemma RunReads(db: Db, u: Db)
    requires u.baseline == db.baseline && u.ledger == db.ledger
    ensures Run(u) == Run(db)
  {
  }

  lemma {:induction false} DoAllSplit(db: Db, a: seq<Action>, b: seq<Action>)
    ensures DoAll(db, a + b) == DoAll(DoAll(db, a), b)
    decreases |b|
  {
    if b == [] {
      assert a + b == a;
    } else {
      var k := |b| - 1;
      assert (a + b)[..|a| + k] == a + b[..k];
      DoAllSplit(db, a, b[..k]);
    }
  }

  /** `u` has one more row for each of the pending migrations, all applied. */
  ghost predicate Appended(db: Db, pending: seq<Migration>, u: Db) {
    && |u.ledger| == |db.ledger| + |pending| && db.ledger <= u.ledger && u.baseline == db.baseline
    && forall i :: 0 <= i < |pending| ==> u.ledger[|db.ledger| + i] == MarkedRow(pending[i], APPLIED)
  }

  lemma {:induction false} ActionsKeepInv(db: Db, pending: seq<Migration>, n: nat)
    requires Settled(db) && db.tracked && n <= |Actions(pending)|
    requires forall i :: 0 <= i < |pending| ==> pending[i].version == |db.ledger| + i + 1
    ensures LedgerInv(DoAll(db, Actions(pending)[..n]))
    ensures n == |Actions(pending)| ==>
              Settled(DoAll(db, Actions(pending))) && Appended(db, pending, DoAll(db, Actions(pending)))
    decreases |pending|
  {
    hide Settled, LedgerInv, Partly, DoAll, ActionsOf;
    var actions := Actions(pending);
    if pending == [] {
      assert actions[..n] == [];
      NothingDone(db);
      SettledIsInv(db);
    } else {
      var m, k := pending[0], |pending[0].source| + 2;
      ActionsCount(m);
      PartlyLedger(db, m);
      if n <= k {
        assert actions[..n] == ActionsOf(m)[..n];
        DoneIsPartly(db, m, n);
        PartlyInv(db, m, n);
      }
      if n >= k {
        assert actions[..n] == ActionsOf(m) + Actions(pending[1..])[..n - k];
        assert ActionsOf(m)[..k] == ActionsOf(m);
        DoneIsPartly(db, m, k);
        PartlyInv(db, m, k);
        DoAllSplit(db, ActionsOf(m), Actions(pending[1..])[..n - k]);
        ActionsKeepInv(Partly(db, m, k), pending[1..], n - k);
        if n == |actions| {
          assert actions[..n] == actions;
          assert Actions(pending[1..])[..n - k] == Actions(pending[1..]);
        }
      }
    }
  }

  lemma PartlyLedger(db: Db, m: Migration)
    ensures var u := Partly(db, m, |m.source| + 2);
            u.ledger == db.ledger + [MarkedRow(m, APPLIED)] && u.baseline == db.baseline
  {
  }

  lemma NothingDone(db: Db)
    ensures DoAll(db, []) == db
  {
  }

  lemma SettledIsInv(db: Db)
    requires Settled(db)
    ensures LedgerInv(db)
  {
  }

  // ---- Runs ----

  datatype Event = OnApply(migrations: seq<Migration>, n: nat) | OnBaseline(migrations: seq<Migration>, reviewed: bool, n: nat)

  function Step(db: Db, e: Event): Db
    requires Loaded(e.migrations)
  {
    match e
    case OnApply(ms, n) => ApplyUpTo(db, ms, n)
    case OnBaseline(ms, reviewed, n) => Baseline(db, ms, reviewed, n)
  }

  function After(db: Db, es: seq<Event>): Db
    requires forall i :: 0 <= i < |es| ==> Loaded(es[i].migrations)
  {
    if es == [] then db else Step(After(db, es[..|es| - 1]), es[|es| - 1])
  }

  function Untouched(foreign: bool): Db { Db(foreign, false, false, [], []) }

  lemma ApplyKeepsInv(db: Db, ms: seq<Migration>, n: nat)
    requires LedgerInv(db) && Loaded(ms)
    ensures LedgerInv(ApplyUpTo(db, ms, n))
    ensures Plan(db, ms).Ok? ==>
              && Settled(db)
              && (n >= |Plan(db, ms).value| ==>
                   && Settled(ApplyUpTo(db, ms, n)) && |db.ledger| <= |ms|
                   && Appended(db, ms[|db.ledger|..], ApplyUpTo(db, ms, n)))
  {
    var plan := Plan(db, ms);
    if plan.Ok? {
      NoProblemMeans(ms, db.ledger);
      assert AllApplied(db.ledger) by {
        forall i | 0 <= i < |db.ledger| ensures db.ledger[i].status == APPLIED {
          assert RowProblem(ms, db.ledger[i]).None?;
        }
      }
      assert Settled(db);
      PlannedActions(db, ms, if n < |plan.value| then n else |plan.value|);
    }
  }

  lemma PlannedActions(db: Db, ms: seq<Migration>, n: nat)
    requires Settled(db) && Loaded(ms) && Plan(db, ms).Ok? && n <= |Plan(db, ms).value|
    ensures LedgerInv(DoAll(db, Plan(db, ms).value[..n]))
    ensures n == |Plan(db, ms).value| ==>
              var u := DoAll(db, Plan(db, ms).value[..n]); Settled(u) && Appended(db, ms[|db.ledger|..], u)
  {
    hide Settled, LedgerInv, Actions, Appended, DoAll;
    var actions, pending := Plan(db, ms).value, ms[|db.ledger|..];
    PlannedAre(db, ms);
    hide Plan;
    if db.tracked {
      assert actions == Actions(pending);
      ActionsKeepInv(db, pending, n);
      if n == |actions| { assert actions[..n] == actions; }
    } else if n == 0 {
      assert actions[..0] == [];
      NothingDone(db);
      SettledIsInv(db);
    } else {
      var u := db.(tracked := true);
      TrackedSettled(db);
      assert actions[..n] == [CreateLedger] + Actions(pending)[..n - 1];
      DoAllSplit(db, [CreateLedger], Actions(pending)[..n - 1]);
      LedgerCreated(db);
      ActionsKeepInv(u, pending, n - 1);
      if n == |actions| {
        assert Actions(pending)[..n - 1] == Actions(pending);
        AppendedReads(u, db, pending, DoAll(u, Actions(pending)));
      }
    }
  }

  lemma PlannedAre(db: Db, ms: seq<Migration>)
    requires Loaded(ms) && Plan(db, ms).Ok?
    ensures |db.ledger| <= |ms|
    ensures Plan(db, ms).value == (if db.tracked then [] else [CreateLedger]) + Actions(ms[|db.ledger|..])
  {
    hide Actions, FirstProblem, Contiguous;
  }

  lemma LedgerCreated(db: Db)
    ensures DoAll(db, [CreateLedger]) == db.(tracked := true)
  {
    assert [CreateLedger][..0] == [];
  }

  lemma AppendedReads(db: Db, d: Db, pending: seq<Migration>, u: Db)
    requires Appended(db, pending, u) && d.ledger == db.ledger && d.baseline == db.baseline
    ensures Appended(d, pending, u)
  {
  }

  lemma TrackedSettled(db: Db)
    requires Settled(db)
    ensures Settled(db.(tracked := true))
  {
    RunReads(db, db.(tracked := true));
    hide Full, Run;
  }

  lemma {:induction false} AfterInv(foreign: bool, es: seq<Event>)
    requires forall i :: 0 <= i < |es| ==> Loaded(es[i].migrations)
    ensures LedgerInv(After(Untouched(foreign), es))
  {
    if es != [] {
      var e := es[|es| - 1];
      AfterInv(foreign, es[..|es| - 1]);
      var db := After(Untouched(foreign), es[..|es| - 1]);
      if e.OnApply? { ApplyKeepsInv(db, e.migrations, e.n); }
      else if Baseline(db, e.migrations, e.reviewed, e.n) != db {
        BaselineInv(db, e.migrations, e.reviewed, e.n);
      }
    }
  }

  lemma BaselineInv(db: Db, ms: seq<Migration>, reviewed: bool, n: nat)
    requires LedgerInv(db) && Loaded(ms)
    ensures LedgerInv(Baseline(db, ms, reviewed, n))
  {
    var u := Baseline(db, ms, reviewed, n);
    if u != db {
      assert Run(db) == [] && Run(u) == [];
      assert Settled(u);
    }
  }

  // ---- The promises ----

  /** Entry `x` comes before entry `y`. */
  predicate Before(x: Entry, y: Entry) { x.version < y.version || (x.version == y.version && x.index < y.index) }

  lemma {:induction false} FullIsOrdered(rows: seq<Row>, first: int)
    requires forall i :: 0 <= i < |rows| ==> rows[i].version == first + i
    ensures forall i :: 0 <= i < |Full(rows)| ==> first <= Full(rows)[i].version < first + |rows|
    ensures forall i, j :: 0 <= i < j < |Full(rows)| ==> Before(Full(rows)[i], Full(rows)[j])
  {
    if rows != [] { FullIsOrdered(rows[..|rows| - 1], first); }
  }

  /** Over any runs, each stopped anywhere: the ledger is APPLIED 1 to k and at most one APPLYING k + 1; what was run is
      all statements of the applied versions and a first part of the one under way, each once, in version order. */
  lemma EachStatementOnceInOrder(foreign: bool, es: seq<Event>)
    requires forall i :: 0 <= i < |es| ==> Loaded(es[i].migrations)
    ensures var db := After(Untouched(foreign), es);
            && Numbered(db.ledger)
            && (forall i :: 0 <= i < |db.ledger| - 1 ==> db.ledger[i].status == APPLIED)
            && (forall i, j :: 0 <= i < j < |db.log| ==> Before(db.log[i], db.log[j]))
            && db.log <= Full(Run(db))
            && (AllApplied(db.ledger) ==> db.log == Full(Run(db)))
  {
    AfterInv(foreign, es);
    hide After, LedgerInv;
    InvMeans(After(Untouched(foreign), es));
  }

  lemma InvMeans(db: Db)
    requires LedgerInv(db)
    ensures Numbered(db.ledger)
    ensures forall i :: 0 <= i < |db.ledger| - 1 ==> db.ledger[i].status == APPLIED
    ensures forall i, j :: 0 <= i < j < |db.log| ==> Before(db.log[i], db.log[j])
    ensures db.log <= Full(Run(db)) && (AllApplied(db.ledger) ==> db.log == Full(Run(db)))
  {
    FullIsOrdered(Run(db), if db.baseline && db.ledger != [] then 2 else 1);
    hide Full, Run, Before;
    if !Settled(db) { assert db.ledger[..|db.ledger| - 1][..] == db.ledger[..|db.ledger| - 1]; }
  }

  /** What a run sets out on is a ledger that records the first of its own migrations: with any row of another name or
      source, unknown, unfinished or missing, it changes nothing at all. */
  lemma MisfitsStopEverything(db: Db, ms: seq<Migration>, n: nat)
    requires Loaded(ms) && !RecordsFirst(ms, db.ledger)
    ensures Plan(db, ms).Error? && ApplyUpTo(db, ms, n) == db
  {
    AcceptedExactlyWhenRecorded(ms, db.ledger);
    hide FirstProblem, RecordsFirst;
  }

  /** All statements of migrations `from` to `to` of `ms`, and none of others. */
  ghost predicate LoggedExactly(log: seq<Entry>, ms: seq<Migration>, from: nat, to: nat)
    requires Loaded(ms) && to <= |ms|
  {
    forall x :: x in log <==>
      from <= x.version - 1 < to && x.index < |ms[x.version - 1].source| && x.statement == ms[x.version - 1].source[x.index]
  }

  lemma {:induction false} FullIsExact(rows: seq<Row>, ms: seq<Migration>, from: nat)
    requires Loaded(ms) && from + |rows| <= |ms|
    requires forall i :: 0 <= i < |rows| ==>
               rows[i].version == from + i + 1 && rows[i].checksum == ms[from + i].source
    ensures LoggedExactly(Full(rows), ms, from, from + |rows|)
  {
    if rows != [] {
      var n := |rows| - 1;
      FullIsExact(rows[..n], ms, from);
      var last, before := EntriesOf(rows[n].version, rows[n].checksum), Full(rows[..n]);
      assert Full(rows) == before + last;
      forall x
        ensures x in Full(rows) <==>
                from <= x.version - 1 < from + |rows| && x.index < |ms[x.version - 1].source|
                && x.statement == ms[x.version - 1].source[x.index]
      {
        assert x in Full(rows) <==> x in before || x in last;
        if x.version == rows[n].version && x.index < |last| { assert last[x.index] == Entry(x.version, x.index, ms[from + n].source[x.index]); }
      }
    }
  }

  /** Over any runs, with whatever sets of migrations: a run that executes a statement found the first of its own
      migrations recorded, in order, under their own names and sources; and what had been run before it was, apart from
      a baseline, exactly the statements of those. */
  lemma RunsBuildOnTheirOwnHistory(foreign: bool, es: seq<Event>, ms: seq<Migration>, n: nat)
    requires forall i :: 0 <= i < |es| ==> Loaded(es[i].migrations)
    requires Loaded(ms) && ApplyUpTo(After(Untouched(foreign), es), ms, n).log != After(Untouched(foreign), es).log
    ensures var db := After(Untouched(foreign), es);
            && |db.ledger| <= |ms|
            && (forall i :: 0 <= i < |db.ledger| ==> db.ledger[i] == Row(i + 1, ms[i].name, ms[i].source, APPLIED))
            && LoggedExactly(db.log, ms, if db.baseline then 1 else 0, |db.ledger|)
  {
    hide After, LedgerInv, ApplyUpTo;
    AfterInv(foreign, es);
    RunBuildsOnItsHistory(After(Untouched(foreign), es), ms, n);
  }

  lemma RunBuildsOnItsHistory(db: Db, ms: seq<Migration>, n: nat)
    requires LedgerInv(db) && Loaded(ms) && ApplyUpTo(db, ms, n) != db
    ensures |db.ledger| <= |ms|
    ensures forall i :: 0 <= i < |db.ledger| ==> db.ledger[i] == Row(i + 1, ms[i].name, ms[i].source, APPLIED)
    ensures LoggedExactly(db.log, ms, if db.baseline then 1 else 0, |db.ledger|)
  {
    hide LedgerInv, ApplyUpTo, Plan, RecordsFirst, LoggedExactly, Settled, Full;
    if !RecordsFirst(ms, db.ledger) { MisfitsStopEverything(db, ms, n); }
    ApplyKeepsInv(db, ms, n);
    if Plan(db, ms).Error? { RefusedChangesNothing(db, ms, n); }
    SettledLog(db);
    RecordedInOrder(ms, db.ledger);
    var from := if db.baseline then 1 else 0;
    FullIsExact(db.ledger[from..], ms, from);
  }

  lemma RefusedChangesNothing(db: Db, ms: seq<Migration>, n: nat)
    requires Loaded(ms) && Plan(db, ms).Error?
    ensures ApplyUpTo(db, ms, n) == db
  {
  }

  lemma RecordedInOrder(ms: seq<Migration>, rows: seq<Row>)
    requires RecordsFirst(ms, rows) && Numbered(rows)
    ensures |rows| <= |ms|
    ensures forall i :: 0 <= i < |rows| ==> rows[i] == Row(i + 1, ms[i].name, ms[i].source, APPLIED)
  {
    forall i | 0 <= i < |rows| ensures rows[i] == Row(i + 1, ms[i].name, ms[i].source, APPLIED) {
      assert Recorded(ms, rows[i]);
    }
  }

  lemma SettledLog(db: Db)
    requires Settled(db)
    ensures Numbered(db.ledger) && (db.baseline ==> db.ledger != [])
    ensures db.log == Full(db.ledger[if db.baseline then 1 else 0..])
  {
  }

  /** A run that finds a version under way touches nothing: an operator has to review it. */
  lemma UnderWayStopsEverything(db: Db, ms: seq<Migration>, n: nat)
    requires LedgerInv(db) && Loaded(ms) && exists i :: 0 <= i < |db.ledger| && db.ledger[i].status == APPLYING
    ensures Plan(db, ms).Error? && ApplyUpTo(db, ms, n) == db
  {
    if Plan(db, ms).Ok? {
      ApplyKeepsInv(db, ms, n);
      assert false;
    }
  }

  /** A run goes ahead if and only if the database is tracked or empty and its ledger records the first migrations. */
  lemma ProceedsExactlyWhen(db: Db, ms: seq<Migration>)
    requires Loaded(ms)
    ensures Plan(db, ms).Ok? <==> (db.tracked || (!db.foreign && db.log == [])) && RecordsFirst(ms, db.ledger)
    ensures !db.tracked && (db.foreign || db.log != []) ==>
              Plan(db, ms) == Error(UNTRACKED_DATABASE_REQUIRES_REVIEWED_BASELINE)
  {
    AcceptedExactlyWhenRecorded(ms, db.ledger);
    hide FirstProblem, Contiguous;
    if RecordsFirst(ms, db.ledger) { assert |db.ledger| <= |ms|; }
    hide RecordsFirst;
  }

  /** Whatever runs were stopped before it, a run that goes ahead and is not stopped leaves exactly the ledger of its
      migrations, all applied, with all their statements run, apart from a baseline. */
  lemma UnstoppedRunCompletes(foreign: bool, es: seq<Event>, ms: seq<Migration>, n: nat)
    requires forall i :: 0 <= i < |es| ==> Loaded(es[i].migrations)
    requires Loaded(ms)
    requires var db := After(Untouched(foreign), es);
             && (db.tracked || (!db.foreign && db.log == [])) && RecordsFirst(ms, db.ledger)
             && (Plan(db, ms).Ok? ==> n >= |Plan(db, ms).value|)
    ensures var db := ApplyUpTo(After(Untouched(foreign), es), ms, n);
            && |db.ledger| == |ms|
            && (forall i :: 0 <= i < |ms| ==> db.ledger[i] == Row(i + 1, ms[i].name, ms[i].source, APPLIED))
            && LoggedExactly(db.log, ms, if db.baseline then 1 else 0, |ms|)
  {
    hide After, LedgerInv, ApplyUpTo, RecordsFirst, LoggedExactly, Plan;
    AfterInv(foreign, es);
    ProceedsExactlyWhen(After(Untouched(foreign), es), ms);
    CompletedRun(After(Untouched(foreign), es), ms, n);
  }

  lemma CompletedRun(db: Db, ms: seq<Migration>, n: nat)
    requires LedgerInv(db) && Loaded(ms) && RecordsFirst(ms, db.ledger)
    requires Plan(db, ms).Ok? && n >= |Plan(db, ms).value|
    ensures var u := ApplyUpTo(db, ms, n);
            && |u.ledger| == |ms|
            && (forall i :: 0 <= i < |ms| ==> u.ledger[i] == Row(i + 1, ms[i].name, ms[i].source, APPLIED))
            && LoggedExactly(u.log, ms, if u.baseline then 1 else 0, |ms|)
  {
    hide LedgerInv, ApplyUpTo, RecordsFirst, LoggedExactly, Settled, Full, Plan, Appended;
    ApplyKeepsInv(db, ms, n);
    SettledLog(db);
    RecordedInOrder(ms, db.ledger);
    var u := ApplyUpTo(db, ms, n);
    SettledLog(u);
    AllRecorded(db, ms, u);
    var from := if u.baseline then 1 else 0;
    FullIsExact(u.ledger[from..], ms, from);
  }

  lemma AllRecorded(db: Db, ms: seq<Migration>, u: Db)
    requires Loaded(ms) && |db.ledger| <= |ms| && Appended(db, ms[|db.ledger|..], u)
    requires forall i :: 0 <= i < |db.ledger| ==> db.ledger[i] == Row(i + 1, ms[i].name, ms[i].source, APPLIED)
    ensures |u.ledger| == |ms|
    ensures forall i :: 0 <= i < |ms| ==> u.ledger[i] == Row(i + 1, ms[i].name, ms[i].source, APPLIED)
  {
    forall i | 0 <= i < |ms| ensures u.ledger[i] == Row(i + 1, ms[i].name, ms[i].source, APPLIED) {
      if i >= |db.ledger| {
        var k := i - |db.ledger|;
        assert u.ledger[|db.ledger| + k] == MarkedRow(ms[|db.ledger|..][k], APPLIED);
      }
    }
  }

  /** A baseline takes effect only on a reviewed database with tables and no ledger: it records version 1 as applied and
      runs nothing. */
  lemma BaselineRunsNothing(db: Db, ms: seq<Migration>, reviewed: bool, n: nat)
    requires Loaded(ms)
    ensures var u := Baseline(db, ms, reviewed, n);
            && u.log == db.log
            && (u != db <==> !db.tracked && db.foreign && reviewed && n > 0)
            && (u.ledger != db.ledger ==> u.tracked && u.ledger == [Row(1, ms[0].name, ms[0].source, APPLIED)])
            && (!db.tracked && db.foreign && reviewed && n >= 2 ==>
                  u.baseline && u.ledger == [Row(1, ms[0].name, ms[0].source, APPLIED)])
  {
  }

  /** But one that dies between creating the ledger and its row leaves a ledger that is empty, over tables that are not: the
      next run takes that for a fresh installation and starts to execute version 1. */
  lemma AStoppedBaselineIsMigratedOver(ms: seq<Migration>)
    requires Loaded(ms)
    ensures var db := Baseline(Untouched(true), ms, true, 1);
            && db.foreign && db == After(Untouched(true), [OnBaseline(ms, true, 1)])
            && ApplyUpTo(db, ms, 2).log == [Entry(1, 0, ms[0].source[0])]
  {
    hide Settled, Partly, DoAll, ActionsOf;
    var db := Baseline(Untouched(true), ms, true, 1);
    assert [OnBaseline(ms, true, 1)][..0] == [];
    EmptyIsSettled(db, ms);
    ProceedsExactlyWhen(db, ms);
    PlannedAre(db, ms);
    ActionsCount(ms[0]);
    assert ms[0..][0] == ms[0];
    assert Plan(db, ms).value[..2] == ActionsOf(ms[0])[..2];
    DoneIsPartly(db, ms[0], 2);
    TwoDone(db, ms[0]);
    hide FirstProblem, Contiguous, Actions;
  }

  lemma EmptyIsSettled(db: Db, ms: seq<Migration>)
    requires db.ledger == [] && db.log == [] && !db.baseline && Loaded(ms)
    ensures Settled(db) && RecordsFirst(ms, db.ledger)
  {
  }

  lemma TwoDone(db: Db, m: Migration)
    requires m.source != [] && db.log == []
    ensures Partly(db, m, 2).log == [Entry(m.version, 0, m.source[0])]
  {
    assert EntriesOf(m.version, m.source)[..1] == [Entry(m.version, 0, m.source[0])];
  }

  // ---- The runner ----

  /** The database and how much longer this process lives: at `left` zero it dies before its next action. */
  class Runner {
    var db: Db
    var left: nat

    constructor (foreign: bool)
      ensures db == Untouched(foreign) && left == 0
    {
      db, left := Untouched(foreign), 0;
    }

    method Act(a: Action) returns (alive: bool)
      modifies this
      ensures alive <==> old(left) > 0
      ensures db == (if alive then Do(old(db), a) else old(db)) && left == if alive then old(left) - 1 else 0
    {
      alive := left > 0;
      if alive {
        left := left - 1;
        match a
        case CreateLedger => db := db.(tracked := true);
        case Mark(m) => db := db.(ledger := db.ledger + [Row(m.version, m.name, m.source, APPLYING)]);
        case Execute(e) => db := db.(log := db.log + [e]);
        case Finish(m) => db := db.(ledger := Applied(db.ledger, m));
      }
    }

    /** The actions of one migration, one statement after the other. */
    method ApplyOne(m: Migration) returns (alive: bool)
      modifies this
      ensures alive <==> old(left) >= |ActionsOf(m)|
      ensures alive ==> left == old(left) - |ActionsOf(m)| && db == DoAll(old(db), ActionsOf(m))
      ensures !alive ==> left == 0 && db == DoAll(old(db), ActionsOf(m)[..old(left)])
    {
      hide Do;
      ghost var start, actions, lives := db, ActionsOf(m), left;
      assert actions[..0] == [];
      NextDone(start, actions, 0);
      alive := Act(Mark(m));
      if !alive { return; }
      for i := 0 to |m.source|
        invariant lives >= i + 1 && left == lives - (i + 1)
        invariant db == DoAll(start, actions[..i + 1])
      {
        NextDone(start, actions, i + 1);
        assert actions[i + 1] == Execute(Entry(m.version, i, m.source[i]));
        alive := Act(Execute(Entry(m.version, i, m.source[i])));
        if !alive { return; }
      }
      NextDone(start, actions, |m.source| + 1);
      assert actions[..|actions|] == actions;
      alive := Act(Finish(m));
    }

    /** The loop of `apply`, `done` actions into its plan. */
    method ApplyPending(pending: seq<Migration>, ghost start: Db, ghost plan: seq<Action>, ghost done: nat)
      returns (applied: seq<int>)
      requires done <= |plan| && db == DoAll(start, plan[..done]) && plan[done..] == Actions(pending)
      modifies this
      ensures var n := done + old(left); db == DoAll(start, plan[..if n < |plan| then n else |plan|])
      ensures |applied| <= |pending| && forall i :: 0 <= i < |applied| ==> applied[i] == pending[i].version
      ensures done + old(left) >= |plan| ==> |applied| == |pending|
    {
      hide DoAll, ActionsOf;
      ghost var lives := left;
      ghost var at: nat := done;
      applied := [];
      for i := 0 to |pending|
        invariant done <= at <= |plan| && left == lives - (at - done)
        invariant db == DoAll(start, plan[..at])
        invariant plan[at..] == Actions(pending[i..])
        invariant |applied| == i && forall j :: 0 <= j < i ==> applied[j] == pending[j].version
      {
        var m := pending[i];
        ghost var k := |ActionsOf(m)|;
        assert pending[i..][1..] == pending[i + 1..];
        NextMigration(start, plan, at, pending[i..], if k < left then k else left);
        var alive := ApplyOne(m);
        if !alive { return; }
        at := at + k;
        applied := applied + [m.version];
      }
      assert plan[at..] == [];
    }

    /** `apply`, in a process that dies after `n` actions if it has not finished by then. */
    method Apply(ms: seq<Migration>, n: nat) returns (r: Result<seq<int>>)
      requires Loaded(ms) && LedgerInv(db)
      modifies this
      ensures db == ApplyUpTo(old(db), ms, n)
      ensures r.Error? ==> db == old(db)
      ensures !RecordsFirst(ms, old(db).ledger) ==> db == old(db)
      ensures r.Ok? ==> forall i :: 0 <= i < |r.value| ==> r.value[i] == |old(db).ledger| + i + 1
    {
      hide Do, Actions, DoAll, LedgerInv, FirstProblem, Contiguous, RecordsFirst;
      if !RecordsFirst(ms, db.ledger) { MisfitsStopEverything(db, ms, n); }
      left := n;
      ghost var start := db;
      if !db.tracked && (db.foreign || db.log != []) { return Error(UNTRACKED_DATABASE_REQUIRES_REVIEWED_BASELINE); }
      var validated := ValidateLedger(ms, db.ledger);
      if validated.Error? { return Error(validated.code); }
      ghost var plan := Plan(start, ms).value;
      NothingDone(start);
      assert plan[..0] == [];
      var done := 0;
      if !db.tracked {
        NextDone(start, plan, 0);
        var alive := Act(CreateLedger);
        if !alive { return Ok([]); }
        done := 1;
      }
      assert plan[done..] == Actions(validated.value);
      var applied := ApplyPending(validated.value, start, plan, done);
      return Ok(applied);
    }
  }

  lemma NextDone(db: Db, actions: seq<Action>, i: nat)
    requires i < |actions|
    ensures DoAll(db, actions[..i + 1]) == Do(DoAll(db, actions[..i]), actions[i])
    ensures DoAll(db, []) == db
  {
    assert actions[..i + 1][..i] == actions[..i];
  }

  /** Running the next migration, or the first `k` of its actions, carries the plan that much further. */
  lemma NextMigration(db: Db, plan: seq<Action>, done: nat, pending: seq<Migration>, k: nat)
    requires done <= |plan| && pending != [] && plan[done..] == Actions(pending) && k <= |ActionsOf(pending[0])|
    ensures var actions := ActionsOf(pending[0]);
            && done + |actions| <= |plan| && plan[done + |actions|..] == Actions(pending[1..])
            && DoAll(DoAll(db, plan[..done]), actions) == DoAll(db, plan[..done + |actions|])
            && DoAll(DoAll(db, plan[..done]), actions[..k]) == DoAll(db, plan[..done + k])
  {
    hide DoAll, ActionsOf;
    var actions := ActionsOf(pending[0]);
    assert plan[done..][..|actions|] == actions;
    assert plan[..done + |actions|] == plan[..done] + actions;
    assert plan[..done + k] == plan[..done] + actions[..k];
    DoAllSplit(db, plan[..done], actions);
    DoAllSplit(db, plan[..done], actions[..k]);
    assert plan[done + |actions|..] == plan[done..][|actions|..];
  }
}
