/** The migration command line's `init`, `create`, `up`, `down` and `clear`
    actions as steps of a small state machine over an abstract database. */
module MigrationCli {
  import opened Wrappers
  import opened Seqs
  import opened Strings
  import opened SchemaTypes
  import MG = MigrationGenerator
  import SM = SchemaManager
  import MB = MigrationBuilder

  /** A row of the `_migrations` tracking table (`executed_at` left out). */
  datatype Row = Row(id: string, name: string, timestamp: int)

  /** The database as the runner sees it: the migration and clear statements
      committed so far, in order, and the tracking table's rows, `None` while
      the table does not exist. */
  datatype Db = Db(log: seq<string>, tracking: Option<seq<Row>>)

  /** A statement sent to the server: SQL text, or one of the two
      parameterised statements on the tracking table with its bound values
      (`INSERT INTO _migrations (id, name, timestamp) VALUES ($1, $2, $3)` and
      `DELETE FROM _migrations WHERE id = $1`). */
  datatype Stmt =
    | Sql(text: string)
    | InsertRow(row: Row)
    | DeleteRow(id: string)

  /** Whether the server accepts a statement after the given committed ones
      (those of the open transaction included); the model does not interpret
      SQL, so a column width, a constraint or a lost connection is the
      engine's to decide. */
  type Engine = (seq<string>, Stmt) -> bool

  datatype RunError =
    | QueryFailed(sql: string)
    | TrackingRejected(stmt: Stmt)
    | TrackingTableMissing
    | DuplicateId(id: string)
    | CorruptFile(file: string)
    | FileNotFound
    | SchemaUnreadable

  /** The outcome of an action: the database afterwards, and the error that
      ended it, if any. */
  datatype Run = Run(db: Db, error: Option<RunError>)

  function Ids(rows: seq<Row>): (r: set<string>)
    ensures forall x :: x in r <==> exists row :: row in rows && row.id == x
  {
    set row | row in rows :: row.id
  }

  // ---------------------------------------------------------------------------
  // Statements and transactions
  // ---------------------------------------------------------------------------

  /** Every statement is accepted after the ones before it. */
  predicate AllAccepted(engine: Engine, log: seq<string>, stmts: seq<string>) {
    forall i :: 0 <= i < |stmts| ==> engine(log + stmts[..i], Sql(stmts[i]))
  }

  /** A statement loop inside a transaction: runs the statements in order and
      stops at the first one the server rejects. */
  function ExecAll(engine: Engine, log: seq<string>, stmts: seq<string>): (r: Result<seq<string>, RunError>)
    ensures r.Ok? ==> r.value == log + stmts
    decreases |stmts|
  {
    if |stmts| == 0 then
      assert log + stmts == log;
      Ok(log)
    else if !engine(log, Sql(stmts[0])) then Err(QueryFailed(stmts[0]))
    else
      var r := ExecAll(engine, log + [stmts[0]], stmts[1..]);
      assert stmts == [stmts[0]] + stmts[1..];
      SeqAssoc(log, [stmts[0]], stmts[1..]);
      r
  }

  /** Acceptance of a list is acceptance of its head and then of its tail. */
  lemma AcceptedCons(engine: Engine, log: seq<string>, x: string, rest: seq<string>)
    ensures AllAccepted(engine, log, [x] + rest) <==> engine(log, Sql(x)) && AllAccepted(engine, log + [x], rest)
  {
    var all := [x] + rest;
    assert all[..0] == [] && log + [] == log;
    forall i | 0 <= i < |rest|
      ensures log + all[..i + 1] == (log + [x]) + rest[..i] && all[i + 1] == rest[i]
    {
      assert all[..i + 1] == [x] + rest[..i];
      SeqAssoc(log, [x], rest[..i]);
    }
    if engine(log, Sql(x)) && AllAccepted(engine, log + [x], rest) {
      forall i | 0 <= i < |all|
        ensures engine(log + all[..i], Sql(all[i]))
      {
        if i > 0 {
          assert engine((log + [x]) + rest[..i - 1], Sql(rest[i - 1]));
        }
      }
    }
    if AllAccepted(engine, log, all) {
      forall i | 0 <= i < |rest|
        ensures engine((log + [x]) + rest[..i], Sql(rest[i]))
      {
        assert engine(log + all[..i + 1], Sql(all[i + 1]));
      }
    }
  }

  /** The loop succeeds exactly when every statement is accepted; otherwise it
      reports the first rejected statement. */
  lemma {:induction false} ExecAllAccepts(engine: Engine, log: seq<string>, stmts: seq<string>)
    ensures ExecAll(engine, log, stmts).Ok? <==> AllAccepted(engine, log, stmts)
    ensures ExecAll(engine, log, stmts).Err? ==> exists i :: (
      && 0 <= i < |stmts|
      && ExecAll(engine, log, stmts).error == QueryFailed(stmts[i])
      && AllAccepted(engine, log, stmts[..i])
      && !engine(log + stmts[..i], Sql(stmts[i])))
    decreases |stmts|
  {
    if |stmts| > 0 {
      assert stmts == [stmts[0]] + stmts[1..];
      AcceptedCons(engine, log, stmts[0], stmts[1..]);
      assert stmts[..0] == [] && log + [] == log;
      if engine(log, Sql(stmts[0])) {
        var log' := log + [stmts[0]];
        ExecAllAccepts(engine, log', stmts[1..]);
        if ExecAll(engine, log, stmts).Err? {
          var i :| 0 <= i < |stmts| - 1 && ExecAll(engine, log', stmts[1..]).error == QueryFailed(stmts[1..][i])
            && AllAccepted(engine, log', stmts[1..][..i])
            && !engine(log' + stmts[1..][..i], Sql(stmts[1..][i]));
          assert stmts[..i + 1] == [stmts[0]] + stmts[1..][..i];
          AcceptedCons(engine, log, stmts[0], stmts[1..][..i]);
          SeqAssoc(log, [stmts[0]], stmts[1..][..i]);
          assert stmts[i + 1] == stmts[1..][i];
        }
      }
    }
  }

  // ---------------------------------------------------------------------------
  // init
  // ---------------------------------------------------------------------------

  /** `init`: runs the tracking table's `CREATE TABLE IF NOT EXISTS`; existing
      rows survive. */
  function Init(engine: Engine, db: Db): (r: Run)
    ensures engine(db.log, Sql(MG.TrackingTableDdl)) <==> r.error.None?
    ensures r.error.None? ==> r.db.log == db.log && r.db.tracking.Some?
    ensures r.error.None? && db.tracking.Some? ==> r.db == db
    ensures r.error.Some? ==> r.db == db
  {
    if !engine(db.log, Sql(MG.TrackingTableDdl)) then Run(db, Some(QueryFailed(MG.TrackingTableDdl)))
    else
      match db.tracking
      case Some(_) => Run(db, None)
      case None => Run(db.(tracking := Some([])), None)
  }

  // ---------------------------------------------------------------------------
  // up
  // ---------------------------------------------------------------------------

  function RowOf(m: MG.Migration): Row {
    Row(m.id, m.name, m.timestamp)
  }

  /** Reference definition: the database after the migrations `ms` have been
      applied one after another. */
  function Applied(db: Db, ms: seq<MG.Migration>): (r: Db)
    requires db.tracking.Some?
    ensures r.tracking.Some?
  {
    Db(db.log + Flatten(Ups(ms)), Some(db.tracking.value + Rows(ms)))
  }

  function Ups(ms: seq<MG.Migration>): (r: seq<seq<string>>)
    ensures |r| == |ms|
    ensures forall i :: 0 <= i < |ms| ==> r[i] == ms[i].up
  {
    seq(|ms|, i requires 0 <= i < |ms| => ms[i].up)
  }

  function Rows(ms: seq<MG.Migration>): (r: seq<Row>)
    ensures |r| == |ms|
    ensures forall i :: 0 <= i < |ms| ==> r[i] == RowOf(ms[i])
  {
    seq(|ms|, i requires 0 <= i < |ms| => RowOf(ms[i]))
  }

  lemma AppliedAppend(db: Db, a: seq<MG.Migration>, b: seq<MG.Migration>)
    requires db.tracking.Some?
    ensures Applied(Applied(db, a), b) == Applied(db, a + b)
  {
    assert Ups(a + b) == Ups(a) + Ups(b);
    assert Rows(a + b) == Rows(a) + Rows(b);
    FlattenAppendAll(Ups(a), Ups(b));
    SeqAssoc(db.log, Flatten(Ups(a)), Flatten(Ups(b)));
    SeqAssoc(db.tracking.value, Rows(a), Rows(b));
  }

  lemma {:induction false} FlattenAppendAll<T>(a: seq<seq<T>>, b: seq<seq<T>>)
    ensures Flatten(a + b) == Flatten(a) + Flatten(b)
    decreases |b|
  {
    if |b| == 0 {
      assert a + b == a;
    } else {
      var b' := b[..|b| - 1];
      assert a + b == (a + b') + [b[|b| - 1]];
      assert b == b' + [b[|b| - 1]];
      FlattenAppend(a + b', b[|b| - 1]);
      FlattenAppendAll(a, b');
      FlattenAppend(b', b[|b| - 1]);
      SeqAssoc(Flatten(a), Flatten(b'), b[|b| - 1]);
    }
  }

  /** Whether the transaction applying `m` after `db` is accepted: every `up`
      statement in turn, then the tracking `INSERT` of an id not yet tracked. */
  predicate Admits(engine: Engine, db: Db, m: MG.Migration)
    requires db.tracking.Some?
  {
    && AllAccepted(engine, db.log, m.up)
    && m.id !in Ids(db.tracking.value)
    && engine(db.log + m.up, InsertRow(RowOf(m)))
  }

  /** One pending migration in one transaction: its `up` statements in order,
      then the tracking row's `INSERT`, which fails on an id already tracked
      (it is the primary key) and otherwise as the server decides. */
  function ApplyMigration(engine: Engine, db: Db, m: MG.Migration): (r: Result<Db, RunError>)
    requires db.tracking.Some?
    ensures r.Ok? <==> && AllAccepted(engine, db.log, m.up)
                       && m.id !in Ids(db.tracking.value)
                       && engine(db.log + m.up, InsertRow(RowOf(m)))
    ensures r.Ok? <==> Admits(engine, db, m)
    ensures r.Ok? ==> r.value == Applied(db, [m])
    ensures AllAccepted(engine, db.log, m.up) && m.id in Ids(db.tracking.value) ==> r == Err(DuplicateId(m.id))
  {
    ExecAllAccepts(engine, db.log, m.up);
    match ExecAll(engine, db.log, m.up)
    case Err(e) => Err(e)
    case Ok(log) =>
      if m.id in Ids(db.tracking.value) then Err(DuplicateId(m.id))
      else if !engine(log, InsertRow(RowOf(m))) then Err(TrackingRejected(InsertRow(RowOf(m))))
      else
        assert Flatten(Ups([m])) == m.up by {
          assert Ups([m]) == [] + [m.up];
          FlattenAppend([], m.up);
        }
        assert Rows([m]) == [RowOf(m)];
        Ok(Db(log, Some(db.tracking.value + [RowOf(m)])))
  }

  /** The migrations whose id was not tracked when `up` started, in list order. */
  function Pending(ms: seq<MG.Migration>, executed: set<string>): (r: seq<MG.Migration>)
    ensures forall m :: m in r <==> m in ms && m.id !in executed
  {
    if |ms| == 0 then []
    else
      var rest := Pending(ms[1..], executed);
      assert forall m :: m in ms <==> m == ms[0] || m in ms[1..];
      if ms[0].id in executed then rest else [ms[0]] + rest
  }

  /** The loop of `up` as written: skip tracked ids, apply the rest, stop at
      the first failing transaction. */
  function RunPending(engine: Engine, db: Db, ms: seq<MG.Migration>, executed: set<string>): Run
    requires db.tracking.Some?
    decreases |ms|
  {
    if |ms| == 0 then Run(db, None)
    else if ms[0].id in executed then RunPending(engine, db, ms[1..], executed)
    else
      match ApplyMigration(engine, db, ms[0])
      case Err(e) => Run(db, Some(e))
      case Ok(db') => RunPending(engine, db', ms[1..], executed)
  }

  /** The run commits a prefix of the pending migrations, each in its own
      transaction; it fails exactly when it stops short, at the first pending
      migration whose transaction fails, and the earlier commits stay. */
  lemma {:induction false} RunPendingCommitsPrefix(engine: Engine, db: Db, ms: seq<MG.Migration>, executed: set<string>)
    requires db.tracking.Some?
    ensures CommitsPrefix(engine, db, Pending(ms, executed), RunPending(engine, db, ms, executed))
    decreases |ms|
  {
    var p := Pending(ms, executed);
    if |ms| == 0 {
      AppliedNone(db);
      assert p[..0] == [];
      assert CommitsPrefixAt(engine, db, p, Run(db, None), 0) by {
        assert Applied(db, p[..0]) == db;
      }
    } else if ms[0].id in executed {
      RunPendingCommitsPrefix(engine, db, ms[1..], executed);
    } else {
      assert p == [ms[0]] + Pending(ms[1..], executed);
      match ApplyMigration(engine, db, ms[0])
      case Err(e) =>
        AppliedNone(db);
        assert p[..0] == [];
        assert CommitsPrefixAt(engine, db, p, Run(db, Some(e)), 0) by {
          assert Applied(db, p[..0]) == db;
          assert p[0] == ms[0];
        }
      case Ok(db') =>
        RunPendingCommitsPrefix(engine, db', ms[1..], executed);
        CommitsPrefixCons(engine, db, ms[0], Pending(ms[1..], executed), RunPending(engine, db', ms[1..], executed));
    }
  }

  /** `r` is the outcome of applying a prefix of `p` and failing on the next
      migration, or of applying all of `p`. */
  ghost predicate CommitsPrefix(engine: Engine, db: Db, p: seq<MG.Migration>, r: Run)
    requires db.tracking.Some?
  {
    exists k :: CommitsPrefixAt(engine, db, p, r, k)
  }

  /** `r` is the outcome of applying the first `k` migrations of `p`, each
      accepted, and then failing on the next one or reaching the end. */
  ghost predicate CommitsPrefixAt(engine: Engine, db: Db, p: seq<MG.Migration>, r: Run, k: int)
    requires db.tracking.Some?
  {
    && 0 <= k <= |p|
    && r.db == Applied(db, p[..k])
    && (r.error.None? <==> k == |p|)
    && AcceptedUpTo(engine, db, p, k)
    && (k < |p| ==> !Admits(engine, Applied(db, p[..k]), p[k]))
  }

  /** The transactions of the first `k` migrations of `p`, each run after the
      ones before it, were all accepted. */
  ghost predicate AcceptedUpTo(engine: Engine, db: Db, p: seq<MG.Migration>, k: nat)
    requires db.tracking.Some? && k <= |p|
  {
    k == 0 || (AcceptedUpTo(engine, db, p, k - 1) && Admits(engine, Applied(db, p[..k - 1]), p[k - 1]))
  }

  /** Read as a quantifier: each of the first `k` transactions was accepted. */
  lemma {:induction false} AcceptedUpToEach(engine: Engine, db: Db, p: seq<MG.Migration>, k: nat)
    requires db.tracking.Some? && k <= |p|
    ensures AcceptedUpTo(engine, db, p, k) <==>
      forall j :: 0 <= j < k ==> Admits(engine, Applied(db, p[..j]), p[j])
  {
    if k > 0 {
      AcceptedUpToEach(engine, db, p, k - 1);
      assert AcceptedUpTo(engine, db, p, k)
        == (AcceptedUpTo(engine, db, p, k - 1) && Admits(engine, Applied(db, p[..k - 1]), p[k - 1]));
    }
  }

  lemma {:induction false} AcceptedUpToCons(engine: Engine, db: Db, m: MG.Migration, rest: seq<MG.Migration>, k: nat)
    requires db.tracking.Some? && k <= |rest| && Admits(engine, db, m)
    requires AcceptedUpTo(engine, Applied(db, [m]), rest, k)
    ensures AcceptedUpTo(engine, db, [m] + rest, k + 1)
  {
    var p := [m] + rest;
    if k == 0 {
      AppliedNone(db);
      assert p[..0] == [];
    } else {
      assert AcceptedUpTo(engine, db, p, k) by {
        assert AcceptedUpTo(engine, Applied(db, [m]), rest, k - 1);
        AcceptedUpToCons(engine, db, m, rest, k - 1);
      }
      assert Admits(engine, Applied(db, p[..k]), p[k]) by {
        AppliedConsPrefix(db, m, rest, k - 1);
      }
    }
  }

  lemma AppliedConsPrefix(db: Db, m: MG.Migration, rest: seq<MG.Migration>, i: nat)
    requires db.tracking.Some? && i < |rest|
    ensures Applied(db, ([m] + rest)[..i + 1]) == Applied(Applied(db, [m]), rest[..i])
    ensures ([m] + rest)[i + 1] == rest[i]
  {
    AppliedAppend(db, [m], rest[..i]);
    assert ([m] + rest)[..i + 1] == [m] + rest[..i];
  }

  /** A run that committed a prefix and reported no error committed all of `p`. */
  lemma CommitsAll(engine: Engine, db: Db, p: seq<MG.Migration>, r: Run)
    requires db.tracking.Some? && CommitsPrefix(engine, db, p, r) && r.error.None?
    ensures r.db == Applied(db, p)
  {
    var k :| CommitsPrefixAt(engine, db, p, r, k);
    assert p[..|p|] == p;
  }

  lemma CommitsPrefixCons(engine: Engine, db: Db, m: MG.Migration, rest: seq<MG.Migration>, r: Run)
    requires db.tracking.Some? && Admits(engine, db, m)
    requires CommitsPrefix(engine, Applied(db, [m]), rest, r)
    ensures CommitsPrefix(engine, db, [m] + rest, r)
  {
    var k :| CommitsPrefixAt(engine, Applied(db, [m]), rest, r, k);
    CommitsPrefixAtCons(engine, db, m, rest, r, k);
  }

  lemma CommitsPrefixAtCons(engine: Engine, db: Db, m: MG.Migration, rest: seq<MG.Migration>, r: Run, k: int)
    requires db.tracking.Some? && Admits(engine, db, m)
    requires CommitsPrefixAt(engine, Applied(db, [m]), rest, r, k)
    ensures CommitsPrefixAt(engine, db, [m] + rest, r, k + 1)
  {
    var p := [m] + rest;
    assert r.db == Applied(db, p[..k + 1]) by {
      AppliedAppend(db, [m], rest[..k]);
      assert p[..k + 1] == [m] + rest[..k];
    }
    assert k + 1 < |p| ==> !Admits(engine, Applied(db, p[..k + 1]), p[k + 1]) by {
      if k < |rest| {
        AppliedConsPrefix(db, m, rest, k);
      }
    }
    AcceptedUpToCons(engine, db, m, rest, k);
  }

  lemma AppliedNone(db: Db)
    requires db.tracking.Some?
    ensures Applied(db, []) == db
  {
    assert Ups([]) == [];
    assert Rows([]) == [];
    assert db.log + [] == db.log && db.tracking.value + [] == db.tracking.value;
  }

  /** The query `up` reads the tracked ids with. */
  const ExecutedQuery := "SELECT id FROM _migrations ORDER BY timestamp ASC"

  /** The query `down` reads the latest tracked row with. */
  const LatestQuery := "SELECT id, name FROM _migrations ORDER BY timestamp DESC LIMIT 1"

  /** `up`: list the migration files, read the tracked ids once, then run the
      pending migrations in ascending timestamp order. */
  function Up(engine: Engine, db: Db, dir: seq<MG.Entry>): (r: Run)
    ensures MG.GetMigrations(dir).Err? ==> r == Run(db, Some(CorruptFile(MG.GetMigrations(dir).error.file)))
    ensures MG.GetMigrations(dir).Ok? && db.tracking.None? ==> r == Run(db, Some(TrackingTableMissing))
    ensures MG.GetMigrations(dir).Ok? && db.tracking.Some? && !engine(db.log, Sql(ExecutedQuery)) ==>
      r == Run(db, Some(QueryFailed(ExecutedQuery)))
    ensures r.error.None? ==> MG.GetMigrations(dir).Ok? && db.tracking.Some? && engine(db.log, Sql(ExecutedQuery))
  {
    match MG.GetMigrations(dir)
    case Err(e) => Run(db, Some(CorruptFile(e.file)))
    case Ok(ms) =>
      match db.tracking
      case None => Run(db, Some(TrackingTableMissing))
      case Some(rows) =>
        if !engine(db.log, Sql(ExecutedQuery)) then Run(db, Some(QueryFailed(ExecutedQuery)))
        else RunPending(engine, db, ms, Ids(rows))
  }

  /** A successful `up` has applied exactly the untracked migrations, in
      ascending timestamp order, and afterwards every listed id is tracked. */
  lemma UpAppliesPending(engine: Engine, db: Db, dir: seq<MG.Entry>)
    requires Up(engine, db, dir).error.None?
    ensures var ms := MG.GetMigrations(dir).value;
      var r := Up(engine, db, dir);
      && r.db == Applied(db, Pending(ms, Ids(db.tracking.value)))
      && MG.SortedByTimestamp(ms)
      && forall m :: m in ms ==> m.id in Ids(r.db.tracking.value)
  {
    var ms := MG.GetMigrations(dir).value;
    var rows := db.tracking.value;
    assert Up(engine, db, dir) == RunPending(engine, db, ms, Ids(rows));
    RunPendingCommitsPrefix(engine, db, ms, Ids(rows));
    CommitsAll(engine, db, Pending(ms, Ids(rows)), Up(engine, db, dir));
    AppliedPendingTracksAll(db, ms);
  }

  /** After the pending migrations are applied, every listed id is tracked. */
  lemma AppliedPendingTracksAll(db: Db, ms: seq<MG.Migration>)
    requires db.tracking.Some?
    ensures forall m :: m in ms ==> m.id in Ids(Applied(db, Pending(ms, Ids(db.tracking.value))).tracking.value)
  {
    var rows := db.tracking.value;
    var p := Pending(ms, Ids(rows));
    var after := Applied(db, p).tracking.value;
    forall m | m in ms
      ensures m.id in Ids(after)
    {
      if m.id in Ids(rows) {
        var row :| row in rows && row.id == m.id;
        assert row in after;
      } else {
        var i :| 0 <= i < |p| && p[i] == m;
        assert after[|rows| + i] == RowOf(m);
      }
    }
  }

  lemma {:induction false} RunPendingAllTracked(engine: Engine, db: Db, ms: seq<MG.Migration>, executed: set<string>)
    requires db.tracking.Some?
    requires forall m :: m in ms ==> m.id in executed
    ensures RunPending(engine, db, ms, executed) == Run(db, None)
    decreases |ms|
  {
    if |ms| > 0 {
      RunPendingAllTracked(engine, db, ms[1..], executed);
    }
  }

  /** Running `up` again over the same files changes nothing, and it succeeds
      unless the server rejects the read of the tracked ids. */
  lemma UpIsIdempotent(engine: Engine, db: Db, dir: seq<MG.Entry>)
    requires Up(engine, db, dir).error.None?
    ensures var db' := Up(engine, db, dir).db;
      Up(engine, db', dir) == Run(db', if engine(db'.log, Sql(ExecutedQuery)) then None else Some(QueryFailed(ExecutedQuery)))
  {
    UpAppliesPending(engine, db, dir);
    var db' := Up(engine, db, dir).db;
    RunPendingAllTracked(engine, db', MG.GetMigrations(dir).value, Ids(db'.tracking.value));
  }

  // ---------------------------------------------------------------------------
  // down
  // ---------------------------------------------------------------------------

  /** `ORDER BY timestamp DESC LIMIT 1`: a row of greatest timestamp (the
      first such row). */
  function Latest(rows: seq<Row>): (r: Row)
    requires |rows| > 0
    ensures r in rows
    ensures forall x :: x in rows ==> x.timestamp <= r.timestamp
  {
    if |rows| == 1 then rows[0]
    else
      var best := Latest(rows[1..]);
      assert forall x :: x in rows ==> x == rows[0] || x in rows[1..];
      if rows[0].timestamp >= best.timestamp then rows[0] else best
  }

  /** `migrations.find` by id: the first migration carrying it. */
  function FindById(ms: seq<MG.Migration>, id: string): (r: Option<MG.Migration>)
    ensures r.Some? <==> exists m :: m in ms && m.id == id
    ensures r.Some? ==> r.value in ms && r.value.id == id
    ensures r.Some? ==> exists i :: (0 <= i < |ms| && ms[i] == r.value
      && forall j :: 0 <= j < i ==> ms[j].id != id)
  {
    if |ms| == 0 then None
    else if ms[0].id == id then Some(ms[0])
    else
      assert forall m :: m in ms ==> m == ms[0] || m in ms[1..];
      FindById(ms[1..], id)
  }

  /** `DELETE FROM _migrations WHERE id = $1`. */
  function DeleteId(rows: seq<Row>, id: string): (r: seq<Row>)
    ensures forall x :: x in r <==> x in rows && x.id != id
  {
    if |rows| == 0 then []
    else
      var rest := DeleteId(rows[1..], id);
      assert forall x :: x in rows <==> x == rows[0] || x in rows[1..];
      if rows[0].id == id then rest else [rows[0]] + rest
  }

  /** `down`: roll back the most recent tracked migration. */
  function Down(engine: Engine, db: Db, dir: seq<MG.Entry>): (r: Run)
    ensures db.tracking.None? ==> r == Run(db, Some(TrackingTableMissing))
    ensures db.tracking.Some? && !engine(db.log, Sql(LatestQuery)) ==> r == Run(db, Some(QueryFailed(LatestQuery)))
    ensures db.tracking == Some([]) && engine(db.log, Sql(LatestQuery)) ==> r == Run(db, None)
    ensures r.error.Some? ==> r.db == db
    ensures db.tracking.Some? && engine(db.log, Sql(LatestQuery)) && |db.tracking.value| > 0 && MG.GetMigrations(dir).Ok? ==>
      var last := Latest(db.tracking.value);
      && (FindById(MG.GetMigrations(dir).value, last.id).None? ==> r == Run(db, Some(FileNotFound)))
      && (r.error.None? <==>
        && FindById(MG.GetMigrations(dir).value, last.id).Some?
        && var m := FindById(MG.GetMigrations(dir).value, last.id).value;
           && AllAccepted(engine, db.log, m.down)
           && engine(db.log + m.down, DeleteRow(m.id)))
      && (r.error.None? ==>
        var m := FindById(MG.GetMigrations(dir).value, last.id).value;
        r.db == Db(db.log + m.down, Some(DeleteId(db.tracking.value, last.id))))
    ensures db.tracking.Some? && engine(db.log, Sql(LatestQuery)) && |db.tracking.value| > 0 && MG.GetMigrations(dir).Err? ==>
      r == Run(db, Some(CorruptFile(MG.GetMigrations(dir).error.file)))
  {
    match db.tracking
    case None => Run(db, Some(TrackingTableMissing))
    case Some(rows) =>
      if !engine(db.log, Sql(LatestQuery)) then Run(db, Some(QueryFailed(LatestQuery)))
      else if |rows| == 0 then Run(db, None)
      else
        var last := Latest(rows);
        match MG.GetMigrations(dir)
        case Err(e) => Run(db, Some(CorruptFile(e.file)))
        case Ok(ms) =>
          match FindById(ms, last.id)
          case None => Run(db, Some(FileNotFound))
          case Some(m) =>
            ExecAllAccepts(engine, db.log, m.down);
            match ExecAll(engine, db.log, m.down)
            case Err(e) => Run(db, Some(e))
            case Ok(log) =>
              if !engine(log, DeleteRow(m.id)) then Run(db, Some(TrackingRejected(DeleteRow(m.id))))
              else Run(Db(log, Some(DeleteId(rows, last.id))), None)
  }

  /** Down after up: rolling back a migration that was applied last, whose id
      was new and whose timestamp is greater than every tracked one, restores
      the tracking table. */
  lemma DownUndoesLatestApply(engine: Engine, db: Db, dir: seq<MG.Entry>, m: MG.Migration)
    requires db.tracking.Some? && m.id !in Ids(db.tracking.value)
    requires forall x :: x in db.tracking.value ==> x.timestamp < m.timestamp
    requires MG.GetMigrations(dir).Ok? && FindById(MG.GetMigrations(dir).value, m.id) == Some(m)
    requires AllAccepted(engine, Applied(db, [m]).log, m.down)
    requires engine(Applied(db, [m]).log, Sql(LatestQuery))
    requires engine(Applied(db, [m]).log + m.down, DeleteRow(m.id))
    ensures Down(engine, Applied(db, [m]), dir).error.None?
    ensures Down(engine, Applied(db, [m]), dir).db.tracking == db.tracking
  {
    var rows := db.tracking.value;
    var after := Applied(db, [m]);
    assert Rows([m]) == [RowOf(m)];
    assert after.tracking.value == rows + [RowOf(m)];
    assert Latest(rows + [RowOf(m)]) == RowOf(m) by {
      var l := Latest(rows + [RowOf(m)]);
      assert RowOf(m) in rows + [RowOf(m)];
      assert l.timestamp >= m.timestamp;
      assert l !in rows;
    }
    ExecAllAccepts(engine, after.log, m.down);
    DeleteFresh(rows, RowOf(m));
  }

  lemma {:induction false} DeleteFresh(rows: seq<Row>, row: Row)
    requires row.id !in Ids(rows)
    ensures DeleteId(rows + [row], row.id) == rows
    decreases |rows|
  {
    if |rows| == 0 {
      assert DeleteId([row], row.id) == [];
    } else {
      assert (rows + [row])[1..] == rows[1..] + [row];
      assert rows[0] in rows;
      assert Ids(rows[1..]) <= Ids(rows) by {
        forall x | x in Ids(rows[1..]) ensures x in Ids(rows) {
          var r :| r in rows[1..] && r.id == x;
          assert r in rows;
        }
      }
      DeleteFresh(rows[1..], row);
      assert rows == [rows[0]] + rows[1..];
    }
  }

  // ---------------------------------------------------------------------------
  // create and clear
  // ---------------------------------------------------------------------------

  /** The statements `create` collects as written: per table in schema order,
      push its up statements and push its down statements. */
  function CollectScripts(compile: MB.Compiler, ts: seq<Table>, up: seq<string>, down: seq<string>)
    : (seq<string>, seq<string>)
    decreases |ts|
  {
    if |ts| == 0 then (up, down)
    else
      var sql := compile(ts[0]);
      CollectScripts(compile, ts[1..], up + sql.up, down + sql.down)
  }

  /** Reference definition of `create`'s down script: one drop per table in
      schema order. */
  function DropsInSchemaOrder(ts: seq<Table>): (r: seq<string>)
    ensures |r| == |ts|
    ensures forall i :: 0 <= i < |ts| ==> r[i] == "DROP TABLE IF EXISTS " + ts[i].name + ";"
  {
    seq(|ts|, i requires 0 <= i < |ts| => "DROP TABLE IF EXISTS " + ts[i].name + ";")
  }

  lemma CollectScriptsInOrder(compile: MB.Compiler, ts: seq<Table>, up: seq<string>, down: seq<string>)
    requires MB.WellShaped(compile)
    ensures CollectScripts(compile, ts, up, down) == (up + MB.Ups(compile, ts), down + DropsInSchemaOrder(ts))
  {
    CollectedUp(compile, ts, up, down);
    CollectedDown(compile, ts, up, down);
  }

  /** One step of the loop: the first table's create and drop are pushed. */
  lemma CollectScriptsStep(compile: MB.Compiler, ts: seq<Table>, up: seq<string>, down: seq<string>)
    requires MB.WellShaped(compile) && |ts| > 0
    ensures CollectScripts(compile, ts, up, down)
      == CollectScripts(compile, ts[1..], up + [MB.Ups(compile, ts)[0]], down + [DropsInSchemaOrder(ts)[0]])
  {
    var sql := compile(ts[0]);
    assert sql.up == [MB.Ups(compile, ts)[0]];
  }

  lemma {:induction false} CollectedUp(compile: MB.Compiler, ts: seq<Table>, up: seq<string>, down: seq<string>)
    requires MB.WellShaped(compile)
    ensures CollectScripts(compile, ts, up, down).0 == up + MB.Ups(compile, ts)
    decreases |ts|
  {
    if |ts| == 0 {
      assert up + MB.Ups(compile, ts) == up;
    } else {
      var c, d, rest := MB.Ups(compile, ts)[0], DropsInSchemaOrder(ts)[0], ts[1..];
      CollectScriptsStep(compile, ts, up, down);
      CollectedUp(compile, rest, up + [c], down + [d]);
      assert ts == [ts[0]] + rest;
      MB.UpsCons(compile, ts[0], rest);
      SeqAssoc(up, [c], MB.Ups(compile, rest));
    }
  }

  lemma {:induction false} CollectedDown(compile: MB.Compiler, ts: seq<Table>, up: seq<string>, down: seq<string>)
    requires MB.WellShaped(compile)
    ensures CollectScripts(compile, ts, up, down).1 == down + DropsInSchemaOrder(ts)
    decreases |ts|
  {
    if |ts| == 0 {
      assert down + DropsInSchemaOrder(ts) == down;
    } else {
      var c, d, rest := MB.Ups(compile, ts)[0], DropsInSchemaOrder(ts)[0], ts[1..];
      CollectScriptsStep(compile, ts, up, down);
      CollectedDown(compile, rest, up + [c], down + [d]);
      assert ts == [ts[0]] + rest;
      DropsInSchemaOrderCons(ts[0], rest);
      SeqAssoc(down, [d], DropsInSchemaOrder(rest));
    }
  }

  lemma DropsInSchemaOrderCons(t: Table, ts: seq<Table>)
    ensures DropsInSchemaOrder([t] + ts) == ["DROP TABLE IF EXISTS " + t.name + ";"] + DropsInSchemaOrder(ts)
  {
    var all := [t] + ts;
    forall i | 0 <= i < |ts|
      ensures DropsInSchemaOrder(all)[i + 1] == DropsInSchemaOrder(ts)[i]
    {
      assert all[i + 1] == ts[i];
    }
  }

  /** `create <name>`: load the schema into a fresh manager, compile every
      table in schema order, and write the migration file. */
  function Create(dir: seq<MG.Entry>, file: SM.FileOutcome, name: string, now: nat)
    : (r: Result<(seq<MG.Entry>, MG.Migration), RunError>)
    ensures r.Err? <==> SM.LoadSchema(SM.Empty, file).threw
    ensures r.Ok? ==>
      var ts := SM.LoadSchema(SM.Empty, file).schema.tables;
      && r.value.1.id == MG.MigrationId(now, name)
      && r.value.1.up == MB.Creates(ts)
      && r.value.1.down == DropsInSchemaOrder(ts)
      && MG.Entry(MG.FileName(r.value.1.id), Some(r.value.1)) in r.value.0
  {
    var loaded := SM.LoadSchema(SM.Empty, file);
    if loaded.threw then Err(SchemaUnreadable)
    else
      var scripts := CollectScripts(MG.CreateTableSql, loaded.schema.tables, [], []);
      MB.GeneratorWellShaped();
      CollectScriptsInOrder(MG.CreateTableSql, loaded.schema.tables, [], []);
      Ok(MG.CreateMigration(dir, name, scripts.0, scripts.1, now))
  }

  /** Unlike `buildMigration`, `create` neither sorts nor reverses: with two
      tables its down script drops the first table first. */
  lemma CreateDoesNotReverseDown(dir: seq<MG.Entry>, a: Table, b: Table, name: string, now: nat)
    ensures var r := Create(dir, SM.Readable(Some(DatabaseSchema([a, b]))), name, now);
      && r.Ok?
      && r.value.1.down == ["DROP TABLE IF EXISTS " + a.name + ";", "DROP TABLE IF EXISTS " + b.name + ";"]
      && MB.Drops([a, b]) == ["DROP TABLE IF EXISTS " + b.name + ";", "DROP TABLE IF EXISTS " + a.name + ";"]
  {
  }

  /** `clear`'s statements: one cascading drop per schema table, in schema order. */
  function ClearStatements(ts: seq<Table>): (r: seq<string>)
    ensures |r| == |ts|
    ensures forall i :: 0 <= i < |ts| ==> r[i] == "DROP TABLE IF EXISTS " + ts[i].name + " CASCADE;"
    ensures forall i :: 0 <= i < |ts| ==> EndsWith(r[i], " CASCADE;")
  {
    var r := seq(|ts|, i requires 0 <= i < |ts| => "DROP TABLE IF EXISTS " + ts[i].name + " CASCADE;");
    forall i | 0 <= i < |ts|
      ensures EndsWith(r[i], " CASCADE;")
    {
      EndsWithConcat("DROP TABLE IF EXISTS " + ts[i].name, " CASCADE;");
    }
    r
  }

  /** `clear`: load the schema and run its drops in one transaction. */
  function Clear(engine: Engine, db: Db, file: SM.FileOutcome): (r: Run)
    ensures SM.LoadSchema(SM.Empty, file).threw ==> r == Run(db, Some(SchemaUnreadable))
    ensures r.error.Some? ==> r.db == db
    ensures !SM.LoadSchema(SM.Empty, file).threw ==>
      var drops := ClearStatements(SM.LoadSchema(SM.Empty, file).schema.tables);
      && (r.error.None? <==> AllAccepted(engine, db.log, drops))
      && (r.error.None? ==> r.db == db.(log := db.log + drops))
  {
    var loaded := SM.LoadSchema(SM.Empty, file);
    if loaded.threw then Run(db, Some(SchemaUnreadable))
    else
      var drops := ClearStatements(loaded.schema.tables);
      ExecAllAccepts(engine, db.log, drops);
      match ExecAll(engine, db.log, drops)
      case Err(e) => Run(db, Some(e))
      case Ok(log) => Run(db.(log := log), None)
  }
}
