/** `buildMigration`: one migration creating every table of a schema in
    dependency order and dropping them in the opposite order. */
module MigrationBuilder {
  import opened Wrappers
  import opened Seqs
  import opened SchemaTypes
  import opened DependencySort
  import opened DependencyTheorems
  import MG = MigrationGenerator

  datatype BuiltMigration = BuiltMigration(id: string, up: seq<string>, down: seq<string>)

  /** The two ways the build throws: the sort's circular-dependency error, and
      the `TypeError` of compiling the `undefined` entry a dangling reference
      leaves in the sorted list. */
  datatype BuildError = Circular(table: string) | UndefinedTable

  /** The tables of a sorted list without `undefined` entries. */
  function Unwrap(sorted: seq<Option<Table>>): (ts: seq<Table>)
    requires None !in sorted
    ensures |ts| == |sorted|
    ensures Present(ts) == sorted
  {
    var ts := seq(|sorted|, i requires 0 <= i < |sorted| => sorted[i].value);
    assert forall i :: 0 <= i < |ts| ==> Present(ts)[i] == sorted[i];
    ts
  }

  /** The generator `buildMigration` is handed, seen through its
      `generateCreateTableSQL`. */
  type Compiler = Table -> MG.SqlResult

  /** What the migration generator guarantees of each table's scripts: one
      `up` text, and one `down` statement dropping the table. */
  ghost predicate WellShaped(compile: Compiler) {
    forall t :: |compile(t).up| == 1 && compile(t).down == ["DROP TABLE IF EXISTS " + t.name + ";"]
  }

  lemma GeneratorWellShaped()
    ensures WellShaped(MG.CreateTableSql)
  {
    forall t
      ensures |MG.CreateTableSql(t).up| == 1
      ensures MG.CreateTableSql(t).down == ["DROP TABLE IF EXISTS " + t.name + ";"]
    {
      var r := MG.CreateTableSql(t);
      assert |r.down| == 1;
    }
  }

  /** The `up` texts of a compiler, one per table, in order. */
  function Ups(compile: Compiler, ts: seq<Table>): (r: seq<string>)
    requires WellShaped(compile)
    ensures |r| == |ts|
    ensures forall i :: 0 <= i < |ts| ==> r[i] == compile(ts[i]).up[0]
  {
    seq(|ts|, i requires 0 <= i < |ts| => compile(ts[i]).up[0])
  }

  /** Reference definition of the up script: the migration generator's create
      text of each table, in order. */
  function Creates(ts: seq<Table>): seq<string> {
    GeneratorWellShaped();
    Ups(MG.CreateTableSql, ts)
  }

  /** Reference definition of the down script: one drop per table, last table first. */
  function Drops(ts: seq<Table>): (r: seq<string>)
    ensures |r| == |ts|
    ensures forall i :: 0 <= i < |ts| ==> r[i] == "DROP TABLE IF EXISTS " + ts[|ts| - 1 - i].name + ";"
  {
    seq(|ts|, i requires 0 <= i < |ts| => "DROP TABLE IF EXISTS " + ts[|ts| - 1 - i].name + ";")
  }

  /** The loop over the sorted list as written: push the table's up statements,
      unshift its down statements; an `undefined` entry throws. */
  function Accumulate(compile: Compiler, sorted: seq<Option<Table>>, up: seq<string>, down: seq<string>)
    : Result<(seq<string>, seq<string>), BuildError>
    decreases |sorted|
  {
    if |sorted| == 0 then Ok((up, down))
    else
      match sorted[0]
      case None => Err(UndefinedTable)
      case Some(t) =>
        var sql := compile(t);
        Accumulate(compile, sorted[1..], up + sql.up, sql.down + down)
  }

  lemma UpsCons(compile: Compiler, t: Table, ts: seq<Table>)
    requires WellShaped(compile)
    ensures Ups(compile, [t] + ts) == [compile(t).up[0]] + Ups(compile, ts)
  {
    var all := [t] + ts;
    var r := [compile(t).up[0]] + Ups(compile, ts);
    forall i | 0 <= i < |all|
      ensures Ups(compile, all)[i] == r[i]
    {
      if i > 0 {
        assert all[i] == ts[i - 1];
      }
    }
  }

  lemma DropsCons(t: Table, ts: seq<Table>)
    ensures Drops([t] + ts) == Drops(ts) + ["DROP TABLE IF EXISTS " + t.name + ";"]
  {
    var all := [t] + ts;
    forall i | 0 <= i < |ts|
      ensures Drops(all)[i] == Drops(ts)[i]
    {
      assert all[|all| - 1 - i] == ts[|ts| - 1 - i];
    }
  }

  /** Without `undefined` entries the loop appends the creates in order and
      prepends the drops in reverse order. */
  lemma {:induction false} AccumulateTables(compile: Compiler, ts: seq<Table>, up: seq<string>, down: seq<string>)
    requires WellShaped(compile)
    ensures Accumulate(compile, Present(ts), up, down) == Ok((up + Ups(compile, ts), Drops(ts) + down))
    decreases |ts|
  {
    if |ts| > 0 {
      var t := ts[0];
      var sql := compile(t);
      assert Present(ts)[1..] == Present(ts[1..]);
      AccumulateTables(compile, ts[1..], up + sql.up, sql.down + down);
      assert ts == [t] + ts[1..];
      UpsCons(compile, t, ts[1..]);
      DropsCons(t, ts[1..]);
      assert sql.up == [sql.up[0]];
      SeqAssoc(up, sql.up, Ups(compile, ts[1..]));
      SeqAssoc(Drops(ts[1..]), sql.down, down);
    } else {
      assert Present(ts) == [] && Ups(compile, ts) == [] && Drops(ts) == [];
      assert up + Ups(compile, ts) == up && Drops(ts) + down == down;
    }
  }

  /** The loop throws exactly when the list holds an `undefined` entry. */
  lemma {:induction false} AccumulateFails(compile: Compiler, sorted: seq<Option<Table>>, up: seq<string>, down: seq<string>)
    ensures Accumulate(compile, sorted, up, down).Err? <==> None in sorted
    ensures Accumulate(compile, sorted, up, down).Err? ==> Accumulate(compile, sorted, up, down).error == UndefinedTable
    decreases |sorted|
  {
    if |sorted| > 0 {
      assert None in sorted <==> sorted[0] == None || None in sorted[1..];
      if sorted[0].Some? {
        var sql := compile(sorted[0].value);
        AccumulateFails(compile, sorted[1..], up + sql.up, sql.down + down);
      }
    }
  }

  /** `buildMigration(name, tables, generator)` with `Date.now()` given as `now`. */
  function BuildMigration(name: string, ts: seq<Table>, now: nat): (r: Result<BuiltMigration, BuildError>)
    ensures SortTablesByDependency(ts).Err? ==>
      r == Err(Circular(SortTablesByDependency(ts).error.table))
    ensures SortTablesByDependency(ts).Ok? ==>
      (r.Err? <==> None in SortTablesByDependency(ts).value)
    ensures r.Err? && r.error == UndefinedTable ==>
      SortTablesByDependency(ts).Ok? && None in SortTablesByDependency(ts).value
    ensures r.Ok? ==>
      && SortTablesByDependency(ts).Ok?
      && None !in SortTablesByDependency(ts).value
      && r.value.id == MG.MigrationId(now, name)
      && r.value.up == Creates(Unwrap(SortTablesByDependency(ts).value))
      && r.value.down == Drops(Unwrap(SortTablesByDependency(ts).value))
  {
    match SortTablesByDependency(ts)
    case Err(e) => Err(Circular(e.table))
    case Ok(sorted) =>
      AccumulateFails(MG.CreateTableSql, sorted, [], []);
      match Accumulate(MG.CreateTableSql, sorted, [], [])
      case Err(e) => Err(e)
      case Ok(scripts) =>
        GeneratorWellShaped();
        AccumulateTables(MG.CreateTableSql, Unwrap(sorted), [], []);
        Ok(BuiltMigration(MG.MigrationId(now, name), scripts.0, scripts.1))
  }

  /** The down script undoes the up script in reverse: its `k`-th statement
      drops the table the `k`-th create from the end creates. */
  lemma DownReversesUp(name: string, ts: seq<Table>, now: nat)
    requires BuildMigration(name, ts, now).Ok?
    ensures var m := BuildMigration(name, ts, now).value;
      var sorted := Unwrap(SortTablesByDependency(ts).value);
      && |m.up| == |m.down|
      && forall k :: 0 <= k < |m.down| ==>
        m.up[|m.up| - 1 - k] == MG.CreateTableSql(sorted[|sorted| - 1 - k]).up[0]
        && m.down[k] == MG.CreateTableSql(sorted[|sorted| - 1 - k]).down[0]
  {
    GeneratorWellShaped();
  }

  /** With unique names and no dangling reference, the build succeeds exactly
      when the references are acyclic, creates every table once, and creates a
      referenced table before any table referencing it. */
  lemma BuildCreatesReferencedFirst(name: string, ts: seq<Table>, now: nat)
    requires UniqueNames(ts) && Closed(ts)
    ensures BuildMigration(name, ts, now).Ok? <==> !exists c :: ReferenceCycle(ts, c)
    ensures BuildMigration(name, ts, now).Ok? ==>
      var sorted := Unwrap(SortTablesByDependency(ts).value);
      && multiset(sorted) == multiset(ts)
      && forall i, j :: 0 <= i < |sorted| && 0 <= j < |sorted| && References(sorted[j], sorted[i].name) ==> i < j
  {
    ErrorIffCycle(ts);
    if SortTablesByDependency(ts).Ok? {
      SortIsPermutation(ts);
      var sorted := Unwrap(SortTablesByDependency(ts).value);
      PresentMultiset(sorted, ts);
      SortPlacesReferencedFirst(ts);
      forall i, j | 0 <= i < |sorted| && 0 <= j < |sorted| && References(sorted[j], sorted[i].name)
        ensures i < j
      {
        assert Present(sorted)[i] == Some(sorted[i]) && Present(sorted)[j] == Some(sorted[j]);
      }
    }
  }

  lemma {:induction false} PresentMultiset(a: seq<Table>, b: seq<Table>)
    requires multiset(Present(a)) == multiset(Present(b))
    ensures multiset(a) == multiset(b)
  {
    PresentMultisetCount(a);
    PresentMultisetCount(b);
    forall t
      ensures multiset(a)[t] == multiset(b)[t]
    {
      assert multiset(Present(a))[Some(t)] == multiset(Present(b))[Some(t)];
    }
  }

  lemma {:induction false} PresentMultisetCount(a: seq<Table>)
    ensures forall t :: multiset(Present(a))[Some(t)] == multiset(a)[t]
    decreases |a|
  {
    if |a| > 0 {
      var k := |a| - 1;
      assert a == a[..k] + [a[k]];
      assert Present(a) == Present(a[..k]) + [Some(a[k])];
      PresentMultisetCount(a[..k]);
    }
  }

  /** Input already listing referenced tables first is created in input order
      and dropped in reverse input order. */
  lemma OrderedInputBuildsInOrder(name: string, ts: seq<Table>, now: nat)
    requires UniqueNames(ts) && DependencyOrdered(ts)
    ensures BuildMigration(name, ts, now) == Ok(BuiltMigration(MG.MigrationId(now, name), Creates(ts), Drops(ts)))
  {
    SortKeepsOrderedInput(ts);
    assert Unwrap(Present(ts)) == ts;
  }

  /** A reference to a table the schema does not define makes the build throw
      (when the sort itself succeeds). */
  lemma DanglingReferenceFailsBuild(name: string, ts: seq<Table>, now: nat, t: Table, x: string)
    requires UniqueNames(ts) && t in ts && References(t, x) && x !in Names(ts)
    ensures BuildMigration(name, ts, now).Err?
  {
    if SortTablesByDependency(ts).Ok? {
      DanglingReferenceYieldsUndefined(ts, t, x);
    }
  }
}
