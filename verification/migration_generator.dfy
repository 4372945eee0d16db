/** The migration generator: the DDL compiler for one table, the tracking-table
    DDL, and the on-disk journal of migration documents. */
module MigrationGenerator {
  import opened Wrappers
  import opened Seqs
  import opened Strings
  import opened JsValues
  import opened SchemaTypes

  /** A migration unit as stored in one document of the journal. */
  datatype Migration = Migration(id: string, name: string, timestamp: int, up: seq<string>, down: seq<string>)

  /** The compiled forward and reverse statements of one table. */
  datatype SqlResult = SqlResult(up: seq<string>, down: seq<string>)

  const TrackingTable := "_migrations"

  /** The statement `initialize` returns: it creates the tracking table unless it exists. */
  const TrackingTableDdl :=
    "\n      CREATE TABLE IF NOT EXISTS " + TrackingTable + " (\n"
    + "        id VARCHAR(255) PRIMARY KEY,\n"
    + "        name VARCHAR(255) NOT NULL,\n"
    + "        timestamp BIGINT NOT NULL,\n"
    + "        executed_at TIMESTAMP DEFAULT CURRENT_TIMESTAMP\n"
    + "      );\n    "

  // ---------------------------------------------------------------------------
  // Types and default values
  // ---------------------------------------------------------------------------

  /** The PostgreSQL type of each column type: the exhaustive reference table. */
  function SqlType(t: ColumnType): string {
    match t
    case String => "VARCHAR(255)"
    case Number => "INTEGER"
    case Boolean => "BOOLEAN"
    case Date => "TIMESTAMP"
    case Json => "JSONB"
    case Uuid => "UUID"
  }

  /** The lookup by type name the generator performs, with its fallback for an
      unknown name. */
  function PostgresType(typeName: string): (r: string)
    ensures ParseColumnType(typeName).Some? ==> r == SqlType(ParseColumnType(typeName).value)
    ensures ParseColumnType(typeName).None? ==> r == "VARCHAR(255)"
  {
    if typeName == "string" then "VARCHAR(255)"
    else if typeName == "number" then "INTEGER"
    else if typeName == "boolean" then "BOOLEAN"
    else if typeName == "date" then "TIMESTAMP"
    else if typeName == "json" then "JSONB"
    else if typeName == "uuid" then "UUID"
    else "VARCHAR(255)"
  }

  /** The SQL text of a column default, chosen by the value and the column type. */
  function DefaultValueSql(v: JsValue, t: ColumnType): (r: string)
    ensures v.JsNull? ==> r == "NULL"
    ensures v.JsValue? && t == String ==> r == "'" + v.text + "'"
    ensures v.JsValue? && t == Boolean ==> (r == "TRUE" <==> v.truthy) && (r == "FALSE" <==> !v.truthy)
    ensures v.JsValue? && t == Json ==> r == "'" + v.json + "'::jsonb"
    ensures v.JsValue? && t in {Number, Date, Uuid} ==> r == v.text
  {
    if v.JsNull? then "NULL"
    else if t == String then "'" + v.text + "'"
    else if t == Boolean then (if Truthy(v) then "TRUE" else "FALSE")
    else if t == Json then "'" + v.json + "'::jsonb"
    else v.text
  }

  // ---------------------------------------------------------------------------
  // Column definitions
  // ---------------------------------------------------------------------------

  const IdentityKeyClause := " GENERATED ALWAYS AS IDENTITY PRIMARY KEY"
  const UuidKeyClause := " PRIMARY KEY DEFAULT gen_random_uuid()"

  /** What a primary column gets after its name and type; for a `number`
      column the text starts with a second type name, ` INT`. */
  function PrimaryClause(t: ColumnType): string {
    if t == Number then " INT" + IdentityKeyClause
    else if t == Uuid then UuidKeyClause
    else " PRIMARY KEY"
  }

  /** The constraints a non-primary column gets after its name and type. */
  function PlainClauses(c: Column): string {
    (if !Flag(c.nullable) then " NOT NULL" else "")
    + (if c.default.Some? then " DEFAULT " + DefaultValueSql(c.default.value, c.ctype) else "")
  }

  /** Appending the non-primary constraints one after the other. */
  function AppendPlainClauses(sql: string, c: Column): (r: string)
    ensures r == sql + PlainClauses(c)
  {
    var sql' := if !Flag(c.nullable) then sql + " NOT NULL" else sql;
    var d := if c.default.Some? then " DEFAULT " + DefaultValueSql(c.default.value, c.ctype) else "";
    assert sql' + d == sql + PlainClauses(c) by {
      SeqAssoc(sql, if !Flag(c.nullable) then " NOT NULL" else "", d);
    }
    if c.default.Some? then sql' + " DEFAULT " + DefaultValueSql(c.default.value, c.ctype) else sql'
  }

  /** One line of the column list, built by successive appends. */
  function ColumnDefinition(name: string, c: Column): (r: string)
    ensures StartsWith(r, name + " " + SqlType(c.ctype))
    ensures Flag(c.primary) ==> r == name + " " + SqlType(c.ctype) + PrimaryClause(c.ctype)
    ensures !Flag(c.primary) ==> r == name + " " + SqlType(c.ctype) + PlainClauses(c)
  {
    ColumnTypeRoundTrip(c.ctype);
    var sql := name + " " + PostgresType(TypeName(c.ctype));
    var sql := if Flag(c.primary) then sql + PrimaryClause(c.ctype) else sql;
    var sql := if !Flag(c.nullable) && !Flag(c.primary) then sql + " NOT NULL" else sql;
    if c.default.Some? && !Flag(c.primary) then
      sql + " DEFAULT " + DefaultValueSql(c.default.value, c.ctype)
    else sql
  }

  const CreatedAtColumn := "created_at TIMESTAMP DEFAULT CURRENT_TIMESTAMP"
  const UpdatedAtColumn := "updated_at TIMESTAMP DEFAULT CURRENT_TIMESTAMP"

  /** The column list: declared columns in declaration order, then the two
      timestamp columns when the table asks for them. */
  function ColumnDefinitions(t: Table): (r: seq<string>)
    ensures |r| == |t.columns| + (if Flag(t.timestamps) then 2 else 0)
    ensures forall i :: 0 <= i < |t.columns| ==> r[i] == ColumnDefinition(t.columns[i].0, t.columns[i].1)
    ensures Flag(t.timestamps) ==> r[|t.columns|] == CreatedAtColumn && r[|t.columns| + 1] == UpdatedAtColumn
  {
    var declared := seq(|t.columns|, i requires 0 <= i < |t.columns| =>
      ColumnDefinition(t.columns[i].0, t.columns[i].1));
    if Flag(t.timestamps) then declared + [CreatedAtColumn, UpdatedAtColumn] else declared
  }

  /** The `CREATE TABLE` clause over a rendered column list. */
  function CreateClause(table: string, defs: seq<string>): string {
    "CREATE TABLE " + table + " (\n" + Join(defs, ",\n") + "\n);"
  }

  // ---------------------------------------------------------------------------
  // Indexes and foreign keys
  // ---------------------------------------------------------------------------

  /** The columns flagged unique, primary ones included, in declaration order. */
  function UniqueColumns(cols: seq<(string, Column)>): (r: seq<(string, Column)>)
    ensures |r| <= |cols|
    ensures forall p :: p in r <==> p in cols && Flag(p.1.unique)
  {
    if |cols| == 0 then []
    else
      var head := if Flag(cols[0].1.unique) then [cols[0]] else [];
      head + UniqueColumns(cols[1..])
  }

  /** The columns carrying a reference, in declaration order. */
  function ReferencingColumns(cols: seq<(string, Column)>): (r: seq<(string, Column)>)
    ensures |r| <= |cols|
    ensures forall p :: p in r <==> p in cols && p.1.references.Some?
  {
    if |cols| == 0 then []
    else
      var head := if cols[0].1.references.Some? then [cols[0]] else [];
      head + ReferencingColumns(cols[1..])
  }

  function IndexStatement(table: string, column: string): string {
    "CREATE UNIQUE INDEX " + table + "_" + column + "_unique ON " + table + "(" + column + ");"
  }

  /** The deletion clause: present exactly when a policy is given, and then
      ` ON DELETE ` followed by a spelling the schema accepts for that policy. */
  function OnDeleteClause(p: Option<OnDelete>): (r: string)
    ensures r == "" <==> p.None?
    ensures p.Some? ==> StartsWith(r, " ON DELETE ") && ParseOnDelete(r[|" ON DELETE "|..]) == p
  {
    match p
    case None => ""
    case Some(policy) =>
      var r := " ON DELETE " + OnDeleteText(policy);
      assert r[..|" ON DELETE "|] == " ON DELETE " && r[|" ON DELETE "|..] == OnDeleteText(policy);
      OnDeleteRoundTrip(policy);
      r
  }

  function ForeignKeyStatement(table: string, column: string, ref: Reference): string {
    "ALTER TABLE " + table + " ADD CONSTRAINT fk_" + table + "_" + column + " "
    + "FOREIGN KEY (" + column + ") REFERENCES " + ref.table + "(" + ref.column + ")"
    + OnDeleteClause(ref.onDelete) + ";"
  }

  /** One index statement per unique column, in declaration order. */
  function IndexStatements(table: string, cols: seq<(string, Column)>): (r: seq<string>)
    ensures |r| == |UniqueColumns(cols)|
    ensures forall k :: 0 <= k < |r| ==> r[k] == IndexStatement(table, UniqueColumns(cols)[k].0)
  {
    if |cols| == 0 then []
    else
      var head := if Flag(cols[0].1.unique) then [IndexStatement(table, cols[0].0)] else [];
      head + IndexStatements(table, cols[1..])
  }

  /** One foreign-key statement per referencing column, in declaration order. */
  function ForeignKeyStatements(table: string, cols: seq<(string, Column)>): (r: seq<string>)
    ensures |r| == |ReferencingColumns(cols)|
    ensures forall k :: 0 <= k < |r| ==>
      var p := ReferencingColumns(cols)[k];
      r[k] == ForeignKeyStatement(table, p.0, p.1.references.value)
  {
    if |cols| == 0 then []
    else
      var head := if cols[0].1.references.Some? then [ForeignKeyStatement(table, cols[0].0, cols[0].1.references.value)] else [];
      head + ForeignKeyStatements(table, cols[1..])
  }

  /** The statements of a table's `up` text, one per line: the create clause
      over the rendered column list `defs`, then the unique indexes, then the
      foreign keys. */
  function Statements(t: Table, defs: seq<string>): seq<string> {
    [CreateClause(t.name, defs)] + IndexStatements(t.name, t.columns) + ForeignKeyStatements(t.name, t.columns)
  }

  // ---------------------------------------------------------------------------
  // The compiler as the source writes it: appends to one growing string
  // ---------------------------------------------------------------------------

  function AppendIndexes(sql: string, table: string, cols: seq<(string, Column)>): string
    decreases |cols|
  {
    if |cols| == 0 then sql
    else
      var sql := if Flag(cols[0].1.unique) then sql + "\n" + IndexStatement(table, cols[0].0) else sql;
      AppendIndexes(sql, table, cols[1..])
  }

  function AppendForeignKeys(sql: string, table: string, cols: seq<(string, Column)>): string
    decreases |cols|
  {
    if |cols| == 0 then sql
    else
      var sql := match cols[0].1.references
        case None => sql
        case Some(ref) => sql + "\n" + ForeignKeyStatement(table, cols[0].0, ref);
      AppendForeignKeys(sql, table, cols[1..])
  }

  /** The index statements of a non-empty column list: the first column's, then the rest's. */
  function IndexHead(table: string, cols: seq<(string, Column)>): seq<string>
    requires |cols| > 0
  {
    if Flag(cols[0].1.unique) then [IndexStatement(table, cols[0].0)] else []
  }

  lemma AppendIndexesStep(lines: seq<string>, table: string, cols: seq<(string, Column)>)
    requires |lines| > 0 && |cols| > 0
    ensures AppendIndexes(Join(lines, "\n"), table, cols)
         == AppendIndexes(Join(lines + IndexHead(table, cols), "\n"), table, cols[1..])
    ensures IndexStatements(table, cols) == IndexHead(table, cols) + IndexStatements(table, cols[1..])
  {
    if Flag(cols[0].1.unique) {
      JoinAppend(lines, IndexStatement(table, cols[0].0), "\n");
    } else {
      assert lines + [] == lines;
    }
  }

  lemma {:induction false} AppendIndexesJoins(lines: seq<string>, table: string, cols: seq<(string, Column)>)
    requires |lines| > 0
    ensures AppendIndexes(Join(lines, "\n"), table, cols) == Join(lines + IndexStatements(table, cols), "\n")
    decreases |cols|
  {
    if |cols| == 0 {
      assert lines + IndexStatements(table, cols) == lines;
    } else {
      var head := IndexHead(table, cols);
      AppendIndexesStep(lines, table, cols);
      AppendIndexesJoins(lines + head, table, cols[1..]);
      var tail := IndexStatements(table, cols[1..]);
      var all := IndexStatements(table, cols);
      assert all == head + tail;
      SeqAssoc(lines, head, tail);
    }
  }

  function ForeignKeyHead(table: string, cols: seq<(string, Column)>): seq<string>
    requires |cols| > 0
  {
    match cols[0].1.references
    case None => []
    case Some(ref) => [ForeignKeyStatement(table, cols[0].0, ref)]
  }

  lemma AppendForeignKeysStep(lines: seq<string>, table: string, cols: seq<(string, Column)>)
    requires |lines| > 0 && |cols| > 0
    ensures AppendForeignKeys(Join(lines, "\n"), table, cols)
         == AppendForeignKeys(Join(lines + ForeignKeyHead(table, cols), "\n"), table, cols[1..])
    ensures ForeignKeyStatements(table, cols) == ForeignKeyHead(table, cols) + ForeignKeyStatements(table, cols[1..])
  {
    match cols[0].1.references
    case Some(ref) =>
      JoinAppend(lines, ForeignKeyStatement(table, cols[0].0, ref), "\n");
    case None =>
      assert lines + [] == lines;
  }

  lemma {:induction false} AppendForeignKeysJoins(lines: seq<string>, table: string, cols: seq<(string, Column)>)
    requires |lines| > 0
    ensures AppendForeignKeys(Join(lines, "\n"), table, cols) == Join(lines + ForeignKeyStatements(table, cols), "\n")
    decreases |cols|
  {
    if |cols| == 0 {
      assert lines + ForeignKeyStatements(table, cols) == lines;
    } else {
      var head := ForeignKeyHead(table, cols);
      AppendForeignKeysStep(lines, table, cols);
      AppendForeignKeysJoins(lines + head, table, cols[1..]);
      var tail := ForeignKeyStatements(table, cols[1..]);
      var all := ForeignKeyStatements(table, cols);
      assert all == head + tail;
      SeqAssoc(lines, head, tail);
    }
  }

  /** Appending the index and foreign-key statements line by line to the create
      clause yields the statements joined by newlines. */
  lemma AppendedStatements(t: Table, defs: seq<string>)
    ensures AppendForeignKeys(AppendIndexes(CreateClause(t.name, defs), t.name, t.columns), t.name, t.columns)
         == Join(Statements(t, defs), "\n")
  {
    var create := CreateClause(t.name, defs);
    assert create == Join([create], "\n");
    AppendIndexesJoins([create], t.name, t.columns);
    AppendForeignKeysJoins([create] + IndexStatements(t.name, t.columns), t.name, t.columns);
  }

  /** `generateCreateTableSQL`: one `up` text and one `down` statement dropping
      the table; `CreateTableSqlStatements` says what the `up` text holds. */
  function CreateTableSql(t: Table): (r: SqlResult)
    ensures |r.up| == 1 && |r.down| == 1
    ensures r.down[0] == "DROP TABLE IF EXISTS " + t.name + ";"
  {
    var createSql := "CREATE TABLE " + t.name + " (\n";
    var createSql := createSql + Join(ColumnDefinitions(t), ",\n");
    var createSql := createSql + "\n);";
    var createSql := AppendIndexes(createSql, t.name, t.columns);
    var createSql := AppendForeignKeys(createSql, t.name, t.columns);
    SqlResult([createSql], ["DROP TABLE IF EXISTS " + t.name + ";"])
  }

  /** The `up` text holds the create clause, then one index statement per
      unique or primary column, then one foreign key per reference, one per line. */
  lemma CreateTableSqlStatements(t: Table)
    ensures CreateTableSql(t).up[0] == Join(Statements(t, ColumnDefinitions(t)), "\n")
  {
    AppendedStatements(t, ColumnDefinitions(t));
  }

  // ---------------------------------------------------------------------------
  // The journal
  // ---------------------------------------------------------------------------

  /** `<timestamp>_<name>`. */
  function MigrationId(timestamp: nat, name: string): (id: string)
    ensures StartsWith(id, NatToDecimal(timestamp) + "_")
  {
    NatToDecimal(timestamp) + "_" + name
  }

  /** Splits an id at its first underscore into the timestamp and the name. */
  function ParseMigrationId(id: string): Option<(nat, string)> {
    if exists i :: 0 <= i < |id| && id[i] == '_' then
      var i := FirstUnderscore(id);
      if AllDigits(id[..i]) then Some((DecimalValue(id[..i]), id[i + 1..])) else None
    else None
  }

  function FirstUnderscore(s: string): (i: nat)
    requires exists i :: 0 <= i < |s| && s[i] == '_'
    ensures i < |s| && s[i] == '_'
    ensures forall j :: 0 <= j < i ==> s[j] != '_'
  {
    if s[0] == '_' then 0 else 1 + FirstUnderscore(s[1..])
  }

  /** An id determines the timestamp and the name it was made from. */
  lemma MigrationIdRoundTrip(timestamp: nat, name: string)
    ensures ParseMigrationId(MigrationId(timestamp, name)) == Some((timestamp, name))
  {
    var digits := NatToDecimal(timestamp);
    var id := MigrationId(timestamp, name);
    assert id[|digits|] == '_';
    assert forall j :: 0 <= j < |digits| ==> id[j] == digits[j] && id[j] != '_';
    var i := FirstUnderscore(id);
    assert i == |digits|;
    assert id[..i] == digits;
    assert id[i + 1..] == name;
    DecimalRoundTrip(timestamp);
  }

  function FileName(id: string): (f: string)
    ensures EndsWith(f, ".json")
  {
    id + ".json"
  }

  /** One file of the migrations directory; `content` is `None` when the file
      does not parse as a migration document. */
  datatype Entry = Entry(file: string, content: Option<Migration>)

  datatype JournalError = CorruptMigration(file: string)

  /** `createMigration`: the migration with id `<now>_<name>`, and the directory
      after writing it to `<id>.json` (replacing a file of that name). */
  function CreateMigration(dir: seq<Entry>, name: string, up: seq<string>, down: seq<string>, now: nat)
    : (r: (seq<Entry>, Migration))
    ensures r.1 == Migration(MigrationId(now, name), name, now, up, down)
    ensures Entry(FileName(r.1.id), Some(r.1)) in r.0
    ensures forall e :: e in dir && e.file != FileName(r.1.id) ==> e in r.0
    ensures forall e :: e in r.0 ==> e in dir || e == Entry(FileName(r.1.id), Some(r.1))
  {
    var m := Migration(MigrationId(now, name), name, now, up, down);
    var file := FileName(m.id);
    if exists i :: 0 <= i < |dir| && dir[i].file == file then
      var written := seq(|dir|, i requires 0 <= i < |dir| => if dir[i].file == file then Entry(file, Some(m)) else dir[i]);
      var k :| 0 <= k < |dir| && dir[k].file == file;
      assert written[k] == Entry(file, Some(m));
      assert forall j :: 0 <= j < |dir| && dir[j].file != file ==> written[j] == dir[j];
      (written, m)
    else
      (dir + [Entry(file, Some(m))], m)
  }

  /** The `.json` entries of a listing, in listing order: each as often as
      the listing holds it, and nothing else. */
  function JsonEntries(dir: seq<Entry>): (r: seq<Entry>)
    ensures forall e :: multiset(r)[e] == if EndsWith(e.file, ".json") then multiset(dir)[e] else 0
  {
    if |dir| == 0 then []
    else
      var rest := JsonEntries(dir[1..]);
      assert dir == [dir[0]] + dir[1..];
      if EndsWith(dir[0].file, ".json") then [dir[0]] + rest else rest
  }

  /** The parsed documents of the `.json` files in listing order, failing on the
      first one that does not parse. */
  function ReadJsonFiles(dir: seq<Entry>): (r: Result<seq<Migration>, JournalError>)
    ensures r.Ok? <==> forall e :: e in dir && EndsWith(e.file, ".json") ==> e.content.Some?
    ensures r.Err? ==> exists e :: e in dir && EndsWith(e.file, ".json") && e.content.None?
                                   && r.error == CorruptMigration(e.file)
    ensures r.Ok? ==> forall m :: m in r.value <==> exists e :: e in dir && EndsWith(e.file, ".json") && e.content == Some(m)
    ensures r.Ok? ==> |r.value| == |JsonEntries(dir)|
    ensures r.Ok? ==> forall i :: 0 <= i < |r.value| ==> JsonEntries(dir)[i].content == Some(r.value[i])
  {
    if |dir| == 0 then Ok([])
    else if !EndsWith(dir[0].file, ".json") then ReadJsonFiles(dir[1..])
    else match dir[0].content
      case None => Err(CorruptMigration(dir[0].file))
      case Some(m) =>
        match ReadJsonFiles(dir[1..])
        case Err(e) => Err(e)
        case Ok(ms) => Ok([m] + ms)
  }

  predicate SortedByTimestamp(ms: seq<Migration>) {
    forall i, j :: 0 <= i < j < |ms| ==> ms[i].timestamp <= ms[j].timestamp
  }

  /** Inserts `m` after every element whose timestamp is not greater. */
  function InsertByTimestamp(sorted: seq<Migration>, m: Migration): (r: seq<Migration>)
    requires SortedByTimestamp(sorted)
    ensures SortedByTimestamp(r)
    ensures multiset(r) == multiset(sorted) + multiset{m}
  {
    if |sorted| == 0 then [m]
    else if m.timestamp < sorted[0].timestamp then [m] + sorted
    else
      var rest := InsertByTimestamp(sorted[1..], m);
      InsertedAfterHead(sorted, m, rest);
      assert sorted == [sorted[0]] + sorted[1..];
      [sorted[0]] + rest
  }

  lemma InsertedAfterHead(sorted: seq<Migration>, m: Migration, rest: seq<Migration>)
    requires |sorted| > 0 && SortedByTimestamp(sorted) && SortedByTimestamp(rest)
    requires sorted[0].timestamp <= m.timestamp
    requires multiset(rest) == multiset(sorted[1..]) + multiset{m}
    ensures SortedByTimestamp([sorted[0]] + rest)
  {
    forall x | x in rest
      ensures sorted[0].timestamp <= x.timestamp
    {
      assert x in multiset(rest);
      if x != m {
        assert x in multiset(sorted[1..]);
        var j :| 0 <= j < |sorted[1..]| && sorted[1..][j] == x;
        assert sorted[j + 1] == x;
      }
    }
  }

  /** The stable ascending sort by timestamp of `Array.prototype.sort` with the
      comparator `a.timestamp - b.timestamp`. */
  function SortByTimestamp(ms: seq<Migration>): (r: seq<Migration>)
    ensures SortedByTimestamp(r)
    ensures multiset(r) == multiset(ms)
  {
    if |ms| == 0 then []
    else
      assert ms == ms[..|ms| - 1] + [ms[|ms| - 1]];
      InsertByTimestamp(SortByTimestamp(ms[..|ms| - 1]), ms[|ms| - 1])
  }

  /** `getMigrations`: the `.json` documents sorted by ascending timestamp, or
      the error of the first document that does not parse. */
  function GetMigrations(dir: seq<Entry>): (r: Result<seq<Migration>, JournalError>)
    ensures r.Ok? <==> forall e :: e in dir && EndsWith(e.file, ".json") ==> e.content.Some?
    ensures r.Ok? ==> SortedByTimestamp(r.value)
    ensures r.Ok? ==> multiset(r.value) == multiset(ReadJsonFiles(dir).value)
  {
    match ReadJsonFiles(dir)
    case Err(e) => Err(e)
    case Ok(ms) => Ok(SortByTimestamp(ms))
  }

  /** A migration written by `CreateMigration` is listed by `GetMigrations`,
      provided the rest of the directory reads. */
  lemma CreatedMigrationIsListed(dir: seq<Entry>, name: string, up: seq<string>, down: seq<string>, now: nat)
    requires GetMigrations(dir).Ok?
    ensures var (dir', m) := CreateMigration(dir, name, up, down, now);
      GetMigrations(dir').Ok? && m in GetMigrations(dir').value
  {
    var (dir', m) := CreateMigration(dir, name, up, down, now);
    var listed := ReadJsonFiles(dir').value;
    assert m in listed;
    assert m in multiset(listed);
  }
}
