/** The schema generator: a second compiler from a table to one `CREATE TABLE`
    text, differing from the migration generator only in how it renders a
    primary column. Its type map, default rendering, index statements and
    foreign-key statements are word for word those of the migration
    generator, so the model uses that module's definitions of them. */
module SchemaGenerator {
  import opened Seqs
  import opened Strings
  import opened SchemaTypes
  import MG = MigrationGenerator

  /** One line of the column list. */
  function ColumnDefinition(name: string, c: Column): (r: string)
    ensures Flag(c.primary) && c.ctype == Number ==> r == name + " INTEGER" + MG.IdentityKeyClause
    ensures Flag(c.primary) && c.ctype == Uuid ==> r == name + " UUID" + MG.UuidKeyClause
    ensures Flag(c.primary) && c.ctype !in {Number, Uuid} ==>
      r == name + " " + MG.SqlType(c.ctype) + " PRIMARY KEY"
    ensures !Flag(c.primary) ==> r == name + " " + MG.SqlType(c.ctype) + MG.PlainClauses(c)
  {
    ColumnTypeRoundTrip(c.ctype);
    var sql := name;
    if Flag(c.primary) then
      if c.ctype == Number then sql + " INTEGER" + MG.IdentityKeyClause
      else if c.ctype == Uuid then sql + " UUID" + MG.UuidKeyClause
      else sql + " " + MG.PostgresType(TypeName(c.ctype)) + " PRIMARY KEY"
    else
      MG.AppendPlainClauses(sql + " " + MG.PostgresType(TypeName(c.ctype)), c)
  }

  /** The column list: declared columns in declaration order, then the two
      timestamp columns when the table asks for them. */
  function ColumnDefinitions(t: Table): (r: seq<string>)
    ensures |r| == |t.columns| + (if Flag(t.timestamps) then 2 else 0)
    ensures forall i :: 0 <= i < |t.columns| ==> r[i] == ColumnDefinition(t.columns[i].0, t.columns[i].1)
    ensures Flag(t.timestamps) ==> r[|t.columns|] == MG.CreatedAtColumn && r[|t.columns| + 1] == MG.UpdatedAtColumn
  {
    var declared := seq(|t.columns|, i requires 0 <= i < |t.columns| =>
      ColumnDefinition(t.columns[i].0, t.columns[i].1));
    if Flag(t.timestamps) then declared + [MG.CreatedAtColumn, MG.UpdatedAtColumn] else declared
  }

  /** `generateCreateTableSQL`: the table's statements one per line. */
  function CreateTableSql(t: Table): (r: string)
    ensures r == Join(MG.Statements(t, ColumnDefinitions(t)), "\n")
  {
    var createSql := "CREATE TABLE " + t.name + " (\n" + Join(ColumnDefinitions(t), ",\n") + "\n);";
    MG.AppendedStatements(t, ColumnDefinitions(t));
    var createSql := MG.AppendIndexes(createSql, t.name, t.columns);
    MG.AppendForeignKeys(createSql, t.name, t.columns)
  }

  /** `generateSQLFromSchema`: one text per table, in schema order. */
  function GenerateSqlFromSchema(schema: DatabaseSchema): (r: seq<string>)
    ensures |r| == |schema.tables|
    ensures forall i :: 0 <= i < |r| ==> r[i] == CreateTableSql(schema.tables[i])
  {
    seq(|schema.tables|, i requires 0 <= i < |schema.tables| => CreateTableSql(schema.tables[i]))
  }

  predicate PrimaryNumber(c: Column) {
    Flag(c.primary) && c.ctype == Number
  }

  /** The two compilers render a column identically unless it is a primary
      `number` column, where the migration generator writes the type twice
      (`INTEGER INT`). */
  lemma ColumnDefinitionsCrossCheck(name: string, c: Column)
    ensures !PrimaryNumber(c) ==> MG.ColumnDefinition(name, c) == ColumnDefinition(name, c)
    ensures PrimaryNumber(c) ==>
      && MG.ColumnDefinition(name, c) == name + " INTEGER" + " INT" + MG.IdentityKeyClause
      && ColumnDefinition(name, c) == name + " INTEGER" + MG.IdentityKeyClause
      && MG.ColumnDefinition(name, c) != ColumnDefinition(name, c)
  {
    if Flag(c.primary) && c.ctype == Number {
      assert " " + "INTEGER" == " INTEGER";
      SeqAssoc(name, " ", "INTEGER");
      assert |MG.ColumnDefinition(name, c)| == |ColumnDefinition(name, c)| + 4;
    } else if Flag(c.primary) && c.ctype == Uuid {
      assert " " + "UUID" == " UUID";
      SeqAssoc(name, " ", "UUID");
    }
  }

  /** The migration generator's `up` text is the schema generator's text with
      the migration generator's column list in place of its own; the two lists
      differ exactly at the primary `number` columns. */
  lemma CompilersDifferOnlyInColumnText(t: Table)
    ensures MG.CreateTableSql(t).up[0] == Join(MG.Statements(t, MG.ColumnDefinitions(t)), "\n")
    ensures CreateTableSql(t) == Join(MG.Statements(t, ColumnDefinitions(t)), "\n")
    ensures |MG.ColumnDefinitions(t)| == |ColumnDefinitions(t)|
    ensures forall i :: 0 <= i < |MG.ColumnDefinitions(t)| ==>
      (MG.ColumnDefinitions(t)[i] != ColumnDefinitions(t)[i] <==> i < |t.columns| && PrimaryNumber(t.columns[i].1))
  {
    MG.CreateTableSqlStatements(t);
    forall i | 0 <= i < |MG.ColumnDefinitions(t)|
      ensures MG.ColumnDefinitions(t)[i] != ColumnDefinitions(t)[i] <==> i < |t.columns| && PrimaryNumber(t.columns[i].1)
    {
      ColumnListsAt(t, i);
    }
  }

  lemma ColumnListsAt(t: Table, i: nat)
    requires i < |MG.ColumnDefinitions(t)|
    ensures i < |ColumnDefinitions(t)|
    ensures MG.ColumnDefinitions(t)[i] != ColumnDefinitions(t)[i] <==> i < |t.columns| && PrimaryNumber(t.columns[i].1)
  {
    if i < |t.columns| {
      ColumnDefinitionsCrossCheck(t.columns[i].0, t.columns[i].1);
    }
  }

  /** For a table without a primary `number` column both compilers produce the
      same text. */
  lemma CompilersAgree(t: Table)
    requires forall i :: 0 <= i < |t.columns| ==> !PrimaryNumber(t.columns[i].1)
    ensures CreateTableSql(t) == MG.CreateTableSql(t).up[0]
  {
    CompilersDifferOnlyInColumnText(t);
    assert MG.ColumnDefinitions(t) == ColumnDefinitions(t);
  }

  /** Over a whole schema without primary `number` columns, the schema
      generator's texts are the migration generator's `up` texts. */
  lemma SchemaSqlMatchesMigrationUp(schema: DatabaseSchema)
    requires forall t, i :: t in schema.tables && 0 <= i < |t.columns| ==> !PrimaryNumber(t.columns[i].1)
    ensures |GenerateSqlFromSchema(schema)| == |schema.tables|
    ensures forall i :: 0 <= i < |schema.tables| ==>
      GenerateSqlFromSchema(schema)[i] == MG.CreateTableSql(schema.tables[i]).up[0]
  {
    forall i | 0 <= i < |schema.tables|
      ensures GenerateSqlFromSchema(schema)[i] == MG.CreateTableSql(schema.tables[i]).up[0]
    {
      CompilersAgree(schema.tables[i]);
    }
  }
}
