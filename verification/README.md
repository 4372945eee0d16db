# custom-orm core, modelled in Dafny

This project models the core of a small PostgreSQL ORM written in TypeScript.

- **Schema data model.** A declarative schema lists tables. Each table has a name, named columns and an optional `timestamps` flag. A column has one of six types, optional `nullable`, `unique` and `primary` flags, an optional default value, and an optional foreign-key reference.
- **DDL compilers.** Two compilers, `MigrationGenerator` and `SchemaGenerator`, turn one table into SQL text:
  - a `CREATE TABLE` clause;
  - then one `CREATE UNIQUE INDEX` per unique column;
  - then one `ALTER TABLE … FOREIGN KEY` per referencing column.
- **Migration builder.** It orders the tables with a depth-first topological sort and emits one migration:
  - `up` creates the tables in dependency order;
  - `down` drops them in reverse order.
- **Schema registry.** `SchemaManager` keeps the table list and loads it from `schema.json`.
- **Query builder.** `QueryBuilder` assembles a `SELECT` statement with `$1..$n` placeholders and a parameter list.
- **Migration command line.** It has the actions `init`, `create`, `up`, `down` and `clear`. They are modelled as steps of a state machine over an abstract database. The database holds:
  - the log of committed migration and `clear` statements (the tracking DDL and the tracking rows' own statements are not logged);
  - the `_migrations` tracking rows.

  Each transaction either commits all its statements or leaves the database unchanged.

## Layout and modelling choices

Most source files become one module each. `migration.builder.ts` becomes four: `DependencySort` holds the traversal, `DependencyOrder` its invariant, `DependencyTheorems` the sort's properties, and `MigrationBuilder` the build itself. Four helper modules support them: `Wrappers`, `Seqs`, `Strings` and `JsValues`.

| file | module | models |
|---|---|---|
| `schema_types.dfy` | `SchemaTypes` | `schema.types.ts` |
| `migration_generator.dfy` | `MigrationGenerator` | `migration.generator.ts` |
| `schema_generator.dfy` | `SchemaGenerator` | `schema.generator.ts` |
| `dependency_sort.dfy` | `DependencySort` | `sortTablesByDependency` |
| `dependency_order.dfy` | `DependencyOrder`, `DependencyTheorems` | the sort's invariant and theorems |
| `migration_builder.dfy` | `MigrationBuilder` | `buildMigration` |
| `schema_manager.dfy` | `SchemaManager` | `schema.manager.ts` |
| `query_builder.dfy` | `QueryBuilder` | `query-builder/index.ts` |
| `migration_cli.dfy` | `MigrationCli` | `migration.cli.ts` |
| `js_values.dfy` | `JsValues` | opaque JavaScript values |

### Data representation

- An object's key order (`Object.entries(table.columns)`) becomes a `seq<(string, Column)>`.
- A reference always carries its target table and column; its `onDelete` and every column field except the type are optional (`Option`).
- Optional booleans are `Option<bool>`. JavaScript truthiness of such a flag is `Flag(o) == (o == Some(true))`.
- An arbitrary JavaScript value (a column default, a query parameter) is `JsValue`: either `null`, or a value described by what `String(v)` and `JSON.stringify(v)` return for it and by whether it is truthy.

### How the sort is modelled

- `Map` and `Set` iterate in first-insertion order. The graph's keys are the table names in order of first occurrence.
- When two tables share a name, the later one is the one the name-keyed maps hold (`LastWithName`).
- `visit`'s shared `path` set is modelled by passing `path + {name}` down the recursion. The source adds `name` to the set and deletes it again after the loop, which has the same effect.
- `nameToTable.get(name)!` for a name with no table yields `undefined`. The sorted list is therefore a `seq<Option<Table>>`, where `None` is that `undefined`.

### Modelling decisions

- `buildMigration`'s compile loop is stated for any `Compiler` that is `WellShaped`, which means one `up` text and one `DROP TABLE IF EXISTS` statement: `AccumulateTables` and `AccumulateFails` hold for every such compiler. `BuildMigration` and the lemmas about it use the migration generator's `CreateTableSql`, which `GeneratorWellShaped` shows is well shaped.
- `Date.now()` is the parameter `now`.
- The file system is modelled as a list of `Entry(file, content)`. `content` is `None` when the document does not parse.
- The outcome of reading `schema.json` is a `FileOutcome`.
- The database server's acceptance of a statement is an `Engine` predicate over the statements already run. A statement is SQL text, the tracking `INSERT` with its row, or the tracking `DELETE` with its id. Every statement the commands send goes through the engine: the tracking DDL, the two `SELECT`s on the tracking table, the migration and `clear` statements, and the two parameterised tracking statements. The model itself adds one rule: an `INSERT` of an id that is already tracked fails, because `id` is the primary key.

### Behaviour worth knowing

- A unique index is emitted for every column flagged `unique`, including primary columns.
- Each table's `down` is `DROP TABLE IF EXISTS <name>;`, without `CASCADE`.
- Each table's `up` is one string: the create clause, indexes and foreign keys joined by newlines. It is not one statement per element.
- A table that references itself is reported as a circular dependency.
- A reference to a table that is not in the input does not fail the sort. It leaves `undefined` in the sorted list, and `buildMigration` then throws while compiling it.
- `create` compiles the tables in schema order and does not reverse `down`. `clear` drops them in schema order, not in reverse dependency order.
- `createMigration` writes `<id>.json` unconditionally, replacing an existing file of that name.

### The two compilers

The two compilers differ on a primary `number` column:

- `MigrationGenerator` renders `<name> INTEGER INT GENERATED ALWAYS AS IDENTITY PRIMARY KEY`, with the type written twice. The appended text starts with ` INT` after the mapped type `INTEGER`.
- `SchemaGenerator` renders `<name> INTEGER GENERATED ALWAYS AS IDENTITY PRIMARY KEY`.

The model keeps both as written and proves that this column text is the only difference between the two outputs.

## Model

| member | source | states |
|---|---|---|
| `SchemaTypes.ParseColumnType` | src/orm/schema/schema.types.ts:36 | the type field is accepted exactly when it is one of the six type names, and the accepted type spells back to the input |
| `SchemaTypes.ColumnTypeRoundTrip` | src/orm/schema/schema.types.ts:3-9 | each of the six column types is recovered from its spelling |
| `SchemaTypes.ParseOnDelete` | src/orm/schema/schema.types.ts:45 | `onDelete` is accepted exactly when it is `CASCADE`, `SET NULL` or `RESTRICT`, and the accepted policy spells back to the input |
| `SchemaTypes.OnDeleteRoundTrip` | src/orm/schema/schema.types.ts:20 | each deletion policy is recovered from its spelling |
| `SchemaTypes.ValidationAdmitsDuplicatesAndTwoPrimaries` | src/orm/schema/schema.types.ts:50-58 | a witness that the schema type, and so the zod schema it mirrors, can hold two tables of the same name and a table with two primary columns; there is no validator function in the model, so this shows only that the type admits such a schema |
| `MigrationGenerator.PostgresType` | src/orm/migration/migration.generator.ts:131-142 | a known type name maps to the fixed SQL type of its column type; any other name falls back to `VARCHAR(255)` |
| `MigrationGenerator.DefaultValueSql` | src/orm/migration/migration.generator.ts:144-150 | `null` renders as `NULL`; a string column's default is single-quoted without escaping; a boolean column's is `TRUE` exactly when the value is truthy; a json column's is the serialised value cast to `jsonb`; other types render the value's text |
| `MigrationGenerator.ColumnDefinition` | src/orm/migration/migration.generator.ts:104-129 | every line starts with the name and mapped type; a primary column then gets its key clause (` INT GENERATED ALWAYS AS IDENTITY PRIMARY KEY` for `number`, ` PRIMARY KEY DEFAULT gen_random_uuid()` for `uuid`, ` PRIMARY KEY` otherwise) and never `NOT NULL` or `DEFAULT`; a non-primary column gets ` NOT NULL` unless nullable and ` DEFAULT …` when a default is given |
| `MigrationGenerator.ColumnDefinitions` | src/orm/migration/migration.generator.ts:59-68 | the column list holds the declared columns in declaration order, followed by `created_at` and `updated_at` exactly when `timestamps` is set |
| `MigrationGenerator.UniqueColumns` | src/orm/migration/migration.generator.ts:74-75 | a column is selected for an index exactly when it is flagged unique, primary columns included |
| `MigrationGenerator.ReferencingColumns` | src/orm/migration/migration.generator.ts:81-82 | a column is selected for a foreign key exactly when it carries a reference |
| `MigrationGenerator.IndexStatements` | src/orm/migration/migration.generator.ts:73-78 | there is one `CREATE UNIQUE INDEX <t>_<c>_unique` statement per unique column, in declaration order |
| `MigrationGenerator.OnDeleteClause` | src/orm/migration/migration.generator.ts:91-93 | the clause is empty exactly when no policy is given; otherwise it is ` ON DELETE ` followed by a spelling that the schema's `onDelete` validation parses back to that same policy |
| `MigrationGenerator.ForeignKeyStatements` | src/orm/migration/migration.generator.ts:80-96 | there is one `ALTER TABLE … FOREIGN KEY … REFERENCES` statement per referencing column, in declaration order |
| `MigrationGenerator.AppendedStatements` | src/orm/migration/migration.generator.ts:70-96 | appending the indexes and foreign keys to the create clause one `\n`-prefixed line at a time gives the statement list joined by newlines |
| `MigrationGenerator.CreateTableSql` | src/orm/migration/migration.generator.ts:98-101 | a table compiles to exactly one `up` text and one `down` statement, and that statement is `DROP TABLE IF EXISTS <name>;` |
| `MigrationGenerator.CreateTableSqlStatements` | src/orm/migration/migration.generator.ts:53-102 | the `up` text is the create clause over the column list, then the unique indexes, then the foreign keys, one per line |
| `MigrationGenerator.MigrationId` | src/orm/migration/migration.generator.ts:157-158 | an id starts with the decimal timestamp followed by an underscore |
| `MigrationGenerator.MigrationIdRoundTrip` | src/orm/migration/migration.generator.ts:158 | an id determines the timestamp and the name it was made from |
| `MigrationGenerator.FileName` | src/orm/migration/migration.generator.ts:168 | a migration's file name ends in `.json`, so the listing picks it up |
| `MigrationGenerator.CreateMigration` | src/orm/migration/migration.generator.ts:152-170 | the migration has id `<now>_<name>` and the given statements; afterwards the directory holds it under `<id>.json` and keeps every other file |
| `MigrationGenerator.ReadJsonFiles` | src/orm/migration/migration.generator.ts:173-185 | reading succeeds exactly when every `.json` file parses; a failure names a `.json` file that does not parse; on success the `i`-th document read is the content of the `i`-th `.json` entry in listing order, so each document appears once per `.json` file holding it |
| `MigrationGenerator.SortByTimestamp` | src/orm/migration/migration.generator.ts:187 | the result is ascending by timestamp and is a permutation of the input |
| `MigrationGenerator.GetMigrations` | src/orm/migration/migration.generator.ts:172-188 | listing succeeds exactly when every `.json` file parses, and then returns those documents in ascending timestamp order, each as often as it was read |
| `MigrationGenerator.CreatedMigrationIsListed` | src/orm/migration/migration.generator.ts:152-188 | a migration just written is among those listed afterwards |
| `SchemaGenerator.ColumnDefinition` | src/orm/schema/schema.generator.ts:48-75 | a primary `number` column renders as `<name> INTEGER GENERATED ALWAYS AS IDENTITY PRIMARY KEY`, a primary `uuid` column as `<name> UUID PRIMARY KEY DEFAULT gen_random_uuid()`, another primary column as `<name> <TYPE> PRIMARY KEY`, and a non-primary column as name and type, then ` NOT NULL` unless nullable, then ` DEFAULT …` when a default is given |
| `SchemaGenerator.ColumnDefinitions` | src/orm/schema/schema.generator.ts:9-17 | the column list holds the declared columns in declaration order, followed by the timestamp columns exactly when `timestamps` is set |
| `SchemaGenerator.CreateTableSql` | src/orm/schema/schema.generator.ts:8-46 | the text is the create clause, then the unique indexes, then the foreign keys, one per line, in the same statement layout as the migration generator |
| `SchemaGenerator.GenerateSqlFromSchema` | src/orm/schema/schema.generator.ts:4-6 | there is exactly one text per table, in schema order |
| `SchemaGenerator.ColumnDefinitionsCrossCheck` | src/orm/schema/schema.generator.ts:54-61 | the two compilers render a column identically unless it is a primary `number` column, where the migration generator's line has an extra ` INT` and the two lines differ |
| `SchemaGenerator.CompilersDifferOnlyInColumnText` | src/orm/schema/schema.generator.ts:8-46 | both compilers' texts are the same statement layout over their column lists, and those lists differ exactly at the primary `number` columns |
| `SchemaGenerator.CompilersAgree` | src/orm/schema/schema.generator.ts:8-75 | for a table without a primary `number` column, the schema generator's text equals the migration generator's `up` text |
| `SchemaGenerator.SchemaSqlMatchesMigrationUp` | src/orm/schema/schema.generator.ts:4-6 | over a schema without primary `number` columns, each generated text equals the migration generator's `up` text for the same table |
| `DependencySort.RefTargets` | src/orm/migration/migration.builder.ts:10-13 | a name is a dependency of a table exactly when one of its columns references it |
| `DependencySort.LastWithName` | src/orm/migration/migration.builder.ts:8-9 | the name-keyed map holds a table for a name exactly when some input table has that name, and with unique names it holds that table |
| `DependencySort.Keys` | src/orm/migration/migration.builder.ts:34 | the graph is traversed from every table name, each name once |
| `DependencySort.SortTablesByDependency` | src/orm/migration/migration.builder.ts:4-39 | each entry of a successful sort is an input table or `undefined`, and it is `undefined` exactly when no input table carries the pushed name; with unique names an entry is the input table whose name was pushed at that position. The sort's ordering, failure and permutation properties are the `DependencyTheorems` rows below (`ErrorIffCycle`, `SortPlacesReferencedFirst`, `SortIsPermutation`, `DanglingReferenceYieldsUndefined`) |
| `DependencyOrder.VisitOk` | src/orm/migration/migration.builder.ts:20-32 | a successful visit keeps the traversal invariant (pushed = visited, no name pushed twice, dependencies pushed first), marks the name visited, only extends the result, and visits nothing on the current path |
| `DependencyOrder.SortNamesOk` | src/orm/migration/migration.builder.ts:17-38 | a successful traversal pushes every table name exactly once, pushes only table or referenced names, and pushes each name's dependencies before it |
| `DependencyTheorems.ReferenceIsEdge` | src/orm/migration/migration.builder.ts:8-15 | with unique names, every reference of an input table is an edge of the dependency graph |
| `DependencyTheorems.EdgeIsReference` | src/orm/migration/migration.builder.ts:10-14 | every edge of the graph comes from a reference of the table stored under its source |
| `DependencyTheorems.SortPlacesReferencedFirst` | src/orm/migration/migration.builder.ts:25-31 | with unique names, a referenced table comes before every table that references it in the output |
| `DependencyTheorems.SortIsPermutation` | src/orm/migration/migration.builder.ts:17-38 | with unique names and every reference resolving to an input table, the output is a permutation of the input with no `undefined` entry |
| `DependencyTheorems.DanglingReferenceYieldsUndefined` | src/orm/migration/migration.builder.ts:25-31 | with unique names, a reference to a table the input lacks makes a successful sort contain an `undefined` entry |
| `DependencyTheorems.SortKeepsOrderedInput` | src/orm/migration/migration.builder.ts:25-36 | with unique names, input in which each table references only earlier tables comes out unchanged |
| `DependencyTheorems.EdgeGoesEarlier` | src/orm/migration/migration.builder.ts:25-31 | with unique names, a referenced table's name is pushed before the referencing table's |
| `DependencyTheorems.CycleMeansError` | src/orm/migration/migration.builder.ts:20-23 | with unique names, any reference cycle, a self-reference included, makes the sort throw |
| `DependencyTheorems.ErrorMeansCycle` | src/orm/migration/migration.builder.ts:20-23 | a circular-dependency error names a table that lies on a reference cycle |
| `DependencyTheorems.ErrorIffCycle` | src/orm/migration/migration.builder.ts:17-36 | with unique names, the sort throws exactly when the references contain a cycle |
| `MigrationBuilder.GeneratorWellShaped` | src/orm/migration/migration.generator.ts:98-101 | the migration generator produces one `up` text and the single matching drop for every table |
| `MigrationBuilder.AccumulateTables` | src/orm/migration/migration.builder.ts:50-56 | the loop appends each table's `up` in sorted order and unshifts each table's `down`, which puts the drops in reverse sorted order |
| `MigrationBuilder.AccumulateFails` | src/orm/migration/migration.builder.ts:50-53 | the loop throws exactly when the sorted list holds an `undefined` entry |
| `MigrationBuilder.BuildMigration` | src/orm/migration/migration.builder.ts:41-61 | a sort failure becomes the circular-dependency error; otherwise the build fails exactly when the sorted list holds `undefined`; on success the id is `<now>_<name>`, `up` is the creates in sorted order and `down` the drops in reverse sorted order |
| `MigrationBuilder.DownReversesUp` | src/orm/migration/migration.builder.ts:54-55 | `down` has as many statements as `up`, and its `k`-th statement drops the table created by the `k`-th create from the end |
| `MigrationBuilder.BuildCreatesReferencedFirst` | src/orm/migration/migration.builder.ts:46-56 | with unique names and resolving references, the build succeeds exactly when there is no cycle, and then creates each table once with referenced tables first |
| `MigrationBuilder.OrderedInputBuildsInOrder` | src/orm/migration/migration.builder.ts:46-60 | with unique names, dependency-ordered input is created in input order and dropped in reverse input order |
| `MigrationBuilder.DanglingReferenceFailsBuild` | src/orm/migration/migration.builder.ts:50-53 | with unique names, a reference to a table the schema lacks makes the build fail |
| `SchemaManager.FindIndex` | src/orm/schema/schema.manager.ts:59 | the result is -1 exactly when the name is absent, and otherwise the first position holding the name |
| `SchemaManager.AddTable` | src/orm/schema/schema.manager.ts:39-44 | adding fails with "already exists" exactly when the name is present; otherwise the table is appended and the earlier tables are unchanged |
| `SchemaManager.RemoveTable` | src/orm/schema/schema.manager.ts:46-48 | the result holds exactly the tables of other names, and the name is gone |
| `SchemaManager.GetTable` | src/orm/schema/schema.manager.ts:50-52 | lookup finds a table exactly when the name is present, and then it is the first table with that name |
| `SchemaManager.UpdateTable` | src/orm/schema/schema.manager.ts:58-64 | updating fails with "not found" exactly when the name is absent; otherwise only the first table with that name is replaced and every other position is unchanged |
| `SchemaManager.LoadSchema` | src/orm/schema/schema.manager.ts:15-29 | a valid file replaces the schema, a missing file (`ENOENT`) empties it, and any other failure throws and keeps the previous schema |
| `SchemaManager.AddKeepsNamesUnique` | src/orm/schema/schema.manager.ts:39-44 | a successful add keeps table names unique |
| `SchemaManager.AddAllFromEmpty` | src/orm/schema/schema.manager.ts:40-43 | adding a list one table at a time to an empty schema succeeds exactly when its names are unique, and then yields that list |
| `SchemaManager.RemoveKeepsNamesUnique` | src/orm/schema/schema.manager.ts:46-48 | removal keeps table names unique |
| `SchemaManager.RemoveKeepsOrder` | src/orm/schema/schema.manager.ts:47 | removal distributes over concatenation and keeps each table of another name, so the survivors keep their relative order |
| `SchemaManager.RemoveAbsentIsNoOp` | src/orm/schema/schema.manager.ts:46-48 | removing an absent name changes nothing, and removing twice is removing once |
| `SchemaManager.UpdateKeepsNamesUnique` | src/orm/schema/schema.manager.ts:58-64 | an update keeps names unique when the replacement keeps the old name or takes an unused one |
| `SchemaManager.UpdateCanDuplicateNames` | src/orm/schema/schema.manager.ts:58-64 | because the replacement's name is not checked, an update can leave two tables with the same name |
| `SchemaManager.GetAfterAdd` | src/orm/schema/schema.manager.ts:39-52 | after an add, lookup by the new name finds the added table and lookups of other names are unchanged |
| `SchemaManager.GetAfterRemove` | src/orm/schema/schema.manager.ts:46-52 | after a removal, lookup by that name finds nothing |
| `QueryBuilder.New` | src/orm/query-builder/index.ts:15-27 | a new builder selects `*` and has no conditions, joins, order, limit or offset |
| `QueryBuilder.Select` | src/orm/query-builder/index.ts:29-32 | `select` replaces the field list and changes nothing else |
| `QueryBuilder.Where` | src/orm/query-builder/index.ts:34-37 | `where` appends one condition and changes nothing else |
| `QueryBuilder.JoinOn` | src/orm/query-builder/index.ts:39-42 | `join` appends `JOIN <table> ON <condition>` and changes nothing else |
| `QueryBuilder.OrderBy` | src/orm/query-builder/index.ts:44-47 | `orderBy` sets `ORDER BY <column> <direction>` with `ASC` when no direction is given, and changes nothing else |
| `QueryBuilder.Limit` | src/orm/query-builder/index.ts:49-52 | `limit` sets the limit and changes nothing else |
| `QueryBuilder.Offset` | src/orm/query-builder/index.ts:54-57 | `offset` sets the offset and changes nothing else |
| `QueryBuilder.TableRef` | src/orm/query-builder/index.ts:60 | the alias renders as `<table> AS <alias>` exactly when it is a non-empty string |
| `QueryBuilder.RenderConditionsNumbers` | src/orm/query-builder/index.ts:66-71 | pushing each value and numbering by the new parameter count gives the `k`-th condition the placeholder `$(k+1)` and appends the values in condition order |
| `QueryBuilder.RenderedWhereClause` | src/orm/query-builder/index.ts:67-72 | the WHERE text as built equals the conditions with placeholders `$1..$n` joined by ` AND ` |
| `QueryBuilder.Build` | src/orm/query-builder/index.ts:59-88 | the parameters are the condition values in `where` order; the text is SELECT, then JOIN, WHERE, ORDER BY, LIMIT and OFFSET, each only when present |
| `QueryBuilder.FreshBuild` | src/orm/query-builder/index.ts:59-88 | a fresh builder builds `SELECT * FROM <table>` with no parameters |
| `QueryBuilder.WhereAddsOneParameter` | src/orm/query-builder/index.ts:66-71 | each `where` adds exactly its value at the end of the parameters |
| `QueryBuilder.WhereAddsOneCondition` | src/orm/query-builder/index.ts:68-72 | each `where` adds one condition at the end of the WHERE text, numbered by the new parameter count |
| `QueryBuilder.EmptyPartsRenderNothing` | src/orm/query-builder/index.ts:62-73 | without conditions there is no WHERE text and no parameter; without any optional part the text is only the SELECT clause |
| `QueryBuilder.LastCallWins` | src/orm/query-builder/index.ts:29-57 | for `orderBy`, `limit`, `offset` and `select`, a second call overrides the first |
| `QueryBuilder.ZeroLimitIsEmitted` | src/orm/query-builder/index.ts:79-81 | a limit of zero is still emitted as ` LIMIT 0` |
| `MigrationCli.ExecAll` | src/orm/cli/migration.cli.ts:76-78 | a statement loop that completes has committed exactly its statements, in order |
| `MigrationCli.ExecAllAccepts` | src/orm/connection/connection.manager.ts:67-82 | a transaction succeeds exactly when every statement is accepted in turn; otherwise it fails at the first rejected statement |
| `MigrationCli.Init` | src/orm/cli/migration.cli.ts:19-32 | `init` succeeds exactly when the tracking-table DDL is accepted; then the tracking table exists and existing rows survive; on failure nothing changes |
| `MigrationCli.ApplyMigration` | src/orm/cli/migration.cli.ts:75-82 | one migration commits exactly when all its `up` statements are accepted, its id is new and the server accepts its tracking `INSERT`; it then adds those statements and its tracking row. An id already tracked fails with a duplicate-key error |
| `MigrationCli.Pending` | src/orm/cli/migration.cli.ts:72-73 | the pending migrations are exactly the listed ones whose id was not tracked when `up` started |
| `MigrationCli.RunPendingCommitsPrefix` | src/orm/cli/migration.cli.ts:72-92 | the run commits a prefix of the pending migrations, and the transaction of every migration in that prefix was accepted; it fails exactly when it stops short, at the first migration whose transaction fails, and the earlier commits stay |
| `MigrationCli.Up` | src/orm/cli/migration.cli.ts:61-93 | a corrupt migration file, a missing tracking table, or a rejected read of the tracked ids fails `up` without any change; `up` succeeds only after that read was accepted |
| `MigrationCli.UpAppliesPending` | src/orm/cli/migration.cli.ts:66-86 | a successful `up` applies exactly the untracked migrations in ascending timestamp order, and afterwards every listed id is tracked |
| `MigrationCli.UpIsIdempotent` | src/orm/cli/migration.cli.ts:70-73 | running `up` again over the same files changes nothing, and succeeds unless the server rejects the read of the tracked ids |
| `MigrationCli.Latest` | src/orm/cli/migration.cli.ts:100-103 | the row rolled back is a tracked row with the greatest timestamp |
| `MigrationCli.FindById` | src/orm/cli/migration.cli.ts:110-113 | the file lookup finds a migration exactly when one has the id, and then it is the first migration in the list with that id |
| `MigrationCli.DeleteId` | src/orm/cli/migration.cli.ts:124-126 | deletion keeps exactly the rows with another id |
| `MigrationCli.Down` | src/orm/cli/migration.cli.ts:95-135 | a rejected read of the latest tracked row fails `down` without change; with no tracked rows `down` succeeds and changes nothing; a corrupt file or a missing file for the latest row fails before any statement runs; otherwise `down` succeeds exactly when the migration's `down` statements and then the tracking `DELETE` are accepted, and it then commits those statements and deletes the row; any failure leaves the database unchanged |
| `MigrationCli.DownUndoesLatestApply` | src/orm/cli/migration.cli.ts:95-135 | rolling back a migration that was applied last, with a new id and the greatest timestamp, restores the tracking table |
| `MigrationCli.CollectScriptsInOrder` | src/orm/cli/migration.cli.ts:45-50 | `create`'s loop collects each table's `up` and its drop in schema order |
| `MigrationCli.Create` | src/orm/cli/migration.cli.ts:34-59 | `create` fails exactly when loading the schema throws; otherwise it writes a migration with id `<now>_<name>`, the creates in schema order and the drops in schema order |
| `MigrationCli.CreateDoesNotReverseDown` | src/orm/cli/migration.cli.ts:45-50 | for two tables, `create` drops the first table first, whereas `buildMigration` drops the last table first |
| `MigrationCli.ClearStatements` | src/orm/cli/migration.cli.ts:147-149 | there is one `DROP TABLE IF EXISTS <name> CASCADE;` per schema table, in schema order, so every drop cascades |
| `MigrationCli.Clear` | src/orm/cli/migration.cli.ts:137-165 | `clear` fails without change when loading the schema throws; otherwise it succeeds exactly when every drop is accepted, and then commits all the drops |

## Left out

- `MigrationGenerator.SortByTimestamp`: the contract states ascending order and permutation, not the stability of the sort. The model is a stable insertion sort, as `Array.prototype.sort` is.
- `MigrationCli.Latest`: when several rows share the greatest timestamp, the model takes the first; PostgreSQL's choice among such rows is unspecified.
- `SchemaManager.GetAllTables` returns the manager's array itself, so callers can mutate it. The model returns the list as a value, and that aliasing is not modelled.
- `QueryBuilder`'s setters change the builder in place and return `this`, and `select(columns)` keeps the caller's array. The model's builder is an immutable value, so neither kind of aliasing is modelled: a later change to the caller's array, or to a builder reached through another reference, does not show up in the model.
- The texts of thrown errors are not modelled. The model keeps each error's kind and the table name or id it carries.
- File I/O is not modelled: `mkdir` in `initialize`, `readdir`, `readFile` and `writeFile`. The directory is a list of entries, and the schema file's read outcome is a parameter.
- JSON parsing and zod validation are not modelled. A document either parses to its value or does not.
- `JSON.stringify` and `String(v)` of a default or parameter value are not modelled. They are carried as text fields of `JsValue`.
- JavaScript numbers are unbounded integers in the model: timestamps, `limit` and `offset`. Fractions, `NaN` and the float rendering of `String(n)` are out of scope.
- `Object.entries` lists integer-like keys first. The model takes the column order as given.
- The type lookup in `getPostgresType` reads a plain object, so inherited keys such as `constructor` would be looked up too. The model only falls back to `VARCHAR(255)`.
- Connection pooling, `BEGIN`/`COMMIT`/`ROLLBACK` and client release are not modelled. A transaction is modelled by its observable contract: all statements commit, or the database is unchanged.
- SQL semantics are not interpreted. Whether the server accepts a statement is the `Engine` parameter.
- `executed_at` and the server clock are left out of the tracking rows.
- Console output, `process.exit` codes and command-line argument parsing are not modelled.
- `saveSchema` and `validateSchema` are pure I/O and re-validation; they are not modelled.
- `build` reads the builder without changing it. In the model the builder is an immutable value, so two `build` calls agree by construction and no lemma states it.
- The repeated `generateCreateTableSQL` call in `buildMigration` (migration.builder.ts:53) has no effect, because its result is discarded and the generator is pure. It is not modelled.
- The connection manager's pool configuration, the NestJS module wiring, the demo app files, the `pg` type declarations and the example schema file are not part of this model.
