/** The declarative schema: column types, column options, foreign-key
    references, tables and the database schema, together with the checks the
    schema document's validator performs on the enumerated fields. */
module SchemaTypes {
  import opened Wrappers
  import opened JsValues

  /** The six column types a schema may declare. */
  datatype ColumnType = String | Number | Boolean | Date | Json | Uuid

  /** The spelling of a column type in the schema document. */
  function TypeName(t: ColumnType): string {
    match t
    case String => "string"
    case Number => "number"
    case Boolean => "boolean"
    case Date => "date"
    case Json => "json"
    case Uuid => "uuid"
  }

  /** The validator's enumeration check on the `type` field. */
  function ParseColumnType(s: string): (r: Option<ColumnType>)
    ensures r.Some? <==> s in {"string", "number", "boolean", "date", "json", "uuid"}
    ensures r.Some? ==> TypeName(r.value) == s
  {
    if s == "string" then Some(String)
    else if s == "number" then Some(Number)
    else if s == "boolean" then Some(Boolean)
    else if s == "date" then Some(Date)
    else if s == "json" then Some(Json)
    else if s == "uuid" then Some(Uuid)
    else None
  }

  lemma ColumnTypeRoundTrip(t: ColumnType)
    ensures ParseColumnType(TypeName(t)) == Some(t)
  {
  }

  /** The deletion policies a foreign key may carry. */
  datatype OnDelete = Cascade | SetNull | Restrict

  function OnDeleteText(p: OnDelete): string {
    match p
    case Cascade => "CASCADE"
    case SetNull => "SET NULL"
    case Restrict => "RESTRICT"
  }

  /** The validator's enumeration check on the `onDelete` field. */
  function ParseOnDelete(s: string): (r: Option<OnDelete>)
    ensures r.Some? <==> s in {"CASCADE", "SET NULL", "RESTRICT"}
    ensures r.Some? ==> OnDeleteText(r.value) == s
  {
    if s == "CASCADE" then Some(Cascade)
    else if s == "SET NULL" then Some(SetNull)
    else if s == "RESTRICT" then Some(Restrict)
    else None
  }

  lemma OnDeleteRoundTrip(p: OnDelete)
    ensures ParseOnDelete(OnDeleteText(p)) == Some(p)
  {
  }

  /** A foreign-key reference: both the target table and the target column are
      mandatory, the deletion policy is optional. */
  datatype Reference = Reference(table: string, column: string, onDelete: Option<OnDelete>)

  /** A column definition; every field but `ctype` is optional in the document. */
  datatype Column = Column(
    ctype: ColumnType,
    nullable: Option<bool>,
    unique: Option<bool>,
    primary: Option<bool>,
    default: Option<JsValue>,
    references: Option<Reference>)

  /** A table: its name, its columns in declaration order (the order in which
      the document's `columns` object lists them), and the `timestamps` option. */
  datatype Table = Table(name: string, columns: seq<(string, Column)>, timestamps: Option<bool>)

  datatype DatabaseSchema = DatabaseSchema(tables: seq<Table>)

  /** JavaScript truthiness of an optional boolean: absent counts as false. */
  predicate Flag(o: Option<bool>) {
    o == Some(true)
  }

  function Names(tables: seq<Table>): (r: seq<string>)
    ensures |r| == |tables|
    ensures forall i :: 0 <= i < |tables| ==> r[i] == tables[i].name
    ensures forall t :: t in tables ==> t.name in r
  {
    seq(|tables|, i requires 0 <= i < |tables| => tables[i].name)
  }

  lemma NamesCons(tables: seq<Table>)
    requires |tables| > 0
    ensures Names(tables) == [tables[0].name] + Names(tables[1..])
  {
    assert forall j :: 0 <= j < |tables| - 1 ==> tables[1..][j] == tables[j + 1];
  }

  predicate UniqueNames(tables: seq<Table>) {
    forall i, j :: 0 <= i < j < |tables| ==> tables[i].name != tables[j].name
  }

  predicate AtMostOnePrimary(t: Table) {
    forall i, j :: 0 <= i < j < |t.columns| ==>
      !(Flag(t.columns[i].1.primary) && Flag(t.columns[j].1.primary))
  }

  /** Validation only checks field shapes: a schema with two tables of the same
      name, one of which has two primary columns, is a valid schema. */
  lemma ValidationAdmitsDuplicatesAndTwoPrimaries()
    ensures exists s: DatabaseSchema ::
      !UniqueNames(s.tables) && exists t :: t in s.tables && !AtMostOnePrimary(t)
  {
    var pk := Column(Number, None, None, Some(true), None, None);
    var t := Table("t", [("a", pk), ("b", pk)], None);
    var s := DatabaseSchema([t, t]);
    assert !AtMostOnePrimary(t) by {
      assert Flag(t.columns[0].1.primary) && Flag(t.columns[1].1.primary);
    }
    assert !UniqueNames(s.tables) by {
      assert s.tables[0].name == s.tables[1].name;
    }
  }
}
