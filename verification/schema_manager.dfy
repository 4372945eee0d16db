/** `SchemaManager`: the in-memory table list with its add, remove, lookup
    and update operations, and the outcome rule of loading `schema.json`. */
module SchemaManager {
  import opened Wrappers
  import opened SchemaTypes

  datatype ManagerError = AlreadyExists(name: string) | NotFound(name: string)

  /** The schema a fresh manager holds. */
  const Empty := DatabaseSchema([])

  /** `findIndex` by name: the first position holding the name, or -1. */
  function FindIndex(tables: seq<Table>, name: string): (r: int)
    ensures r == -1 <==> name !in Names(tables)
    ensures r != -1 ==> 0 <= r < |tables| && tables[r].name == name
    ensures r != -1 ==> forall j :: 0 <= j < r ==> tables[j].name != name
  {
    if |tables| == 0 then -1
    else if tables[0].name == name then 0
    else
      var k := FindIndex(tables[1..], name);
      NamesCons(tables);
      if k == -1 then -1 else k + 1
  }

  /** `addTable`: refuses a name already present, otherwise appends. */
  function AddTable(s: DatabaseSchema, t: Table): (r: Result<DatabaseSchema, ManagerError>)
    ensures r.Err? <==> t.name in Names(s.tables)
    ensures r.Err? ==> r.error == AlreadyExists(t.name)
    ensures r.Ok? ==> |r.value.tables| == |s.tables| + 1 && r.value.tables[|s.tables|] == t
    ensures r.Ok? ==> r.value.tables[..|s.tables|] == s.tables
  {
    if exists i :: 0 <= i < |s.tables| && s.tables[i].name == t.name then Err(AlreadyExists(t.name))
    else Ok(DatabaseSchema(s.tables + [t]))
  }

  /** `removeTable`: keeps exactly the tables of another name. */
  function RemoveTable(s: DatabaseSchema, name: string): (r: DatabaseSchema)
    ensures forall t :: t in r.tables <==> t in s.tables && t.name != name
    ensures name !in Names(r.tables)
    ensures |r.tables| <= |s.tables|
  {
    DatabaseSchema(Without(s.tables, name))
  }

  function Without(tables: seq<Table>, name: string): (r: seq<Table>)
    ensures forall t :: t in r <==> t in tables && t.name != name
    ensures |r| <= |tables|
  {
    if |tables| == 0 then []
    else
      var rest := Without(tables[1..], name);
      if tables[0].name == name then rest else [tables[0]] + rest
  }

  /** `getTable`: the first table carrying the name, if any. */
  function GetTable(s: DatabaseSchema, name: string): (r: Option<Table>)
    ensures r.Some? <==> name in Names(s.tables)
    ensures r.Some? ==> r.value.name == name
    ensures r.Some? ==> exists i :: (0 <= i < |s.tables| && s.tables[i] == r.value
      && forall j :: 0 <= j < i ==> s.tables[j].name != name)
  {
    var i := FindIndex(s.tables, name);
    if i == -1 then None else Some(s.tables[i])
  }

  /** `getAllTables`: the manager's list itself. */
  function GetAllTables(s: DatabaseSchema): seq<Table> {
    s.tables
  }

  /** `updateTable`: replaces the first table carrying the name; the new
      table's own name is not checked. */
  function UpdateTable(s: DatabaseSchema, name: string, t: Table): (r: Result<DatabaseSchema, ManagerError>)
    ensures r.Err? <==> name !in Names(s.tables)
    ensures r.Err? ==> r.error == NotFound(name)
    ensures r.Ok? ==> |r.value.tables| == |s.tables|
    ensures r.Ok? ==> exists i :: (
      && 0 <= i < |s.tables| && s.tables[i].name == name
      && (forall j :: 0 <= j < i ==> s.tables[j].name != name)
      && r.value.tables[i] == t
      && (forall j :: 0 <= j < |s.tables| && j != i ==> r.value.tables[j] == s.tables[j]))
  {
    var i := FindIndex(s.tables, name);
    if i == -1 then Err(NotFound(name))
    else Ok(DatabaseSchema(s.tables[i := t]))
  }

  // ---------------------------------------------------------------------------
  // Loading
  // ---------------------------------------------------------------------------

  /** What reading and validating `schema.json` produced: a read failure with
      its error code, if it has one, or the file's content, `None` standing for
      text that is not JSON or does not validate. */
  datatype FileOutcome = Unreadable(code: Option<string>) | Readable(content: Option<DatabaseSchema>)

  /** The manager's schema after `loadSchema`, and whether the call threw. */
  datatype Loaded = Loaded(schema: DatabaseSchema, threw: bool)

  /** `loadSchema`: a valid file replaces the schema, a missing file (`ENOENT`)
      empties it, and every other failure throws and keeps the previous one. */
  function LoadSchema(prev: DatabaseSchema, file: FileOutcome): (r: Loaded)
    ensures r.threw <==> !(file.Readable? && file.content.Some?) && file != Unreadable(Some("ENOENT"))
    ensures r.threw ==> r.schema == prev
    ensures file == Unreadable(Some("ENOENT")) ==> r.schema == Empty
    ensures file.Readable? && file.content.Some? ==> r.schema == file.content.value
  {
    match file
    case Readable(Some(schema)) => Loaded(schema, false)
    case Unreadable(code) =>
      if code == Some("ENOENT") then Loaded(Empty, false) else Loaded(prev, true)
    case Readable(None) => Loaded(prev, true)
  }

  // ---------------------------------------------------------------------------
  // Properties
  // ---------------------------------------------------------------------------

  lemma AddKeepsNamesUnique(s: DatabaseSchema, t: Table)
    requires UniqueNames(s.tables) && AddTable(s, t).Ok?
    ensures UniqueNames(AddTable(s, t).value.tables)
  {
    var r := AddTable(s, t).value.tables;
    forall i, j | 0 <= i < j < |r|
      ensures r[i].name != r[j].name
    {
      if j == |s.tables| {
        assert r[i] == s.tables[i];
        assert Names(s.tables)[i] == s.tables[i].name;
      } else {
        assert r[i] == s.tables[i] && r[j] == s.tables[j];
      }
    }
  }

  /** The successive `addTable` calls of a list, stopping at the first that throws. */
  function AddAll(s: DatabaseSchema, ts: seq<Table>): Result<DatabaseSchema, ManagerError>
    decreases |ts|
  {
    if |ts| == 0 then Ok(s)
    else
      match AddTable(s, ts[0])
      case Err(e) => Err(e)
      case Ok(s') => AddAll(s', ts[1..])
  }

  /** Adding a list one by one to an empty schema succeeds exactly when the
      names are unique, and then yields the list itself. */
  lemma AddAllFromEmpty(ts: seq<Table>)
    ensures AddAll(Empty, ts).Ok? <==> UniqueNames(ts)
    ensures AddAll(Empty, ts).Ok? ==> GetAllTables(AddAll(Empty, ts).value) == ts
  {
    assert ts[..0] == [];
    AddAllPrefix(ts, 0);
  }

  lemma {:induction false} AddAllPrefix(ts: seq<Table>, i: nat)
    requires i <= |ts| && UniqueNames(ts[..i])
    ensures AddAll(DatabaseSchema(ts[..i]), ts[i..]).Ok? <==> UniqueNames(ts)
    ensures AddAll(DatabaseSchema(ts[..i]), ts[i..]).Ok? ==> AddAll(DatabaseSchema(ts[..i]), ts[i..]).value.tables == ts
    decreases |ts| - i
  {
    if i == |ts| {
      assert ts[..i] == ts;
    } else {
      var s := DatabaseSchema(ts[..i]);
      assert ts[i..][1..] == ts[i + 1..];
      assert ts[..i + 1] == ts[..i] + [ts[i]];
      if ts[i].name in Names(ts[..i]) {
        var j :| 0 <= j < i && Names(ts[..i])[j] == ts[i].name;
        assert ts[j].name == ts[i].name;
      } else {
        AddKeepsNamesUnique(s, ts[i]);
        AddAllPrefix(ts, i + 1);
      }
    }
  }

  lemma RemoveKeepsNamesUnique(s: DatabaseSchema, name: string)
    requires UniqueNames(s.tables)
    ensures UniqueNames(RemoveTable(s, name).tables)
  {
    WithoutKeepsUnique(s.tables, name);
  }

  lemma {:induction false} WithoutKeepsUnique(tables: seq<Table>, name: string)
    requires UniqueNames(tables)
    ensures UniqueNames(Without(tables, name))
  {
    if |tables| > 0 {
      WithoutKeepsUnique(tables[1..], name);
      var rest := Without(tables[1..], name);
      forall k | 0 <= k < |rest|
        ensures rest[k].name != tables[0].name
      {
        assert rest[k] in tables[1..];
      }
    }
  }

  /** Removal distributes over concatenation and keeps a table of another
      name: the survivors keep their relative order. */
  lemma {:induction false} RemoveKeepsOrder(a: seq<Table>, b: seq<Table>, name: string)
    ensures Without(a + b, name) == Without(a, name) + Without(b, name)
    ensures forall t: Table :: t.name != name ==> Without([t], name) == [t]
    ensures forall t: Table :: t.name == name ==> Without([t], name) == []
  {
    if |a| > 0 {
      assert (a + b)[1..] == a[1..] + b;
      RemoveKeepsOrder(a[1..], b, name);
    } else {
      assert a + b == b;
    }
  }

  /** Removing an absent name changes nothing; removing twice is removing once. */
  lemma RemoveAbsentIsNoOp(s: DatabaseSchema, name: string)
    ensures name !in Names(s.tables) ==> RemoveTable(s, name) == s
    ensures RemoveTable(RemoveTable(s, name), name) == RemoveTable(s, name)
  {
    WithoutAbsent(s.tables, name);
    WithoutAbsent(Without(s.tables, name), name);
  }

  lemma {:induction false} WithoutAbsent(tables: seq<Table>, name: string)
    ensures name !in Names(tables) ==> Without(tables, name) == tables
  {
    if |tables| > 0 && name !in Names(tables) {
      NamesCons(tables);
      WithoutAbsent(tables[1..], name);
    }
  }

  /** An update keeps names unique when the replacement keeps the old name or
      takes an unused one. */
  lemma UpdateKeepsNamesUnique(s: DatabaseSchema, name: string, t: Table)
    requires UniqueNames(s.tables) && UpdateTable(s, name, t).Ok?
    requires t.name == name || t.name !in Names(s.tables)
    ensures UniqueNames(UpdateTable(s, name, t).value.tables)
  {
    var i := FindIndex(s.tables, name);
    var r := s.tables[i := t];
    forall j, k | 0 <= j < k < |r|
      ensures r[j].name != r[k].name
    {
      if j == i {
        assert Names(s.tables)[k] == s.tables[k].name;
      } else if k == i {
        assert Names(s.tables)[j] == s.tables[j].name;
      }
    }
  }

  /** The update does not check the replacement's name: renaming a table to
      the name of another one leaves two tables with that name. */
  lemma UpdateCanDuplicateNames()
    ensures exists s: DatabaseSchema, name: string, t: Table ::
      UniqueNames(s.tables) && UpdateTable(s, name, t).Ok? && !UniqueNames(UpdateTable(s, name, t).value.tables)
  {
    var a := Table("a", [], None);
    var b := Table("b", [], None);
    var s := DatabaseSchema([a, b]);
    assert Names(s.tables)[1] == "b";
    var r := UpdateTable(s, "b", a);
    assert r.value.tables[0].name == r.value.tables[1].name;
  }

  /** Lookup after an add finds the added table; other names are unaffected. */
  lemma GetAfterAdd(s: DatabaseSchema, t: Table, name: string)
    requires AddTable(s, t).Ok?
    ensures GetTable(AddTable(s, t).value, t.name) == Some(t)
    ensures name != t.name ==> GetTable(AddTable(s, t).value, name) == GetTable(s, name)
  {
    var r := AddTable(s, t).value;
    FindIndexAppend(s.tables, t, t.name);
    FindIndexAppend(s.tables, t, name);
  }

  lemma {:induction false} FindIndexAppend(tables: seq<Table>, t: Table, name: string)
    ensures FindIndex(tables + [t], name) ==
      if FindIndex(tables, name) != -1 then FindIndex(tables, name)
      else if t.name == name then |tables| else -1
  {
    if |tables| > 0 {
      assert (tables + [t])[1..] == tables[1..] + [t];
      FindIndexAppend(tables[1..], t, name);
    }
  }

  /** After a removal the name is not found. */
  lemma GetAfterRemove(s: DatabaseSchema, name: string)
    ensures GetTable(RemoveTable(s, name), name) == None
  {
  }
}
