/** `sortTablesByDependency`: a depth-first traversal of the reference graph
    that emits each table after the tables it references, failing when it
    re-enters a table that is still on the traversal path. */
module DependencySort {
  import opened Wrappers
  import opened Seqs
  import opened SchemaTypes

  // ---------------------------------------------------------------------------
  // The reference graph
  // ---------------------------------------------------------------------------

  /** Table `t` has a column referencing the table named `target`. */
  predicate References(t: Table, target: string) {
    exists i :: 0 <= i < |t.columns| && t.columns[i].1.references.Some?
                && t.columns[i].1.references.value.table == target
  }

  /** The referenced table names of a column list, in column order. */
  function RefTargets(cols: seq<(string, Column)>): (r: seq<string>)
    ensures forall x :: x in r <==> exists i :: 0 <= i < |cols| && cols[i].1.references.Some?
                                               && cols[i].1.references.value.table == x
  {
    if |cols| == 0 then []
    else
      var rest := RefTargets(cols[1..]);
      assert forall x :: x in rest <==> exists i :: 1 <= i < |cols| && cols[i].1.references.Some?
                                                   && cols[i].1.references.value.table == x by {
        forall x | x in rest
          ensures exists i :: 1 <= i < |cols| && cols[i].1.references.Some?
                              && cols[i].1.references.value.table == x
        {
          var j :| 0 <= j < |cols[1..]| && cols[1..][j].1.references.Some?
                   && cols[1..][j].1.references.value.table == x;
          assert cols[j + 1] == cols[1..][j];
        }
        forall x, i | 1 <= i < |cols| && cols[i].1.references.Some? && cols[i].1.references.value.table == x
          ensures x in rest
        {
          assert cols[1..][i - 1] == cols[i];
        }
      }
      var head := if cols[0].1.references.Some? then [cols[0].1.references.value.table] else [];
      head + rest
  }

  /** The last table carrying `name`: the one a name-keyed `Map` keeps. */
  function LastWithName(ts: seq<Table>, name: string): (r: Option<Table>)
    ensures r.Some? <==> name in Names(ts)
    ensures r.Some? ==> r.value in ts && r.value.name == name
    ensures UniqueNames(ts) ==> forall i :: 0 <= i < |ts| && ts[i].name == name ==> r == Some(ts[i])
  {
    if |ts| == 0 then None
    else if ts[|ts| - 1].name == name then Some(ts[|ts| - 1])
    else
      var init := ts[..|ts| - 1];
      var r := LastWithName(init, name);
      assert Names(ts) == Names(init) + [ts[|ts| - 1].name];
      assert UniqueNames(ts) ==> UniqueNames(init) by {
        assert forall i :: 0 <= i < |init| ==> init[i] == ts[i];
      }
      r
  }

  /** The graph's nodes in insertion order: each table name once, at its first occurrence. */
  function Keys(ts: seq<Table>): (r: seq<string>)
    ensures Distinct(r)
    ensures forall x :: x in r <==> x in Names(ts)
  {
    Dedup(Names(ts))
  }

  /** The dependency set of a node: the referenced names of the table stored
      under it, each once, in column order; none for a name without a table. */
  function Deps(ts: seq<Table>, name: string): seq<string> {
    match LastWithName(ts, name)
    case None => []
    case Some(t) => Dedup(RefTargets(t.columns))
  }

  /** Every name the traversal can meet: table names and referenced names. */
  function Universe(ts: seq<Table>): (u: set<string>)
    ensures forall t :: t in ts ==> t.name in u
    ensures forall t, x :: t in ts && x in RefTargets(t.columns) ==> x in u
    ensures forall x :: x in u ==> x in Names(ts) || exists t :: t in ts && x in RefTargets(t.columns)
  {
    if |ts| == 0 then {}
    else
      var rest := Universe(ts[1..]);
      assert forall t :: t in ts <==> t == ts[0] || t in ts[1..];
      assert forall x :: x in Names(ts[1..]) ==> x in Names(ts) by {
        forall x | x in Names(ts[1..]) ensures x in Names(ts) {
          var j :| 0 <= j < |ts[1..]| && Names(ts[1..])[j] == x;
          assert Names(ts)[j + 1] == x;
        }
      }
      assert ts[0].name == Names(ts)[0];
      {ts[0].name} + (set x | x in RefTargets(ts[0].columns)) + rest
  }

  lemma DepsInUniverse(ts: seq<Table>, name: string)
    ensures forall d :: d in Deps(ts, name) ==> d in Universe(ts)
  {
  }

  // ---------------------------------------------------------------------------
  // The traversal
  // ---------------------------------------------------------------------------

  datatype SortError = CircularDependency(table: string)

  /** The traversal's shared state: the `visited` set and the `result` list
      (here the names whose tables are pushed, in push order). */
  datatype Dfs = Dfs(visited: set<string>, order: seq<string>)

  lemma FewerUnvisited(u: set<string>, path: set<string>, name: string)
    requires name in u && name !in path
    ensures |u - (path + {name})| < |u - path|
  {
    assert u - path == (u - (path + {name})) + {name};
  }

  /** `visit(name, path)`. */
  function Visit(ts: seq<Table>, name: string, path: set<string>, st: Dfs): Result<Dfs, SortError>
    requires name in Universe(ts) && path <= Universe(ts)
    decreases |Universe(ts) - path|, 0
  {
    if name in st.visited then Ok(st)
    else if name in path then Err(CircularDependency(name))
    else
      FewerUnvisited(Universe(ts), path, name);
      DepsInUniverse(ts, name);
      match VisitAll(ts, Deps(ts, name), path + {name}, st)
      case Err(e) => Err(e)
      case Ok(st') => Ok(Dfs(st'.visited + {name}, st'.order + [name]))
  }

  /** The loop over a node's dependencies, sharing one path. */
  function VisitAll(ts: seq<Table>, deps: seq<string>, path: set<string>, st: Dfs): Result<Dfs, SortError>
    requires forall d :: d in deps ==> d in Universe(ts)
    requires path <= Universe(ts)
    decreases |Universe(ts) - path|, |deps|
  {
    if |deps| == 0 then Ok(st)
    else
      match Visit(ts, deps[0], path, st)
      case Err(e) => Err(e)
      case Ok(st') => VisitAll(ts, deps[1..], path, st')
  }

  /** The outer loop over the graph's keys, each visit with a fresh path. */
  function VisitKeys(ts: seq<Table>, keys: seq<string>, st: Dfs): Result<Dfs, SortError>
    requires forall k :: k in keys ==> k in Universe(ts)
  {
    if |keys| == 0 then Ok(st)
    else
      match Visit(ts, keys[0], {}, st)
      case Err(e) => Err(e)
      case Ok(st') => VisitKeys(ts, keys[1..], st')
  }

  /** The names in the order their tables are pushed. */
  function SortNames(ts: seq<Table>): Result<seq<string>, SortError> {
    match VisitKeys(ts, Keys(ts), Dfs({}, []))
    case Err(e) => Err(e)
    case Ok(st) => Ok(st.order)
  }

  /** `sortTablesByDependency`: each pushed name's table as the name-keyed map
      holds it, `None` standing for the `undefined` pushed for a name no input
      table carries. */
  function SortTablesByDependency(ts: seq<Table>): (r: Result<seq<Option<Table>>, SortError>)
    ensures r.Ok? <==> SortNames(ts).Ok?
    ensures r.Ok? ==> |r.value| == |SortNames(ts).value|
    ensures r.Ok? ==> forall i :: 0 <= i < |r.value| ==> r.value[i] == LastWithName(ts, SortNames(ts).value[i])
    ensures r.Ok? ==> forall i :: 0 <= i < |r.value| && r.value[i].Some? ==> r.value[i].value in ts
    ensures r.Ok? ==> forall i :: 0 <= i < |r.value| ==>
      (r.value[i].None? <==> SortNames(ts).value[i] !in Names(ts))
    ensures r.Ok? && UniqueNames(ts) ==> forall i, j :: 0 <= i < |r.value| && 0 <= j < |ts| ==>
      (r.value[i] == Some(ts[j]) <==> SortNames(ts).value[i] == ts[j].name)
  {
    match SortNames(ts)
    case Err(e) => Err(e)
    case Ok(order) => Ok(seq(|order|, i requires 0 <= i < |order| => LastWithName(ts, order[i])))
  }
}
