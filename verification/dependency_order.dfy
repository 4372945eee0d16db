/** What the dependency sort guarantees: the traversal's invariant, the
    topological order of its output, the permutation property, the cycle
    characterisation, and the behaviour on already-ordered input and on
    dangling references. */
module DependencyOrder {
  import opened Wrappers
  import opened Seqs
  import opened SchemaTypes
  import opened DependencySort

  // ---------------------------------------------------------------------------
  // The traversal invariant
  // ---------------------------------------------------------------------------

  /** The visited set is the set of pushed names, no name is pushed twice, and
      every pushed name's dependencies were pushed before it. */
  ghost predicate Good(ts: seq<Table>, st: Dfs) {
    && (forall x :: x in st.order <==> x in st.visited)
    && Distinct(st.order)
    && st.visited <= Universe(ts)
    && (forall i, d :: 0 <= i < |st.order| && d in Deps(ts, st.order[i]) ==> d in st.order[..i])
  }

  /** `after` extends `before`: what was visited stays visited and what was
      pushed stays in place; nothing on `path` gets newly visited. */
  ghost predicate Extends(before: Dfs, after: Dfs, path: set<string>) {
    && before.visited <= after.visited
    && |before.order| <= |after.order|
    && after.order[..|before.order|] == before.order
    && (forall p :: p in path && p in after.visited ==> p in before.visited)
  }

  lemma ExtendsTrans(a: Dfs, b: Dfs, c: Dfs, path: set<string>)
    requires Extends(a, b, path) && Extends(b, c, path)
    ensures Extends(a, c, path)
  {
    assert c.order[..|a.order|] == c.order[..|b.order|][..|a.order|];
  }

  lemma PushKeepsGood(ts: seq<Table>, st: Dfs, name: string)
    requires Good(ts, st) && name in Universe(ts) && name !in st.visited
    requires forall d :: d in Deps(ts, name) ==> d in st.visited
    ensures Good(ts, Dfs(st.visited + {name}, st.order + [name]))
  {
    var order := st.order + [name];
    forall i, d | 0 <= i < |order| && d in Deps(ts, order[i])
      ensures d in order[..i]
    {
      if i < |st.order| {
        assert order[i] == st.order[i] && order[..i] == st.order[..i];
      } else {
        assert order[i] == name && order[..i] == st.order;
      }
    }
    assert Distinct(order) by {
      forall i, j | 0 <= i < j < |order| ensures order[i] != order[j] {
        if j == |st.order| {
          assert order[i] == st.order[i];
        }
      }
    }
  }

  lemma {:induction false} VisitOk(ts: seq<Table>, name: string, path: set<string>, st: Dfs)
    requires name in Universe(ts) && path <= Universe(ts) && Good(ts, st)
    requires Visit(ts, name, path, st).Ok?
    ensures var st' := Visit(ts, name, path, st).value;
      Good(ts, st') && name in st'.visited && Extends(st, st', path)
    decreases |Universe(ts) - path|, 0
  {
    if name !in st.visited {
      FewerUnvisited(Universe(ts), path, name);
      DepsInUniverse(ts, name);
      var deps := Deps(ts, name);
      var st1 := VisitAll(ts, deps, path + {name}, st).value;
      VisitAllOk(ts, deps, path + {name}, st);
      PushKeepsGood(ts, st1, name);
      var st' := Dfs(st1.visited + {name}, st1.order + [name]);
      assert st'.order[..|st1.order|] == st1.order;
      ExtendsTrans(st, st1, st', path);
    }
  }

  lemma {:induction false} VisitAllOk(ts: seq<Table>, deps: seq<string>, path: set<string>, st: Dfs)
    requires (forall d :: d in deps ==> d in Universe(ts)) && path <= Universe(ts) && Good(ts, st)
    requires VisitAll(ts, deps, path, st).Ok?
    ensures var st' := VisitAll(ts, deps, path, st).value;
      Good(ts, st') && (forall d :: d in deps ==> d in st'.visited) && Extends(st, st', path)
    decreases |Universe(ts) - path|, |deps|
  {
    if |deps| > 0 {
      var st1 := Visit(ts, deps[0], path, st).value;
      VisitOk(ts, deps[0], path, st);
      VisitAllOk(ts, deps[1..], path, st1);
      var st2 := VisitAll(ts, deps[1..], path, st1).value;
      ExtendsTrans(st, st1, st2, path);
      assert forall d :: d in deps ==> d == deps[0] || d in deps[1..];
    } else {
      assert st.order[..|st.order|] == st.order;
    }
  }

  lemma {:induction false} VisitKeysOk(ts: seq<Table>, keys: seq<string>, st: Dfs)
    requires (forall k :: k in keys ==> k in Universe(ts)) && Good(ts, st)
    requires VisitKeys(ts, keys, st).Ok?
    ensures var st' := VisitKeys(ts, keys, st).value;
      Good(ts, st') && (forall k :: k in keys ==> k in st'.visited) && st.visited <= st'.visited
  {
    if |keys| > 0 {
      var st1 := Visit(ts, keys[0], {}, st).value;
      VisitOk(ts, keys[0], {}, st);
      VisitKeysOk(ts, keys[1..], st1);
      assert forall k :: k in keys ==> k == keys[0] || k in keys[1..];
    }
  }

  /** A successful sort pushes every table name once, pushes nothing outside
      the names and referenced names, and pushes every dependency of a name
      before the name. */
  lemma SortNamesOk(ts: seq<Table>)
    requires SortNames(ts).Ok?
    ensures var order := SortNames(ts).value;
      && Distinct(order)
      && (forall x :: x in Names(ts) ==> x in order)
      && (forall x :: x in order ==> x in Universe(ts))
      && (forall i, d :: 0 <= i < |order| && d in Deps(ts, order[i]) ==> d in order[..i])
  {
    VisitKeysOk(ts, Keys(ts), Dfs({}, []));
  }
}

module DependencyTheorems {
  import opened Wrappers
  import opened Seqs
  import opened SchemaTypes
  import opened DependencySort
  import opened DependencyOrder

  /** Every reference targets a table of the input. */
  ghost predicate Closed(ts: seq<Table>) {
    forall t, x :: t in ts && References(t, x) ==> x in Names(ts)
  }

  /** Tables `c[0], c[1], …` each referencing the next, the last referencing
      the first; a single self-referencing table is a cycle of length one. */
  ghost predicate ReferenceCycle(ts: seq<Table>, c: seq<Table>) {
    && |c| >= 1
    && (forall k :: 0 <= k < |c| ==> c[k] in ts)
    && (forall k :: 0 <= k < |c| ==> LinksToNext(c, k))
  }

  /** The `k`-th table of `c` references the next one, cyclically. */
  ghost predicate LinksToNext(c: seq<Table>, k: nat)
    requires k < |c|
  {
    References(c[k], c[(k + 1) % |c|].name)
  }

  /** Each table references only tables listed before it. */
  ghost predicate DependencyOrdered(ts: seq<Table>) {
    forall i, x :: 0 <= i < |ts| && References(ts[i], x) ==> x in Names(ts[..i])
  }

  function Present(ts: seq<Table>): (r: seq<Option<Table>>)
    ensures |r| == |ts|
    ensures forall i :: 0 <= i < |ts| ==> r[i] == Some(ts[i])
  {
    seq(|ts|, i requires 0 <= i < |ts| => Some(ts[i]))
  }

  /** With unique names, a reference of a table is an edge of the graph. */
  lemma ReferenceIsEdge(ts: seq<Table>, t: Table, x: string)
    requires UniqueNames(ts) && t in ts && References(t, x)
    ensures x in Deps(ts, t.name)
  {
    var i :| 0 <= i < |ts| && ts[i] == t;
    assert LastWithName(ts, t.name) == Some(t);
  }

  /** An edge of the graph leaves a table that references its target. */
  lemma EdgeIsReference(ts: seq<Table>, name: string, x: string)
    requires x in Deps(ts, name)
    ensures LastWithName(ts, name).Some? && References(LastWithName(ts, name).value, x)
  {
  }

  // ---------------------------------------------------------------------------
  // Order and permutation
  // ---------------------------------------------------------------------------

  /** A referenced table is emitted before every table that references it. */
  lemma SortPlacesReferencedFirst(ts: seq<Table>)
    requires UniqueNames(ts) && SortTablesByDependency(ts).Ok?
    ensures var r := SortTablesByDependency(ts).value;
      forall i, j, a: Table, b: Table ::
        (0 <= i < |r| && 0 <= j < |r| && r[i] == Some(b) && r[j] == Some(a) && References(a, b.name)) ==> i < j
  {
    var r := SortTablesByDependency(ts).value;
    var order := SortNames(ts).value;
    SortNamesOk(ts);
    forall i, j, a: Table, b: Table | 0 <= i < |r| && 0 <= j < |r| && r[i] == Some(b) && r[j] == Some(a)
        && References(a, b.name)
      ensures i < j
    {
      ReferenceIsEdge(ts, a, b.name);
      assert b.name in order[..j];
      var k :| 0 <= k < j && order[k] == b.name;
      assert order[i] == b.name;
    }
  }

  lemma ClosedOrderWithinNames(ts: seq<Table>)
    requires Closed(ts) && SortNames(ts).Ok?
    ensures forall x :: x in SortNames(ts).value ==> x in Names(ts)
  {
    SortNamesOk(ts);
    forall x | x in SortNames(ts).value
      ensures x in Names(ts)
    {
      if x !in Names(ts) {
        var t :| t in ts && x in RefTargets(t.columns);
        assert References(t, x);
      }
    }
  }

  lemma PresentDistinct(ts: seq<Table>)
    requires UniqueNames(ts)
    ensures Distinct(Present(ts))
  {
    forall i, j | 0 <= i < j < |ts|
      ensures Present(ts)[i] != Present(ts)[j]
    {
      assert ts[i].name != ts[j].name;
    }
  }

  lemma SortedDistinct(ts: seq<Table>)
    requires SortTablesByDependency(ts).Ok? && None !in SortTablesByDependency(ts).value
    ensures Distinct(SortTablesByDependency(ts).value)
  {
    var r := SortTablesByDependency(ts).value;
    var order := SortNames(ts).value;
    SortNamesOk(ts);
    forall i, j | 0 <= i < j < |r|
      ensures r[i] != r[j]
    {
      assert r[i] in r;
      SortedEntriesDiffer(ts, order[i], order[j]);
    }
  }

  /** Two different names never share a table entry; only `undefined` repeats. */
  lemma SortedEntriesDiffer(ts: seq<Table>, x: string, y: string)
    requires x != y
    ensures LastWithName(ts, x).Some? ==> LastWithName(ts, x) != LastWithName(ts, y)
  {
  }

  /** With unique names and closed references, the output holds every input
      table exactly once and no `undefined` entry. */
  lemma SortIsPermutation(ts: seq<Table>)
    requires UniqueNames(ts) && Closed(ts) && SortTablesByDependency(ts).Ok?
    ensures multiset(SortTablesByDependency(ts).value) == multiset(Present(ts))
    ensures None !in SortTablesByDependency(ts).value
  {
    var r := SortTablesByDependency(ts).value;
    var order := SortNames(ts).value;
    SortNamesOk(ts);
    ClosedOrderWithinNames(ts);
    forall o
      ensures o in r <==> o in Present(ts)
    {
      if o in r {
        var i :| 0 <= i < |r| && r[i] == o;
        assert order[i] in Names(ts);
        var j :| 0 <= j < |ts| && ts[j] == o.value;
        assert Present(ts)[j] == o;
      }
      if o in Present(ts) {
        var j :| 0 <= j < |ts| && Present(ts)[j] == o;
        assert Names(ts)[j] == ts[j].name;
        var i :| 0 <= i < |order| && order[i] == ts[j].name;
        assert r[i] == o;
      }
    }
    forall i | 0 <= i < |r|
      ensures r[i] != None
    {
      assert order[i] in Names(ts);
    }
    SortedDistinct(ts);
    PresentDistinct(ts);
    DistinctSameElementsPermutation(r, Present(ts));
  }

  /** A reference to a name no input table carries makes the sort emit an
      `undefined` entry. */
  lemma DanglingReferenceYieldsUndefined(ts: seq<Table>, t: Table, x: string)
    requires UniqueNames(ts) && t in ts && References(t, x) && x !in Names(ts)
    requires SortTablesByDependency(ts).Ok?
    ensures None in SortTablesByDependency(ts).value
  {
    var order := SortNames(ts).value;
    SortNamesOk(ts);
    ReferenceIsEdge(ts, t, x);
    var j :| 0 <= j < |order| && order[j] == t.name;
    assert x in order[..j];
    var i :| 0 <= i < j && order[i] == x;
    assert SortTablesByDependency(ts).value[i] == None;
  }

  // ---------------------------------------------------------------------------
  // Already ordered input
  // ---------------------------------------------------------------------------

  lemma {:induction false} VisitAllSeen(ts: seq<Table>, deps: seq<string>, path: set<string>, st: Dfs)
    requires (forall d :: d in deps ==> d in Universe(ts)) && path <= Universe(ts)
    requires forall d :: d in deps ==> d in st.visited
    ensures VisitAll(ts, deps, path, st) == Ok(st)
    decreases |deps|
  {
    if |deps| > 0 {
      VisitAllSeen(ts, deps[1..], path, st);
    }
  }

  /** The traversal state after the first `i` tables of ordered input. */
  function PrefixState(ts: seq<Table>, i: nat): Dfs
    requires i <= |ts|
  {
    Dfs(Elements(Names(ts)[..i]), Names(ts)[..i])
  }

  lemma DepsOfOrderedSeen(ts: seq<Table>, i: nat)
    requires UniqueNames(ts) && DependencyOrdered(ts) && i < |ts|
    ensures forall d :: d in Deps(ts, ts[i].name) ==> d in PrefixState(ts, i).visited
  {
    assert LastWithName(ts, ts[i].name) == Some(ts[i]);
    forall d | d in Deps(ts, ts[i].name)
      ensures d in Names(ts)[..i]
    {
      assert References(ts[i], d);
      assert d in Names(ts[..i]);
      var j :| 0 <= j < i && Names(ts[..i])[j] == d;
      assert Names(ts)[j] == d;
    }
  }

  lemma NextNotVisited(ts: seq<Table>, i: nat)
    requires UniqueNames(ts) && i < |ts|
    ensures ts[i].name !in PrefixState(ts, i).visited
  {
    forall j | 0 <= j < i
      ensures Names(ts)[..i][j] != ts[i].name
    {
      assert Names(ts)[..i][j] == ts[j].name;
    }
  }

  /** Visiting a fresh name whose dependencies are all visited pushes just that name. */
  lemma VisitFresh(ts: seq<Table>, n: string, path: set<string>, st: Dfs)
    requires n in Universe(ts) && path <= Universe(ts)
    requires n !in st.visited && n !in path
    requires forall d :: d in Deps(ts, n) ==> d in st.visited
    ensures Visit(ts, n, path, st) == Ok(Dfs(st.visited + {n}, st.order + [n]))
  {
    DepsInUniverse(ts, n);
    VisitAllSeen(ts, Deps(ts, n), path + {n}, st);
  }

  lemma PrefixStateStep(ts: seq<Table>, i: nat)
    requires i < |ts|
    ensures PrefixState(ts, i + 1)
      == Dfs(PrefixState(ts, i).visited + {ts[i].name}, PrefixState(ts, i).order + [ts[i].name])
  {
    assert Names(ts)[..i + 1] == Names(ts)[..i] + [ts[i].name];
  }

  lemma VisitNextInOrder(ts: seq<Table>, i: nat)
    requires UniqueNames(ts) && DependencyOrdered(ts) && i < |ts|
    ensures ts[i].name in Universe(ts)
    ensures Visit(ts, ts[i].name, {}, PrefixState(ts, i)) == Ok(PrefixState(ts, i + 1))
  {
    NextNotVisited(ts, i);
    DepsOfOrderedSeen(ts, i);
    VisitFresh(ts, ts[i].name, {}, PrefixState(ts, i));
    PrefixStateStep(ts, i);
  }

  lemma {:induction false} VisitKeysInOrder(ts: seq<Table>, i: nat)
    requires UniqueNames(ts) && DependencyOrdered(ts) && i <= |ts|
    ensures VisitKeys(ts, Names(ts)[i..], PrefixState(ts, i)) == Ok(PrefixState(ts, |ts|))
    decreases |ts| - i
  {
    if i < |ts| {
      VisitNextInOrder(ts, i);
      assert Names(ts)[i..][1..] == Names(ts)[i + 1..];
      VisitKeysInOrder(ts, i + 1);
    }
  }

  /** Input in which every table references only earlier tables comes out unchanged. */
  lemma SortKeepsOrderedInput(ts: seq<Table>)
    requires UniqueNames(ts) && DependencyOrdered(ts)
    ensures SortTablesByDependency(ts) == Ok(Present(ts))
  {
    var names := Names(ts);
    assert Distinct(names);
    DedupOfDistinct(names);
    assert names[..0] == [] && names[0..] == names;
    assert PrefixState(ts, 0) == Dfs({}, []);
    assert names[..|ts|] == names;
    VisitKeysInOrder(ts, 0);
    var r := SortTablesByDependency(ts).value;
    assert r == Present(ts) by {
      forall i | 0 <= i < |ts|
        ensures r[i] == Some(ts[i])
      {
        assert LastWithName(ts, names[i]) == Some(ts[i]);
      }
    }
  }

  // ---------------------------------------------------------------------------
  // Cycles
  // ---------------------------------------------------------------------------

  /** An edge leads to a name pushed earlier. */
  lemma EdgeGoesEarlier(ts: seq<Table>, a: Table, b: Table)
    requires UniqueNames(ts) && SortNames(ts).Ok?
    requires a in ts && b in ts && References(a, b.name)
    ensures a.name in SortNames(ts).value && b.name in SortNames(ts).value
    ensures IndexOf(SortNames(ts).value, b.name) < IndexOf(SortNames(ts).value, a.name)
  {
    var order := SortNames(ts).value;
    SortNamesOk(ts);
    ReferenceIsEdge(ts, a, b.name);
    var i := IndexOf(order, a.name);
    assert b.name in order[..i];
    var j :| 0 <= j < i && order[..i][j] == b.name;
    assert order[j] == b.name;
  }

  /** The pushed positions of the tables of `c`. */
  function Positions(order: seq<string>, c: seq<Table>): (ps: seq<int>)
    requires forall k :: 0 <= k < |c| ==> c[k].name in order
    ensures |ps| == |c|
    ensures forall k :: 0 <= k < |c| ==> ps[k] == IndexOf(order, c[k].name)
  {
    seq(|c|, k requires 0 <= k < |c| => IndexOf(order, c[k].name))
  }

  /** With unique names, a successful sort rules out every reference cycle:
      the cycle's table pushed first would reference a table pushed before it. */
  lemma CycleMeansError(ts: seq<Table>, c: seq<Table>)
    requires UniqueNames(ts)
    ensures ReferenceCycle(ts, c) ==> SortTablesByDependency(ts).Err?
  {
    if SortTablesByDependency(ts).Ok? && |c| >= 1 && forall k :: 0 <= k < |c| ==> c[k] in ts {
      var order := SortNames(ts).value;
      SortNamesOk(ts);
      forall k | 0 <= k < |c|
        ensures c[k].name in order
      {
        assert c[k].name in Names(ts);
      }
      var ps := Positions(order, c);
      forall k | 0 <= k < |c| && LinksToNext(c, k)
        ensures ps[(k + 1) % |c|] < ps[k]
      {
        EdgeGoesEarlier(ts, c[k], c[(k + 1) % |c|]);
      }
      var m := ArgMin(ps);
      assert !LinksToNext(c, m);
    }
  }

  /** A path along graph edges: each name is a dependency of the one before. */
  ghost predicate Walk(ts: seq<Table>, w: seq<string>) {
    |w| >= 2 && forall k :: 0 <= k < |w| - 1 ==> StepsTo(ts, w, k)
  }

  ghost predicate StepsTo(ts: seq<Table>, w: seq<string>, k: nat)
    requires k + 1 < |w|
  {
    w[k + 1] in Deps(ts, w[k])
  }

  /** A walk of at least one edge leads from `p` to `q`. */
  ghost predicate Reaches(ts: seq<Table>, p: string, q: string) {
    exists w :: Walk(ts, w) && w[0] == p && w[|w| - 1] == q
  }

  lemma ReachesByEdge(ts: seq<Table>, p: string, q: string, d: string)
    requires (p == q || Reaches(ts, p, q)) && d in Deps(ts, q)
    ensures Reaches(ts, p, d)
  {
    if p == q {
      SingleEdgeWalk(ts, p, d);
    } else {
      var w :| Walk(ts, w) && w[0] == p && w[|w| - 1] == q;
      WalkSnoc(ts, w, d);
      assert (w + [d])[0] == p && (w + [d])[|w + [d]| - 1] == d;
    }
  }

  lemma SingleEdgeWalk(ts: seq<Table>, p: string, d: string)
    requires d in Deps(ts, p)
    ensures Walk(ts, [p, d])
  {
    assert StepsTo(ts, [p, d], 0);
  }

  lemma WalkSnoc(ts: seq<Table>, w: seq<string>, d: string)
    requires Walk(ts, w) && d in Deps(ts, w[|w| - 1])
    ensures Walk(ts, w + [d])
  {
    forall k | 0 <= k < |w|
      ensures StepsTo(ts, w + [d], k)
    {
      if k < |w| - 1 {
        assert StepsTo(ts, w, k);
        SameStep(ts, w, w + [d], k);
      } else {
        LastStep(ts, w, d);
      }
    }
  }

  lemma SameStep(ts: seq<Table>, w: seq<string>, v: seq<string>, k: nat)
    requires k + 1 < |w| && k + 1 < |v| && w[k] == v[k] && w[k + 1] == v[k + 1]
    requires StepsTo(ts, w, k)
    ensures StepsTo(ts, v, k)
  {
  }

  lemma LastStep(ts: seq<Table>, w: seq<string>, d: string)
    requires |w| > 0 && d in Deps(ts, w[|w| - 1])
    ensures StepsTo(ts, w + [d], |w| - 1)
  {
    assert (w + [d])[|w| - 1] == w[|w| - 1] && (w + [d])[|w|] == d;
  }

  lemma WalkEdge(ts: seq<Table>, w: seq<string>, k: nat)
    requires Walk(ts, w) && k < |w| - 1
    ensures LastWithName(ts, w[k]).Some?
    ensures References(LastWithName(ts, w[k]).value, w[k + 1])
  {
    assert StepsTo(ts, w, k);
    EdgeIsReference(ts, w[k], w[k + 1]);
  }

  /** The tables stored under the names of a walk, its last name left out. */
  function WalkTables(ts: seq<Table>, w: seq<string>): (c: seq<Table>)
    requires |w| >= 1
    requires forall k :: 0 <= k < |w| - 1 ==> LastWithName(ts, w[k]).Some?
    ensures |c| == |w| - 1
    ensures forall k :: 0 <= k < |c| ==> c[k] in ts && c[k].name == w[k]
    ensures forall k :: 0 <= k < |c| ==> c[k] == LastWithName(ts, w[k]).value
  {
    seq(|w| - 1, k requires 0 <= k < |w| - 1 => LastWithName(ts, w[k]).value)
  }

  /** A closed walk yields a reference cycle through its tables. */
  lemma CycleFromWalk(ts: seq<Table>, w: seq<string>)
    requires Walk(ts, w) && w[0] == w[|w| - 1]
    ensures exists c: seq<Table> :: ReferenceCycle(ts, c) && c[0].name == w[0]
  {
    forall k | 0 <= k < |w| - 1
      ensures LastWithName(ts, w[k]).Some?
    {
      WalkEdge(ts, w, k);
    }
    var c := WalkTables(ts, w);
    forall k | 0 <= k < |c|
      ensures LinksToNext(c, k)
    {
      WalkLink(ts, w, c, k);
    }
    assert ReferenceCycle(ts, c);
  }

  lemma WalkLink(ts: seq<Table>, w: seq<string>, c: seq<Table>, k: nat)
    requires Walk(ts, w) && w[0] == w[|w| - 1] && k < |w| - 1
    requires |c| == |w| - 1
    requires forall j :: 0 <= j < |c| ==> c[j].name == w[j] && LastWithName(ts, w[j]) == Some(c[j])
    ensures LinksToNext(c, k)
  {
    var next := NextIndex(k, |c|);
    assert c[next].name == w[k + 1];
    assert LastWithName(ts, w[k]) == Some(c[k]);
    WalkEdge(ts, w, k);
  }

  lemma {:induction false} VisitErr(ts: seq<Table>, name: string, path: set<string>, st: Dfs)
    requires name in Universe(ts) && path <= Universe(ts)
    requires forall p :: p in path ==> Reaches(ts, p, name)
    requires Visit(ts, name, path, st).Err?
    ensures exists c: seq<Table> :: ReferenceCycle(ts, c) && c[0].name == Visit(ts, name, path, st).error.table
    decreases |Universe(ts) - path|, 0
  {
    if name !in st.visited {
      if name in path {
        var w :| Walk(ts, w) && w[0] == name && w[|w| - 1] == name;
        CycleFromWalk(ts, w);
      } else {
        FewerUnvisited(Universe(ts), path, name);
        DepsInUniverse(ts, name);
        var deps := Deps(ts, name);
        forall p, d | p in path + {name} && d in deps
          ensures Reaches(ts, p, d)
        {
          ReachesByEdge(ts, p, name, d);
        }
        VisitAllErr(ts, deps, path + {name}, st);
      }
    }
  }

  lemma {:induction false} VisitAllErr(ts: seq<Table>, deps: seq<string>, path: set<string>, st: Dfs)
    requires (forall d :: d in deps ==> d in Universe(ts)) && path <= Universe(ts)
    requires forall p, d :: p in path && d in deps ==> Reaches(ts, p, d)
    requires VisitAll(ts, deps, path, st).Err?
    ensures exists c: seq<Table> :: ReferenceCycle(ts, c) && c[0].name == VisitAll(ts, deps, path, st).error.table
    decreases |Universe(ts) - path|, |deps|
  {
    if |deps| > 0 {
      if Visit(ts, deps[0], path, st).Err? {
        VisitErr(ts, deps[0], path, st);
      } else {
        VisitAllErr(ts, deps[1..], path, Visit(ts, deps[0], path, st).value);
      }
    }
  }

  lemma {:induction false} VisitKeysErr(ts: seq<Table>, keys: seq<string>, st: Dfs)
    requires forall k :: k in keys ==> k in Universe(ts)
    requires VisitKeys(ts, keys, st).Err?
    ensures exists c: seq<Table> :: ReferenceCycle(ts, c) && c[0].name == VisitKeys(ts, keys, st).error.table
  {
    if |keys| > 0 {
      if Visit(ts, keys[0], {}, st).Err? {
        VisitErr(ts, keys[0], {}, st);
      } else {
        VisitKeysErr(ts, keys[1..], Visit(ts, keys[0], {}, st).value);
      }
    }
  }

  /** A circular-dependency error names a table on a reference cycle; no
      uniqueness of names is needed for this direction. */
  lemma ErrorMeansCycle(ts: seq<Table>)
    requires SortTablesByDependency(ts).Err?
    ensures exists c: seq<Table> :: ReferenceCycle(ts, c) && c[0].name == SortTablesByDependency(ts).error.table
  {
    VisitKeysErr(ts, Keys(ts), Dfs({}, []));
  }

  /** With unique table names the sort fails exactly when the references contain a cycle. */
  lemma ErrorIffCycle(ts: seq<Table>)
    requires UniqueNames(ts)
    ensures SortTablesByDependency(ts).Err? <==> exists c :: ReferenceCycle(ts, c)
  {
    if SortTablesByDependency(ts).Err? {
      ErrorMeansCycle(ts);
    }
    forall c | ReferenceCycle(ts, c)
      ensures SortTablesByDependency(ts).Err?
    {
      CycleMeansError(ts, c);
    }
  }
}
