/** `QueryBuilder`: a fluent SELECT builder whose `build` assembles the SQL text
    and the positional parameter list. */
module QueryBuilder {
  import opened Wrappers
  import opened Seqs
  import opened Strings
  import opened JsValues

  datatype Operator = Eq | Ne | Lt | Le | Gt | Ge | Like | In

  function OperatorText(op: Operator): string {
    match op
    case Eq => "="
    case Ne => "!="
    case Lt => "<"
    case Le => "<="
    case Gt => ">"
    case Ge => ">="
    case Like => "LIKE"
    case In => "IN"
  }

  datatype Direction = Asc | Desc

  function DirectionText(d: Direction): string {
    match d
    case Asc => "ASC"
    case Desc => "DESC"
  }

  datatype Condition = Condition(column: string, op: Operator, value: JsValue)

  /** The builder's private fields; `limit` and `offset` are `None` while unset,
      and `orderBy` is the rendered clause, empty while unset. */
  datatype Builder = Builder(
    table: string,
    alias: Option<string>,
    fields: seq<string>,
    conditions: seq<Condition>,
    joins: seq<string>,
    limit: Option<int>,
    offset: Option<int>,
    orderBy: string)

  datatype Query = Query(sql: string, params: seq<JsValue>)

  /** `new QueryBuilder({ table, alias })`: every field is selected. */
  function New(table: string, alias: Option<string>): (b: Builder)
    ensures b.table == table && b.alias == alias
    ensures b.fields == ["*"]
    ensures b.conditions == [] && b.joins == []
    ensures b.limit.None? && b.offset.None? && b.orderBy == ""
  {
    Builder(table, alias, ["*"], [], [], None, None, "")
  }

  function Select(b: Builder, fields: seq<string>): (r: Builder)
    ensures r.fields == fields
    ensures r.(fields := b.fields) == b
  {
    b.(fields := fields)
  }

  function Where(b: Builder, column: string, op: Operator, value: JsValue): (r: Builder)
    ensures r.conditions == b.conditions + [Condition(column, op, value)]
    ensures r.(conditions := b.conditions) == b
  {
    b.(conditions := b.conditions + [Condition(column, op, value)])
  }

  function JoinOn(b: Builder, table: string, onCondition: string): (r: Builder)
    ensures r.joins == b.joins + ["JOIN " + table + " ON " + onCondition]
    ensures r.(joins := b.joins) == b
  {
    b.(joins := b.joins + ["JOIN " + table + " ON " + onCondition])
  }

  /** `orderBy(column, direction)`; an omitted direction is `ASC`. */
  function OrderBy(b: Builder, column: string, direction: Option<Direction>): (r: Builder)
    ensures r.orderBy == "ORDER BY " + column + " " + (if direction == Some(Desc) then "DESC" else "ASC")
    ensures r.(orderBy := b.orderBy) == b
  {
    var d := match direction case None => Asc case Some(d) => d;
    b.(orderBy := "ORDER BY " + column + " " + DirectionText(d))
  }

  function Limit(b: Builder, n: int): (r: Builder)
    ensures r.limit == Some(n)
    ensures r.(limit := b.limit) == b
  {
    b.(limit := Some(n))
  }

  function Offset(b: Builder, n: int): (r: Builder)
    ensures r.offset == Some(n)
    ensures r.(offset := b.offset) == b
  {
    b.(offset := Some(n))
  }

  // ---------------------------------------------------------------------------
  // Reference rendering, clause by clause
  // ---------------------------------------------------------------------------

  /** The `n`-th condition (counting from 1) with its positional placeholder. */
  function Placeholder(c: Condition, n: nat): string {
    c.column + " " + OperatorText(c.op) + " $" + NatToDecimal(n)
  }

  function Values(conds: seq<Condition>): (r: seq<JsValue>)
    ensures |r| == |conds|
    ensures forall i :: 0 <= i < |conds| ==> r[i] == conds[i].value
  {
    seq(|conds|, i requires 0 <= i < |conds| => conds[i].value)
  }

  /** The table reference: an alias renders only when it is a non-empty string. */
  function TableRef(b: Builder): (r: string)
    ensures (b.alias.Some? && b.alias.value != "") ==> r == b.table + " AS " + b.alias.value
    ensures !(b.alias.Some? && b.alias.value != "") ==> r == b.table
  {
    match b.alias
    case Some(a) => if a != "" then b.table + " AS " + a else b.table
    case None => b.table
  }

  /** Each condition with its placeholder, numbered from 1. */
  function Placeholders(conds: seq<Condition>): (r: seq<string>)
    ensures |r| == |conds|
    ensures forall i :: 0 <= i < |conds| ==> r[i] == Placeholder(conds[i], i + 1)
  {
    seq(|conds|, i requires 0 <= i < |conds| => Placeholder(conds[i], i + 1))
  }

  function WhereClause(b: Builder): string {
    if |b.conditions| == 0 then ""
    else " WHERE " + Join(Placeholders(b.conditions), " AND ")
  }

  function OptionalNumber(keyword: string, v: Option<int>): string {
    match v
    case None => ""
    case Some(n) => " " + keyword + " " + IntToString(n)
  }

  // ---------------------------------------------------------------------------
  // build
  // ---------------------------------------------------------------------------

  /** The `map` over the conditions as written: push the value, then number the
      placeholder by the parameter list's new length. */
  function RenderConditions(conds: seq<Condition>, params: seq<JsValue>): (seq<string>, seq<JsValue>)
    decreases |conds|
  {
    if |conds| == 0 then ([], params)
    else
      var params' := params + [conds[0].value];
      var rest := RenderConditions(conds[1..], params');
      ([Placeholder(conds[0], |params'|)] + rest.0, rest.1)
  }

  /** The `k`-th rendered condition carries placeholder `$(p + k + 1)` for a
      list that already held `p` parameters, and the values are appended in order. */
  lemma {:induction false} RenderConditionsNumbers(conds: seq<Condition>, params: seq<JsValue>)
    ensures RenderConditions(conds, params).1 == params + Values(conds)
    ensures |RenderConditions(conds, params).0| == |conds|
    ensures forall k :: 0 <= k < |conds| ==>
      RenderConditions(conds, params).0[k] == Placeholder(conds[k], |params| + k + 1)
    decreases |conds|
  {
    if |conds| > 0 {
      var params' := params + [conds[0].value];
      RenderConditionsNumbers(conds[1..], params');
      ValuesCons(conds);
      SeqAssoc(params, [conds[0].value], Values(conds[1..]));
      var r := RenderConditions(conds, params).0;
      forall k | 0 <= k < |conds|
        ensures r[k] == Placeholder(conds[k], |params| + k + 1)
      {
        if k > 0 {
          assert r[k] == RenderConditions(conds[1..], params').0[k - 1];
        }
      }
    } else {
      assert params + Values(conds) == params;
    }
  }

  lemma ValuesCons(conds: seq<Condition>)
    requires |conds| > 0
    ensures Values(conds) == [conds[0].value] + Values(conds[1..])
  {
    forall k | 0 <= k < |conds|
      ensures Values(conds)[k] == ([conds[0].value] + Values(conds[1..]))[k]
    {
      if k > 0 {
        assert conds[k] == conds[1..][k - 1];
      }
    }
  }

  /** The WHERE text as written equals the reference rendering. */
  lemma RenderedWhereClause(b: Builder)
    ensures |b.conditions| > 0 ==>
      WhereClause(b) == " WHERE " + Join(RenderConditions(b.conditions, []).0, " AND ")
  {
    RenderConditionsNumbers(b.conditions, []);
    assert RenderConditions(b.conditions, []).0 == Placeholders(b.conditions);
  }

  /** `build()`: appends the SELECT, JOIN, WHERE, ORDER BY, LIMIT and OFFSET
      parts in that order; LIMIT and OFFSET appear whenever set, zero included. */
  function Build(b: Builder): (q: Query)
    ensures q.params == Values(b.conditions)
    ensures q.sql ==
      "SELECT " + Join(b.fields, ", ") + " FROM " + TableRef(b)
      + (if |b.joins| > 0 then " " + Join(b.joins, " ") else "")
      + WhereClause(b)
      + (if b.orderBy != "" then " " + b.orderBy else "")
      + OptionalNumber("LIMIT", b.limit)
      + OptionalNumber("OFFSET", b.offset)
  {
    var joinPart := if |b.joins| > 0 then " " + Join(b.joins, " ") else "";
    var rendered := RenderConditions(b.conditions, []);
    RenderConditionsNumbers(b.conditions, []);
    RenderedWhereClause(b);
    var wherePart := if |b.conditions| > 0 then " WHERE " + Join(rendered.0, " AND ") else "";
    var orderPart := if b.orderBy != "" then " " + b.orderBy else "";
    var sql := "SELECT " + Join(b.fields, ", ") + " FROM " + TableRef(b) + joinPart + wherePart + orderPart
      + OptionalNumber("LIMIT", b.limit) + OptionalNumber("OFFSET", b.offset);
    Query(sql, rendered.1)
  }

  // ---------------------------------------------------------------------------
  // Laws
  // ---------------------------------------------------------------------------

  /** A fresh builder selects every column of the table and has no parameters. */
  lemma FreshBuild(table: string)
    ensures Build(New(table, None)) == Query("SELECT * FROM " + table, [])
  {
  }

  /** Each `where` adds exactly one parameter, its value, at the end. */
  lemma WhereAddsOneParameter(b: Builder, column: string, op: Operator, value: JsValue)
    ensures Build(Where(b, column, op, value)).params == Build(b).params + [value]
  {
    ValuesSnoc(b.conditions, Condition(column, op, value));
  }

  /** Each `where` adds one condition at the end of the WHERE text, numbered
      by the new parameter count. */
  lemma WhereAddsOneCondition(b: Builder, column: string, op: Operator, value: JsValue)
    ensures WhereClause(Where(b, column, op, value)) ==
      (if |b.conditions| == 0 then " WHERE " else WhereClause(b) + " AND ")
      + Placeholder(Condition(column, op, value), |b.conditions| + 1)
  {
    var c := Condition(column, op, value);
    var p := Placeholder(c, |b.conditions| + 1);
    assert Placeholders(b.conditions + [c]) == Placeholders(b.conditions) + [p] by {
      PlaceholdersSnoc(b.conditions, c);
    }
    if |b.conditions| > 0 {
      JoinAppend(Placeholders(b.conditions), p, " AND ");
    } else {
      assert Placeholders(b.conditions) + [p] == [p];
    }
  }

  lemma ValuesSnoc(conds: seq<Condition>, c: Condition)
    ensures Values(conds + [c]) == Values(conds) + [c.value]
  {
    assert forall i :: 0 <= i < |conds| ==> (conds + [c])[i] == conds[i];
  }

  lemma PlaceholdersSnoc(conds: seq<Condition>, c: Condition)
    ensures Placeholders(conds + [c]) == Placeholders(conds) + [Placeholder(c, |conds| + 1)]
  {
    assert forall i :: 0 <= i < |conds| ==> (conds + [c])[i] == conds[i];
  }

  /** Without conditions there is no WHERE text and no parameter; without
      joins there is no JOIN text. */
  lemma EmptyPartsRenderNothing(b: Builder)
    ensures |b.conditions| == 0 ==> WhereClause(b) == "" && Build(b).params == []
    ensures |b.joins| == 0 && |b.conditions| == 0 && b.orderBy == "" && b.limit.None? && b.offset.None? ==>
      Build(b).sql == "SELECT " + Join(b.fields, ", ") + " FROM " + TableRef(b)
  {
  }

  /** For `orderBy`, `limit`, `offset` and `select` the last call wins. */
  lemma LastCallWins(b: Builder, c1: string, d1: Option<Direction>, c2: string, d2: Option<Direction>,
                     x: int, y: int, f: seq<string>, g: seq<string>)
    ensures OrderBy(OrderBy(b, c1, d1), c2, d2) == OrderBy(b, c2, d2)
    ensures Limit(Limit(b, x), y) == Limit(b, y)
    ensures Offset(Offset(b, x), y) == Offset(b, y)
    ensures Select(Select(b, f), g) == Select(b, g)
  {
  }

  /** A limit of zero is still emitted. */
  lemma ZeroLimitIsEmitted(b: Builder)
    requires b.offset.None?
    ensures EndsWith(Build(Limit(b, 0)).sql, " LIMIT 0")
  {
    var b' := Limit(b, 0);
    var prefix := "SELECT " + Join(b'.fields, ", ") + " FROM " + TableRef(b')
      + (if |b'.joins| > 0 then " " + Join(b'.joins, " ") else "")
      + WhereClause(b')
      + (if b'.orderBy != "" then " " + b'.orderBy else "");
    assert Build(b').sql == prefix + " LIMIT 0" by {
      assert OptionalNumber("LIMIT", b'.limit) == " LIMIT 0" by {
        assert IntToString(0) == "0";
      }
      assert OptionalNumber("OFFSET", b'.offset) == "";
    }
    EndsWithConcat(prefix, " LIMIT 0");
  }
}
