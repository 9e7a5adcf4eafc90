/** The `Job` data-access class of models/job.js: the SQL text and parameter
    list each operation hands to `db.query`, and how it turns the rows that
    come back into a result or a NotFound error. `db.query` itself is the
    parameter `db`: the rows it returns for a query are an input here. */
module JobModel {
  import opened Outcomes
  import opened Sql
  import PartialUpdate

  /** A row as the job queries return it; the `company_handle` column comes
      back under the alias `companyHandle`. */
  datatype Job = Job(id: int, title: string, salary: Option<int>, equity: Option<string>, companyHandle: string)

  /** The properties `create` destructures from its argument; a missing
      property is `undefined` and is bound as NULL. */
  datatype NewJob = NewJob(title: SqlValue, salary: SqlValue, equity: SqlValue, company_handle: SqlValue)

  /** The optional `findAll` filters, after the route has coerced them;
      `None` is an absent property. */
  datatype SearchFilters = SearchFilters(title: Option<string>, minSalary: Option<int>, hasEquity: Option<bool>)

  /** `findAll()` called without an argument: `searchFilters = {}`. */
  const NoFilters := SearchFilters(None, None, None)

  function NotFoundFor(id: int): ExpressError {
    NotFound("No job: " + IntToString(id))
  }

  // ------------------------------------------------------------ fixed SQL

  /** The columns every job query returns, `company_handle` under an alias. */
  const JobColumnList := ["id", "title", "salary", "equity", "company_handle AS \"companyHandle\""]
  const JobColumns := Join(JobColumnList, ", ")
  const ReturningJob := " RETURNING " + JobColumns
  const SelectJobs := "SELECT " + JobColumns + " FROM jobs"

  /** The columns INSERT lists, in the order of its VALUES placeholders. */
  const InsertColumns := ["title", "salary", "equity", "company_handle"]
  const InsertHead := "INSERT INTO jobs ( " + Join(InsertColumns, ", ") + ") VALUES ("
  const InsertTail := ")" + ReturningJob
  const OrderByTitle := " ORDER BY title "

  lemma JobColumnsDollarFree()
    ensures '$' !in JobColumns
  {
    assert '$' !in JobColumnList[4];
    JoinDollarFree(JobColumnList, ", ");
  }

  lemma SelectJobsDollarFree()
    ensures '$' !in SelectJobs
  {
    JobColumnsDollarFree();
  }

  lemma ReturningJobDollarFree()
    ensures '$' !in ReturningJob
  {
    JobColumnsDollarFree();
  }

  lemma InsertHeadDollarFree()
    ensures '$' !in InsertHead
  {
    JoinDollarFree(InsertColumns, ", ");
  }

  // ---------------------------------------------------------------- create

  /** The property of the argument each inserted column is taken from. */
  function FieldFor(data: NewJob, column: string): SqlValue {
    match column
    case "title" => data.title
    case "salary" => data.salary
    case "equity" => data.equity
    case _ => data.company_handle
  }

  /** INSERT of the four columns from $1..$4, returning the new row. */
  const CreateSql := InsertHead + (Param(1) + (", " + (Param(2) + (", " + (Param(3) + (", " + (Param(4) + InsertTail)))))))

  lemma CreateSqlPlaceholders()
    ensures Placeholders(CreateSql) == Positions(1, 4)
  {
    var t4 := Param(4) + InsertTail;
    var t3 := Param(3) + (", " + t4);
    var t2 := Param(2) + (", " + t3);
    var t1 := Param(1) + (", " + t2);
    JobColumnsDollarFree();
    NoDollar(InsertTail);
    ParamToken(4, InsertTail);
    ParamThen(3, ", ", t4);
    ParamThen(2, ", ", t3);
    ParamThen(1, ", ", t2);
    InsertHeadDollarFree();
    SkipNoDollar(InsertHead, t1);
  }

  /** The INSERT statement: it lists `InsertColumns`, references $1..$4 in
      order, and the i-th column listed receives the i-th parameter, which is
      the argument's property of that name. */
  function CreateQuery(data: NewJob): (q: Query)
    ensures |InsertHead| <= |q.text| && q.text[..|InsertHead|] == InsertHead
    ensures WellNumbered(q)
    ensures |q.params| == |InsertColumns|
    ensures forall i :: 0 <= i < |InsertColumns| ==> q.params[i] == FieldFor(data, InsertColumns[i])
  {
    CreateSqlPlaceholders();
    Query(CreateSql, [data.title, data.salary, data.equity, data.company_handle])
  }

  /** `create` returns the first returned row, or `undefined` when there is none. */
  function Create(data: NewJob, db: Query -> seq<Job>): (r: Option<Job>)
    ensures r.Some? <==> db(CreateQuery(data)) != []
    ensures r.Some? ==> r.value == db(CreateQuery(data))[0]
  {
    var rows := db(CreateQuery(data));
    if rows == [] then None else Some(rows[0])
  }

  // --------------------------------------------------------------- findAll

  /** What `if (title)` tests: a present, non-empty title. */
  predicate TitleGiven(f: SearchFilters) {
    f.title.Some? && f.title.value != ""
  }

  /** What `if (minSalary)` tests: a present, non-zero number. */
  predicate MinSalaryGiven(f: SearchFilters) {
    f.minSalary.Some? && f.minSalary.value != 0
  }

  /** What `if (hasEquity)` tests: a present `true`. */
  predicate EquityWanted(f: SearchFilters) {
    f.hasEquity == Some(true)
  }

  /** A WHERE condition, apart from how it is written. */
  datatype Condition =
    | TitleLike(pattern: string)
    | SalaryAtLeast(min: int)
    | EquityPositive

  /** The title's condition, when it is truthy, added after `cs`. */
  function WithTitle(f: SearchFilters, cs: seq<Condition>): seq<Condition> {
    if TitleGiven(f) then cs + [TitleLike("%" + f.title.value + "%")] else cs
  }

  /** The minimum salary's condition, when it is truthy, added after `cs`. */
  function WithMinSalary(f: SearchFilters, cs: seq<Condition>): seq<Condition> {
    if MinSalaryGiven(f) then cs + [SalaryAtLeast(f.minSalary.value)] else cs
  }

  /** The equity condition, when `hasEquity` is true, added after `cs`. */
  function WithEquity(f: SearchFilters, cs: seq<Condition>): seq<Condition> {
    if EquityWanted(f) then cs + [EquityPositive] else cs
  }

  /** The conditions the filters ask for, in the order the code tests them. */
  function Conditions(f: SearchFilters): seq<Condition> {
    WithEquity(f, WithMinSalary(f, WithTitle(f, [])))
  }

  /** The values a condition binds. */
  function BoundBy(c: Condition): seq<SqlValue> {
    match c
    case TitleLike(pattern) => [Text(pattern)]
    case SalaryAtLeast(min) => [Int(min)]
    case EquityPositive => []
  }

  /** The values a list of conditions binds, in order. */
  function ConditionParams(cs: seq<Condition>): seq<SqlValue>
    decreases |cs|
  {
    if cs == [] then [] else BoundBy(cs[0]) + ConditionParams(cs[1..])
  }

  /** A condition's SQL when `bound` values are already bound: a condition
      with a value references the next parameter. */
  function Expression(c: Condition, bound: nat): string {
    match c
    case TitleLike(_) => "title ILIKE " + Param(bound + 1)
    case SalaryAtLeast(_) => "salary >= " + Param(bound + 1)
    case EquityPositive => "equity > 0"
  }

  /** The SQL of each condition, numbering parameters after the first `bound`. */
  function Render(cs: seq<Condition>, bound: nat): (r: seq<string>)
    ensures |r| == |cs|
    decreases |cs|
  {
    if cs == [] then [] else [Expression(cs[0], bound)] + Render(cs[1..], bound + |BoundBy(cs[0])|)
  }

  /** `" WHERE " + whereExpressions.join(" AND ")`, only when there is an expression. */
  function WhereClause(expressions: seq<string>): string {
    if expressions == [] then "" else " WHERE " + Join(expressions, " AND ")
  }

  /** The query `findAll` sends for the given filters. */
  function FindAllQuery(f: SearchFilters): Query {
    var cs := Conditions(f);
    Query(SelectJobs + WhereClause(Render(cs, 0)) + OrderByTitle, ConditionParams(cs))
  }

  lemma {:induction false} RenderSnoc(cs: seq<Condition>, c: Condition, bound: nat)
    ensures Render(cs + [c], bound) == Render(cs, bound) + [Expression(c, bound + |ConditionParams(cs)|)]
    decreases |cs|
  {
    if cs != [] {
      var next := bound + |BoundBy(cs[0])|;
      assert (cs + [c])[0] == cs[0] && (cs + [c])[1..] == cs[1..] + [c];
      assert Render(cs + [c], bound) == [Expression(cs[0], bound)] + Render(cs[1..] + [c], next);
      assert ConditionParams(cs) == BoundBy(cs[0]) + ConditionParams(cs[1..]);
      RenderSnoc(cs[1..], c, next);
    } else {
      assert cs + [c] == [c] && [c][1..] == [];
    }
  }

  lemma {:induction false} ParamsAppend(a: seq<Condition>, b: seq<Condition>)
    ensures ConditionParams(a + b) == ConditionParams(a) + ConditionParams(b)
    decreases |a|
  {
    if a != [] {
      assert (a + b)[0] == a[0] && (a + b)[1..] == a[1..] + b;
      ParamsAppend(a[1..], b);
    } else {
      assert a + b == b;
    }
  }

  /** Adding a condition at the end adds its expression, numbered after the
      values already bound, and its values. */
  lemma Push(cs: seq<Condition>, c: Condition)
    ensures Render(cs + [c], 0) == Render(cs, 0) + [Expression(c, |ConditionParams(cs)|)]
    ensures ConditionParams(cs + [c]) == ConditionParams(cs) + BoundBy(c)
  {
    RenderSnoc(cs, c, 0);
    ParamsAppend(cs, [c]);
    ParamsOne(c);
  }

  lemma ParamsOne(c: Condition)
    ensures ConditionParams([c]) == BoundBy(c)
  {
    assert [c][1..] == [];
  }

  /** `findAll`: pushes onto `queryValues` and `whereExpressions`, numbering
      each placeholder by the length of `queryValues` just after its push,
      then appends the WHERE and ORDER BY clauses; the rows of that query are
      the result. */
  method FindAll(searchFilters: SearchFilters, db: Query -> seq<Job>) returns (jobs: seq<Job>)
    ensures jobs == db(FindAllQuery(searchFilters))
  {
    var query := SelectJobs;
    var queryValues: seq<SqlValue> := [];
    var whereExpressions: seq<string> := [];
    ghost var cs: seq<Condition> := [];

    if TitleGiven(searchFilters) {
      var c := TitleLike("%" + searchFilters.title.value + "%");
      Push(cs, c);
      queryValues := queryValues + [Text("%" + searchFilters.title.value + "%")];
      whereExpressions := whereExpressions + ["title ILIKE " + Param(|queryValues|)];
      cs := cs + [c];
    }
    assert cs == WithTitle(searchFilters, []);
    assert whereExpressions == Render(cs, 0) && queryValues == ConditionParams(cs);
    ghost var before := cs;

    if MinSalaryGiven(searchFilters) {
      var c := SalaryAtLeast(searchFilters.minSalary.value);
      Push(cs, c);
      queryValues := queryValues + [Int(searchFilters.minSalary.value)];
      whereExpressions := whereExpressions + ["salary >= " + Param(|queryValues|)];
      cs := cs + [c];
    }
    assert cs == WithMinSalary(searchFilters, before);
    assert whereExpressions == Render(cs, 0) && queryValues == ConditionParams(cs);
    before := cs;

    if EquityWanted(searchFilters) {
      Push(cs, EquityPositive);
      whereExpressions := whereExpressions + ["equity > 0"];
      cs := cs + [EquityPositive];
    }
    assert cs == WithEquity(searchFilters, before);
    assert whereExpressions == Render(cs, 0) && queryValues == ConditionParams(cs);

    if |whereExpressions| > 0 {
      query := query + (" WHERE " + Join(whereExpressions, " AND "));
    } else {
      assert query == SelectJobs + "";
    }
    assert query == SelectJobs + WhereClause(whereExpressions);
    query := query + OrderByTitle;
    jobs := db(Query(query, queryValues));
  }

  /** A condition's SQL references the parameters it binds, numbered after
      the `bound` already bound. */
  lemma ExpressionPlaceholders(c: Condition, bound: nat, rest: string)
    requires StartsWithNonDigit(rest)
    ensures Placeholders(Expression(c, bound) + rest) == Positions(bound + 1, |BoundBy(c)|) + Placeholders(rest)
  {
    match c
    case TitleLike(_) =>
      LabelledParam("title ILIKE ", bound + 1, rest);
    case SalaryAtLeast(_) =>
      LabelledParam("salary >= ", bound + 1, rest);
    case EquityPositive =>
      SkipNoDollar("equity > 0", rest);
  }

  /** The first condition references its parameters, then come the rest's references. */
  lemma RenderStep(cs: seq<Condition>, bound: nat)
    requires cs != []
    ensures Placeholders(Join(Render(cs, bound), " AND "))
         == Positions(bound + 1, |BoundBy(cs[0])|)
          + Placeholders(Join(Render(cs[1..], bound + |BoundBy(cs[0])|), " AND "))
  {
    var c := cs[0];
    var tail := Render(cs[1..], bound + |BoundBy(c)|);
    assert Render(cs, bound) == [Expression(c, bound)] + tail;
    JoinCons(Expression(c, bound), tail, " AND ");
    if tail == [] {
      ExpressionPlaceholders(c, bound, "");
      assert Expression(c, bound) + "" == Expression(c, bound);
    } else {
      ExpressionPlaceholders(c, bound, " AND " + Join(tail, " AND "));
      SkipNoDollar(" AND ", Join(tail, " AND "));
    }
  }

  /** The joined conditions reference `$bound+1`, `$bound+2`, ... in order,
      one per bound value. */
  lemma {:induction false} RenderPlaceholders(cs: seq<Condition>, bound: nat)
    ensures Placeholders(Join(Render(cs, bound), " AND ")) == Positions(bound + 1, |ConditionParams(cs)|)
    decreases |cs|
  {
    if cs != [] {
      var k := |BoundBy(cs[0])|;
      RenderStep(cs, bound);
      RenderPlaceholders(cs[1..], bound + k);
      assert ConditionParams(cs) == BoundBy(cs[0]) + ConditionParams(cs[1..]);
      PositionsAppend(bound + 1, k, |ConditionParams(cs[1..])|);
    }
  }

  /** A WHERE clause spliced between fixed text without `$` references what
      its joined expressions reference. */
  lemma WhereFramed(head: string, exprs: seq<string>, tail: string)
    requires '$' !in head && '$' !in tail && StartsWithNonDigit(tail)
    ensures Placeholders(head + WhereClause(exprs) + tail) == Placeholders(Join(exprs, " AND "))
  {
    if exprs == [] {
      assert head + WhereClause(exprs) + tail == head + ("" + tail);
      Framed(head, "", tail);
    } else {
      var joined := Join(exprs, " AND ");
      assert head + WhereClause(exprs) + tail == head + (" WHERE " + (joined + tail));
      SkipNoDollar(head, " WHERE " + (joined + tail));
      Framed(" WHERE ", joined, tail);
    }
  }

  /** A query text made of the base SELECT, the WHERE clause of some
      conditions and ORDER BY references exactly the conditions' parameters. */
  lemma SelectWherePlaceholders(cs: seq<Condition>)
    ensures Placeholders(SelectJobs + WhereClause(Render(cs, 0)) + OrderByTitle)
         == Positions(1, |ConditionParams(cs)|)
  {
    SelectJobsDollarFree();
    WhereFramed(SelectJobs, Render(cs, 0), OrderByTitle);
    RenderPlaceholders(cs, 0);
  }

  /** The `findAll` query references `$1` ... `$n` in order, one per value. */
  lemma FindAllWellNumbered(f: SearchFilters)
    ensures WellNumbered(FindAllQuery(f))
  {
    SelectWherePlaceholders(Conditions(f));
  }

  /** Each filter contributes an expression only when it is truthy, in the
      order title, minSalary, hasEquity: `title ILIKE $1`, then `salary >=`
      a parameter numbered after the title's, then `equity > 0`. */
  lemma FindAllExpressions(f: SearchFilters)
    ensures Render(Conditions(f), 0)
         == (if TitleGiven(f) then ["title ILIKE " + Param(1)] else [])
          + (if MinSalaryGiven(f) then ["salary >= " + Param(if TitleGiven(f) then 2 else 1)] else [])
          + (if EquityWanted(f) then ["equity > 0"] else [])
  {
    var t := if TitleGiven(f) then ["title ILIKE " + Param(1)] else [];
    var m := if MinSalaryGiven(f) then ["salary >= " + Param(if TitleGiven(f) then 2 else 1)] else [];
    var c0 := WithTitle(f, []);
    var c1 := WithMinSalary(f, c0);
    if TitleGiven(f) {
      Push([], c0[0]);
      assert [] + [c0[0]] == c0;
    }
    assert Render(c0, 0) == t && |ConditionParams(c0)| == |t|;
    if MinSalaryGiven(f) {
      Push(c0, SalaryAtLeast(f.minSalary.value));
    }
    assert Render(c1, 0) == t + m;
    if EquityWanted(f) {
      Push(c1, EquityPositive);
    } else {
      assert t + m + [] == t + m;
    }
  }

  /** Only the title and the minimum salary bind values, in that order, and
      only when truthy: the title as the pattern `%title%`. */
  lemma FindAllParams(f: SearchFilters)
    ensures ConditionParams(Conditions(f))
         == (if TitleGiven(f) then [Text("%" + f.title.value + "%")] else [])
          + (if MinSalaryGiven(f) then [Int(f.minSalary.value)] else [])
  {
    var c0 := WithTitle(f, []);
    var c1 := WithMinSalary(f, c0);
    if TitleGiven(f) {
      Push([], c0[0]);
      assert [] + [c0[0]] == c0;
    }
    if MinSalaryGiven(f) {
      Push(c0, SalaryAtLeast(f.minSalary.value));
    }
    if EquityWanted(f) {
      Push(c1, EquityPositive);
    }
  }

  /** The query is the base SELECT, a WHERE clause exactly when some filter
      is truthy, and ORDER BY title; with no truthy filter nothing is bound. */
  lemma FindAllShape(f: SearchFilters)
    ensures Render(Conditions(f), 0) == [] <==> !(TitleGiven(f) || MinSalaryGiven(f) || EquityWanted(f))
    ensures FindAllQuery(f).text
         == SelectJobs
          + (if TitleGiven(f) || MinSalaryGiven(f) || EquityWanted(f)
             then " WHERE " + Join(Render(Conditions(f), 0), " AND ") else "")
          + OrderByTitle
    ensures !(TitleGiven(f) || MinSalaryGiven(f) || EquityWanted(f))
        ==> FindAllQuery(f) == Query(SelectJobs + OrderByTitle, [])
  {
    var cs := Conditions(f);
    assert (cs == []) == !(TitleGiven(f) || MinSalaryGiven(f) || EquityWanted(f));
    if cs == [] {
      assert SelectJobs + "" == SelectJobs;
    }
  }

  /** `findAll()` without an argument selects every job, ordered by title,
      with nothing bound. */
  lemma FindAllWithoutFilters()
    ensures FindAllQuery(NoFilters) == Query(SelectJobs + OrderByTitle, [])
  {
    FindAllShape(NoFilters);
  }

  /** An empty title, a minimum salary of 0 and a false `hasEquity` are
      falsy: the query is the one the absent property gives. */
  lemma FalsyFiltersIgnored(f: SearchFilters)
    ensures FindAllQuery(f.(title := Some(""))) == FindAllQuery(f.(title := None))
    ensures FindAllQuery(f.(minSalary := Some(0))) == FindAllQuery(f.(minSalary := None))
    ensures FindAllQuery(f.(hasEquity := Some(false))) == FindAllQuery(f.(hasEquity := None))
  {
  }

  // ------------------------------------------------------------------- get

  /** SELECT of the job whose id is $1. */
  const GetSql := SelectJobs + " WHERE id = " + Param(1)

  function GetQuery(id: int): (q: Query)
    ensures WellNumbered(q) && q.params == [Int(id)]
  {
    SelectJobsDollarFree();
    ParamToken(1, "");
    NoDollar("");
    assert '$' !in SelectJobs + " WHERE id = ";
    LabelledParam(SelectJobs + " WHERE id = ", 1, "");
    assert GetSql == SelectJobs + " WHERE id = " + Param(1) + "";
    Query(GetSql, [Int(id)])
  }

  /** `get` returns the first row, or NotFound when no row comes back. */
  function Get(id: int, db: Query -> seq<Job>): (r: Result<Job>)
    ensures r.Err? <==> db(GetQuery(id)) == []
    ensures r.Err? ==> r.error == NotFoundFor(id)
    ensures r.Ok? ==> r.value == db(GetQuery(id))[0]
  {
    var rows := db(GetQuery(id));
    if rows == [] then Err(NotFoundFor(id)) else Ok(rows[0])
  }

  // ---------------------------------------------------------------- update

  /** The alias table `update` passes to the partial-update builder. */
  const JobAliases: map<string, string> := map["companyHandle" := "company_handle"]

  /** The UPDATE statement: BadRequest for empty data, otherwise the data's
      values in key order followed by the id, which is the last parameter. */
  function UpdateQuery(id: int, data: PartialUpdate.Entries): (r: Result<Query>)
    ensures r.Err? <==> data == []
    ensures r.Err? ==> r.error == BadRequest
    ensures r.Ok? ==> |r.value.params| == |data| + 1 && r.value.params[|data|] == Int(id)
    ensures r.Ok? ==> forall i :: 0 <= i < |data| ==> r.value.params[i] == data[i].1
  {
    match PartialUpdate.SqlForPartialUpdate(data, JobAliases)
    case Err(e) => Err(e)
    case Ok(u) =>
      var idVarIdx := Param(|u.values| + 1);
      Ok(Query("UPDATE jobs SET " + (u.setCols + (" WHERE id = " + (idVarIdx + ReturningJob))),
               u.values + [Int(id)]))
  }

  /** The alias table introduces no `$`. */
  lemma AliasedColumnsDollarFree(data: PartialUpdate.Entries)
    requires forall i :: 0 <= i < |data| ==> '$' !in data[i].0
    ensures PartialUpdate.DollarFreeColumns(data, JobAliases)
  {
    assert '$' !in "company_handle";
  }

  /** When no key contains `$`, the UPDATE references $1..$n+1 in order: the
      data's placeholders first, then the id's, which is the highest. */
  lemma UpdateWellNumbered(id: int, data: PartialUpdate.Entries)
    requires forall i :: 0 <= i < |data| ==> '$' !in data[i].0
    ensures UpdateQuery(id, data).Ok? ==> WellNumbered(UpdateQuery(id, data).value)
  {
    if data != [] {
      AliasedColumnsDollarFree(data);
      PartialUpdate.SetColsWellNumbered(data, JobAliases);
      var u := PartialUpdate.SqlForPartialUpdate(data, JobAliases).value;
      ReturningJobDollarFree();
      ClauseThenParam("UPDATE jobs SET ", u.setCols, " WHERE id = ", |u.values| + 1, ReturningJob);
      PositionsSnoc(1, |u.values|);
    }
  }

  /** `update`: BadRequest for empty data without touching the database;
      otherwise the first returned row, or NotFound when none comes back. */
  function Update(id: int, data: PartialUpdate.Entries, db: Query -> seq<Job>): (r: Result<Job>)
    ensures data == [] ==> r == Err(BadRequest)
    ensures data != [] ==> (r.Err? <==> db(UpdateQuery(id, data).value) == [])
    ensures data != [] && r.Err? ==> r.error == NotFoundFor(id)
    ensures data != [] && r.Ok? ==> r.value == db(UpdateQuery(id, data).value)[0]
  {
    match UpdateQuery(id, data)
    case Err(e) => Err(e)
    case Ok(q) =>
      var rows := db(q);
      if rows == [] then Err(NotFoundFor(id)) else Ok(rows[0])
  }

  // ---------------------------------------------------------------- remove

  /** DELETE of the job whose id is $1, returning its id. */
  const RemoveSql := "DELETE FROM jobs WHERE id = " + (Param(1) + " RETURNING id")

  function RemoveQuery(id: int): (q: Query)
    ensures WellNumbered(q) && q.params == [Int(id)]
  {
    SkipNoDollar("DELETE FROM jobs WHERE id = ", Param(1) + " RETURNING id");
    ParamToken(1, " RETURNING id");
    NoDollar(" RETURNING id");
    Query(RemoveSql, [Int(id)])
  }

  /** `remove` succeeds with nothing exactly when a deleted id comes back. */
  function Remove(id: int, db: Query -> seq<int>): (r: Result<()>)
    ensures r.Err? <==> db(RemoveQuery(id)) == []
    ensures r.Err? ==> r.error == NotFoundFor(id)
  {
    if db(RemoveQuery(id)) == [] then Err(NotFoundFor(id)) else Ok(())
  }
}
