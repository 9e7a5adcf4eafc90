/** `sqlForPartialUpdate(dataToUpdate, jsToSql)`: the SET-clause fragment and
    parameter list for a partial UPDATE, as pinned down by its tests. */
module PartialUpdate {
  import opened Outcomes
  import opened Sql

  /** A JavaScript object's own entries, in `Object.keys` order, which is
      also the order of `Object.values`. */
  type Entries = seq<(string, SqlValue)>

  /** The `{setCols, values}` object a successful call returns. */
  datatype SetClause = SetClause(setCols: string, values: seq<SqlValue>)

  /** The column a key is written to: its alias when the table has one,
      otherwise the key itself. */
  function ColumnFor(key: string, jsToSql: map<string, string>): string {
    if key in jsToSql then jsToSql[key] else key
  }

  /** One fragment of the SET clause: the quoted column, `=`, and a parameter reference. */
  function Assignment(column: string, position: nat): string {
    "\"" + column + "\"=" + Param(position)
  }

  /** The fragments for `data`, numbering parameters from `first`: the i-th
      entry is assigned to its column from parameter `first + i`. */
  function Assignments(data: Entries, jsToSql: map<string, string>, first: nat): (r: seq<string>)
    ensures |r| == |data|
    ensures forall i :: 0 <= i < |data| ==> r[i] == Assignment(ColumnFor(data[i].0, jsToSql), first + i)
    decreases |data|
  {
    if data == [] then []
    else [Assignment(ColumnFor(data[0].0, jsToSql), first)] + Assignments(data[1..], jsToSql, first + 1)
  }

  /** `Object.values(data)` */
  function ValuesOf(data: Entries): (r: seq<SqlValue>)
    ensures |r| == |data|
    ensures forall i :: 0 <= i < |data| ==> r[i] == data[i].1
    decreases |data|
  {
    if data == [] then [] else [data[0].1] + ValuesOf(data[1..])
  }

  /** An empty object is refused with BadRequest whatever the alias table;
      otherwise the fragments are joined with ", " and the values follow the
      keys' order, one per fragment. */
  function SqlForPartialUpdate(dataToUpdate: Entries, jsToSql: map<string, string>): (r: Result<SetClause>)
    ensures r.Err? <==> dataToUpdate == []
    ensures r.Err? ==> r.error == BadRequest
    ensures r.Ok? ==> |r.value.values| == |dataToUpdate|
    ensures r.Ok? ==> forall i :: 0 <= i < |dataToUpdate| ==> r.value.values[i] == dataToUpdate[i].1
  {
    if |dataToUpdate| == 0 then Err(BadRequest)
    else Ok(SetClause(Join(Assignments(dataToUpdate, jsToSql, 1), ", "), ValuesOf(dataToUpdate)))
  }

  /** No column the entries are written to contains `$`. */
  predicate DollarFreeColumns(data: Entries, jsToSql: map<string, string>) {
    forall i :: 0 <= i < |data| ==> '$' !in ColumnFor(data[i].0, jsToSql)
  }

  /** A fragment for a column without `$` references only its own parameter. */
  lemma AssignmentToken(column: string, position: nat, rest: string)
    requires '$' !in column && StartsWithNonDigit(rest)
    ensures Placeholders(Assignment(column, position) + rest) == [position] + Placeholders(rest)
  {
    LabelledParam("\"" + column + "\"=", position, rest);
  }

  /** The entries after the first keep their columns free of `$`. */
  lemma DollarFreeTail(data: Entries, jsToSql: map<string, string>)
    requires data != [] && DollarFreeColumns(data, jsToSql)
    ensures DollarFreeColumns(data[1..], jsToSql)
  {
    forall i | 0 <= i < |data| - 1
      ensures '$' !in ColumnFor(data[1..][i].0, jsToSql)
    {
      assert data[1..][i] == data[i + 1];
    }
  }

  /** The first fragment references its own parameter, then come the rest's references. */
  lemma AssignmentsStep(data: Entries, jsToSql: map<string, string>, first: nat)
    requires data != [] && DollarFreeColumns(data, jsToSql)
    ensures Placeholders(Join(Assignments(data, jsToSql, first), ", "))
         == [first] + Placeholders(Join(Assignments(data[1..], jsToSql, first + 1), ", "))
  {
    var column := ColumnFor(data[0].0, jsToSql);
    var tail := Assignments(data[1..], jsToSql, first + 1);
    assert Assignments(data, jsToSql, first) == [Assignment(column, first)] + tail;
    JoinCons(Assignment(column, first), tail, ", ");
    assert '$' !in column;
    if tail == [] {
      AssignmentToken(column, first, "");
      assert Assignment(column, first) + "" == Assignment(column, first);
    } else {
      AssignmentToken(column, first, ", " + Join(tail, ", "));
      SkipNoDollar(", ", Join(tail, ", "));
    }
  }

  /** The joined fragments reference `$first`, `$first + 1`, ... in order, one
      per entry. */
  lemma {:induction false} AssignmentsPlaceholders(data: Entries, jsToSql: map<string, string>, first: nat)
    requires DollarFreeColumns(data, jsToSql)
    ensures Placeholders(Join(Assignments(data, jsToSql, first), ", ")) == Positions(first, |data|)
    decreases |data|
  {
    if data != [] {
      AssignmentsStep(data, jsToSql, first);
      DollarFreeTail(data, jsToSql);
      AssignmentsPlaceholders(data[1..], jsToSql, first + 1);
    }
  }

  /** A successful result references `$1` ... `$n` in order, where n is the
      number of values: the i-th key's column is set from the i-th value. */
  lemma SetColsWellNumbered(dataToUpdate: Entries, jsToSql: map<string, string>)
    requires DollarFreeColumns(dataToUpdate, jsToSql)
    ensures var r := SqlForPartialUpdate(dataToUpdate, jsToSql);
            r.Ok? ==> WellNumbered(Query(r.value.setCols, r.value.values))
  {
    AssignmentsPlaceholders(dataToUpdate, jsToSql, 1);
  }

  /** The entries with each key replaced by the column it is written to. */
  function Renamed(data: Entries, jsToSql: map<string, string>): (r: Entries)
    ensures |r| == |data|
  {
    seq(|data|, i requires 0 <= i < |data| => (ColumnFor(data[i].0, jsToSql), data[i].1))
  }

  /** The alias table only renames columns: the result is the one an empty
      table gives once the keys are renamed, so unaliased keys pass through verbatim. */
  lemma AliasesOnlyRename(dataToUpdate: Entries, jsToSql: map<string, string>)
    ensures SqlForPartialUpdate(dataToUpdate, jsToSql)
         == SqlForPartialUpdate(Renamed(dataToUpdate, jsToSql), map[])
  {
    var renamed := Renamed(dataToUpdate, jsToSql);
    assert Assignments(dataToUpdate, jsToSql, 1) == Assignments(renamed, map[], 1);
    assert ValuesOf(dataToUpdate) == ValuesOf(renamed);
  }

  /** A two-key object: both fragments joined by ", " and both values. */
  lemma TwoEntries(k1: string, v1: SqlValue, k2: string, v2: SqlValue, jsToSql: map<string, string>)
    ensures SqlForPartialUpdate([(k1, v1), (k2, v2)], jsToSql)
         == Ok(SetClause(Assignment(ColumnFor(k1, jsToSql), 1) + ", " + Assignment(ColumnFor(k2, jsToSql), 2), [v1, v2]))
  {
    var data := [(k1, v1), (k2, v2)];
    var parts := Assignments(data, jsToSql, 1);
    assert parts[1..] == [parts[1]];
    assert Join(parts, ", ") == parts[0] + ", " + parts[1];
    assert ValuesOf(data) == [v1, v2];
  }

  /** helpers/sql.test.js, "works with valid data". */
  lemma WorksWithValidData()
    ensures SqlForPartialUpdate([("firstName", Text("Kibo")), ("age", Int(14))], map["firstName" := "first_name"])
         == Ok(SetClause("\"first_name\"=$1, \"age\"=$2", [Text("Kibo"), Int(14)]))
  {
    var jsToSql := map["firstName" := "first_name"];
    TwoEntries("firstName", Text("Kibo"), "age", Int(14), jsToSql);
    SmallParams();
    assert ColumnFor("firstName", jsToSql) == "first_name";
    assert ColumnFor("age", jsToSql) == "age";
    var first := Assignment("first_name", 1);
    var second := Assignment("age", 2);
    assert first == "\"first_name\"=$1" && second == "\"age\"=$2";
    assert first + ", " + second == "\"first_name\"=$1, \"age\"=$2";
  }

  /** helpers/sql.test.js, "works without jsToSql lookups". */
  lemma WorksWithoutLookups()
    ensures SqlForPartialUpdate([("firstName", Text("Kibo")), ("age", Int(14))], map[])
         == Ok(SetClause("\"firstName\"=$1, \"age\"=$2", [Text("Kibo"), Int(14)]))
  {
    TwoEntries("firstName", Text("Kibo"), "age", Int(14), map[]);
    SmallParams();
    var first := Assignment("firstName", 1);
    var second := Assignment("age", 2);
    assert first == "\"firstName\"=$1" && second == "\"age\"=$2";
    assert first + ", " + second == "\"firstName\"=$1, \"age\"=$2";
  }

  lemma SmallParams()
    ensures Param(1) == "$1" && Param(2) == "$2"
  {
    assert NatToString(1) == "1";
    assert NatToString(2) == "2";
  }
}
