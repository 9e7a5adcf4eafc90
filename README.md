# Jobs data access of express-jobly, in Dafny

express-jobly is a job-board REST API on Express and PostgreSQL. This
project models its `Job` data-access class (models/job.js) and the contract
of the partial-update helper `sqlForPartialUpdate` as its tests pin it down
(helpers/sql.test.js). The model covers the SQL text and parameter list each
operation hands to `db.query`, and how the returned rows become a result or
an error.

- `db.query` is a parameter `db` of each operation, a function from the
  query to the rows it returns. The model does not execute SQL. It proves
  what is sent and what is done with the answer.
- A query is `Query(text, params)`. `Placeholders(text)` is a lexical scan
  for positional references: each `$` followed by a maximal run of digits.
  It does not skip quoted identifiers, string literals or comments, as
  PostgreSQL does. The jobs queries have no string literal or comment, and
  their fixed quoted identifiers contain no `$`, so on them the scan
  matches PostgreSQL.
- `WellNumbered(q)` states that the text references exactly `$1` … `$n`, in
  that order, where `n = |params|`. Every bound value is then used, and no
  reference lacks a value.
- `findAll` builds its query step by step, pushing onto `queryValues` and
  `whereExpressions`. It is the imperative method `JobModel.FindAll`. That
  method is proved equal to the specification function `FindAllQuery`, and
  the properties of `findAll` are lemmas about that function.
- `create`, `get`, `update` and `remove` are straight-line code. They are
  functions from their arguments and `db` to the result.
- Errors are values: `Err(BadRequest)` and `Err(NotFound("No job: " + id))`,
  where the source throws `BadRequestError` and `NotFoundError`.

Modules:

- `Outcomes` (outcomes.dfy): `Option`, `Result` and the two error kinds.
- `Sql` (sql.dfy):
  - bound values and queries;
  - decimal rendering of numbers;
  - `Array.prototype.join`;
  - the placeholder scanner and its composition lemmas.
- `PartialUpdate` (partial_update.dfy): `sqlForPartialUpdate`.
- `JobModel` (job.dfy): the `Job` class.

The source's multi-line template literals are written with each run of
whitespace as one space, so `(` followed by a line break becomes `( `.
Whitespace changes no placeholder. The column aliases and the spacing
around `ORDER BY title ` are kept. The column lists are written as lists
joined with ", ", and the INSERT statement's list is `InsertColumns`.

The SQL aliases `company_handle AS "companyHandle"`, but the doc comments in
models/job.js say the result has `company_handle`. The model follows the
SQL, so a `Job` row has a `companyHandle` field.

## Model

| member | source | states |
|---|---|---|
| Sql.NatToStringDenotes | models/job.js:128 | The decimal text of a count is non-empty, all digits, has no leading zero, and reads back as the same number. |
| Sql.IntToStringDenotes | models/job.js:107 | The `${id}` text in `No job: ${id}` starts with `-` exactly for a negative id, continues with digits without a leading zero, and reads back as the id. |
| Sql.JoinSnoc | models/job.js:79 | `join` agrees with the element-by-element definition: joining one more element appends the separator and that element. |
| Sql.JoinDollarFree | models/job.js:79 | Joining parts and a separator that contain no `$` gives a text without `$`, so the join adds no reference of its own. |
| Sql.ParamToken | models/job.js:128 | A rendered `$k` followed by a non-digit scans back as exactly the reference `k`. |
| PartialUpdate.SqlForPartialUpdate | helpers/sql.test.js:36-42 | An empty object gives BadRequest whatever the alias table. Otherwise the call succeeds, with one value per key, in key order. |
| PartialUpdate.Assignments | helpers/sql.test.js:18 | The i-th key gets the fragment `"column"=$(first+i)`. Its column is the alias when the table has one, else the key itself. |
| PartialUpdate.SetColsWellNumbered | helpers/sql.test.js:18-19 | The fragments joined with ", " reference `$1`…`$n`, in key order, one per value. |
| PartialUpdate.AliasesOnlyRename | helpers/sql.test.js:27-32 | The alias table only renames columns. The result equals the no-alias result on the renamed keys, so unaliased keys pass through verbatim. |
| PartialUpdate.WorksWithValidData | helpers/sql.test.js:6-20 | `{firstName: 'Kibo', age: 14}` with `firstName` aliased gives `"first_name"=$1, "age"=$2` and `["Kibo", 14]`. |
| PartialUpdate.WorksWithoutLookups | helpers/sql.test.js:22-34 | The same data with an empty table gives `"firstName"=$1, "age"=$2` and `["Kibo", 14]`. |
| JobModel.CreateSqlPlaceholders | models/job.js:20-30 | The INSERT text references `$1`…`$4` in order. |
| JobModel.CreateQuery | models/job.js:18-37 | The INSERT lists the columns `InsertColumns` (title, salary, equity, company_handle) and is well numbered. The i-th listed column receives the argument's property of that name. |
| JobModel.Create | models/job.js:38-40 | The result is the first returned row. It is `undefined` (None) exactly when no row comes back. |
| JobModel.FindAll | models/job.js:53-84 | The pushes, the WHERE join and the ORDER BY build exactly `FindAllQuery(filters)`. The rows of that query are returned. |
| JobModel.Push | models/job.js:64-72 | Pushing a condition appends its expression and its values. The expression is numbered `$(queryValues.length)` after the value is pushed. |
| JobModel.FindAllExpressions | models/job.js:64-76 | The expressions are, in order: `title ILIKE $1` when the title is truthy; `salary >= $2` after a title, else `$1`, when minSalary is truthy; `equity > 0` when hasEquity is true. |
| JobModel.FindAllParams | models/job.js:64-72 | The values are `%title%` (if title is truthy) followed by minSalary (if truthy). hasEquity binds nothing. |
| JobModel.RenderPlaceholders | models/job.js:64-79 | Any list of conditions, joined with " AND ", references `$1`… in order, one per bound value. |
| JobModel.FindAllWellNumbered | models/job.js:53-83 | The `findAll` query is well numbered for every combination of filters. |
| JobModel.FindAllShape | models/job.js:78-82 | The text is the base SELECT, then ` WHERE ` with the expressions joined by ` AND ` exactly when some filter is truthy, then ` ORDER BY title `. With no truthy filter nothing is bound. |
| JobModel.FindAllWithoutFilters | models/job.js:53-59 | `findAll()` sends the base SELECT plus ORDER BY, with no values. |
| JobModel.FalsyFiltersIgnored | models/job.js:64-76 | An empty title, a minSalary of 0 and a false hasEquity give the same query as leaving the property out. |
| JobModel.GetQuery | models/job.js:95-103 | The SELECT by id is well numbered and binds only the id. |
| JobModel.Get | models/job.js:105-109 | The result is NotFound("No job: id") exactly when no row comes back. Otherwise it is the first row. |
| JobModel.UpdateQuery | models/job.js:124-138 | Empty data is BadRequest. Otherwise the parameters are the data's values in key order followed by the id, so the id is parameter `values.length + 1`. |
| JobModel.UpdateWellNumbered | models/job.js:125-138 | The UPDATE references the SET clause's `$1`…`$n` and then `$(n+1)` for the id, and nothing else. |
| JobModel.Update | models/job.js:124-143 | Empty data is BadRequest, decided before any query. Otherwise the result is NotFound exactly when no row comes back, else the first row. |
| JobModel.RemoveQuery | models/job.js:152-157 | The DELETE by id is well numbered and binds only the id. |
| JobModel.Remove | models/job.js:158-160 | The result is NotFound exactly when no id comes back. Otherwise it succeeds with nothing. |

## Left out

- Executing SQL: the database, ILIKE matching, ordering and the returned
  rows' contents. The rows are the input `db`, and the model proves what is
  sent to it.
- The async/await machinery and the mapping of errors to HTTP statuses.
  The routes, JSON-schema validation and the test suites that run against a
  live database (models/job.test.js, routes/jobs.test.js) are also out.
- The body of `sqlForPartialUpdate`: helpers/sql.js is not part of this
  model. The function is modelled from its tests:
  - a key is looked up with `key in jsToSql`;
  - inherited JavaScript properties (`constructor`, say) and a possible
    `jsToSql[key] || key` fallback for empty aliases are not modelled.
- JavaScript truthiness beyond the coerced types. Filters are
  `Option<string>`, `Option<int>` and `Option<bool>`, as the route leaves
  them. A `NaN` minimum salary, a non-integer number, or a `hasEquity` that
  is a non-empty string such as `"false"` are not modelled.
- Number widths: ids and salaries are unbounded integers, not IEEE doubles.
  This matters only beyond 2^53.
- PartialUpdate.SetColsWellNumbered: proved only when no column contains
  `$`. This hypothesis serves the lexical scan `Placeholders`, which would
  read a `$1` inside a quoted column name as a reference. PostgreSQL would
  not.
- JobModel.UpdateWellNumbered: proved only when no key contains `$`, for the
  same reason.
- Keys containing `"`: such a key closes the quoted identifier in the SET
  clause, so it can inject SQL (`x" = 1 --` comments out the rest). The
  source does not guard against this. The model does not lex quoting, and
  `WellNumbered` does not capture it.
