# DataCatcher request logic in Dafny

DataCatcher is a small Express service that stores submitted records in one
SQLite table, `received_data`, and lists them back. This project models the two
pieces of request logic in `server.js` and proves their properties:

- **POST /data** (`Submission`): the body's `id`, `origin` and `mime_data`
  must all be truthy, or the answer is 400 and nothing is written. Otherwise
  the row is inserted with the clock reading, and the insert's outcome becomes
  a status. Success gives 201 and echoes the row. A UNIQUE violation (errno 19
  whose message contains `UNIQUE constraint failed`) gives 409, and the message
  names the id. Any other failure gives 500 with a generic message.
- **GET /data** (`Query`): `origin` and `date` query values are turned into a
  list of conditions and a list of bound values, and the statement gains a
  `WHERE` clause of the joined conditions. The model also gives the statement
  a meaning. `ParseSelect` reads the generated text back into the columns it
  tests, and `Select` runs it over the table's rows. `BuildQuery` proves that
  this selects exactly the rows matching the filter, as defined independently
  by `Matching`.
- **The table** (`Store`): the `received_data` table is a class holding its
  rows in insertion order. Its `Insert` enforces the UNIQUE constraint on `id`
  and reports a violation the way the sqlite3 driver does: code 19 and a
  `SQLITE_CONSTRAINT: UNIQUE constraint failed: received_data.id` message.
- **Both handlers together** (`Service`): a record that POST creates is listed
  by the unfiltered GET and by the GET filtered on its origin and its date.

`Wrappers` holds `Option`. `Text` holds the JavaScript string operations the
handlers use: truthiness, `includes`, `join`, and counting a character.

## Model

| member | source | states |
|---|---|---|
| Store.Table.Insert | server.js:13-19 | with no engine fault, an insert whose id is already present fails with the duplicate-id error (errno 19) and leaves the rows unchanged; an insert with a fresh id succeeds and appends exactly that record; an engine fault, which is never a constraint violation, is reported unchanged and writes nothing; the UNIQUE invariant is kept |
| Store.UniqueIdNamesOneRow | server.js:15 | under the UNIQUE constraint an id names exactly one row if present and none otherwise |
| Store.AppendFreshKeepsUnique | server.js:15 | appending a row with a new id keeps ids unique |
| Store.RowsWithId | server.js:15 | the rows carrying an id are exactly the table's rows with that id |
| Submission.Validate | server.js:43-48 | a row is produced iff id, origin and mime_data are all truthy (present and non-empty); it carries those three values and the clock reading |
| Submission.InsertResponse | server.js:51-61 | the status is 201, 409 or 500; 201 iff the insert succeeded, with the saved message and exactly the inserted record; 409 iff errno 19 and the message contains the UNIQUE text, with an error naming the id; otherwise 500 with the fixed message |
| Submission.ConflictNamesId | server.js:54 | the 409 message contains the submitted id |
| Submission.DuplicateIdIsUniqueViolation | server.js:53 | the error the table raises for a repeated id is recognised as a UNIQUE violation |
| Submission.FailureHidesDriverDetail | server.js:55-57 | any two non-UNIQUE failures get the same response, the generic 500 message, so no driver detail reaches the client |
| Submission.PostData | server.js:42-64 | missing fields give 400 with the fixed message and an unchanged table; a duplicate id gives 409 naming the id and an unchanged table; a fresh id gives 201 echoing the record and appends it; an engine fault (never a constraint violation) gives the generic 500 and an unchanged table; 409 is answered iff the fields are present, there is no fault and the id is already stored |
| Submission.SubmitTwice | server.js:42-64 | submitting the same id twice: the second answer is always 409, the first is 201 iff the id was new, and the table holds exactly one row with that id |
| Query.DatePart | server.js:44 | the date portion of an ISO timestamp is defined iff it has at least 10 characters, and is then its 10-character prefix |
| Query.Matching | server.js:72-80 | the matching rows are the table's rows whose origin equals the origin filter (if given) and whose date portion equals the date filter (if given) |
| Query.KeepRows | server.js:86 | the rows a statement selects are exactly the rows satisfying every bound condition |
| Query.BuildQuery | server.js:66-84 | params are the truthy filter values, origin first; the statement reads back as the filtered columns in the same order; the number of `?` equals the number of params; no filter gives the bare SELECT and no params; both filters give `origin = ? AND DATE(datetime) = ?` with `[origin, date]`; for every table the statement selects exactly the matching rows |
| Query.ParseConjunctionRoundTrip | server.js:82-84 | conditions joined with " AND " read back as the columns they were built from |
| Query.ParseSelectRoundTrip | server.js:82-84 | a statement with a WHERE clause reads back as its columns |
| Query.ParseStatementRoundTrip | server.js:68-84 | every statement the handler builds reads back as its columns, including the bare SELECT |
| Query.StatementPlaceholders | server.js:72-84 | a built statement has one `?` per condition |
| Query.SelectPlaceholders | server.js:82-84 | a statement with a WHERE clause has as many `?` as conditions |
| Query.JoinedPlaceholders | server.js:83 | the joined conditions have one `?` per condition |
| Query.OnePlaceholderPerClause | server.js:73-78 | each pushed condition holds exactly one `?` |
| Query.NoPlaceholdersInSelectAll | server.js:68 | the bare SELECT holds no `?` |
| Query.BothFiltersStatement | server.js:72-84 | with both filters the statement tests the origin first, then the date |
| Query.BoundConditionsMeanFilter | server.js:72-80 | the built conditions, bound to the built values, hold of a row iff the row matches the filter |
| Query.KeepRowsIsMatching | server.js:72-86 | running the built conditions over any rows gives exactly the matching rows, in table order |
| Query.SelectBuiltStatement | server.js:66-86 | the built statement with its params selects exactly the matching rows |
| Query.NoFilterSelectsAll | server.js:68-70 | without a truthy filter every row is listed |
| Query.BothFiltersIntersect | server.js:72-80 | filtering by origin and date is filtering by origin, then by date |
| Query.StoredRowIsFound | server.js:44 | a stored row with an ISO timestamp is listed by the filter on its own origin and the date portion of its timestamp |
| Query.GetData | server.js:66-93 | an engine failure gives 500 with the fixed message; otherwise the rendered rows are exactly the matching rows |
| Service.SubmitThenList | server.js:42-93 | for an ISO timestamp and a working engine: the POST is answered 201 iff the body is valid and its id is not yet in the table; a 201 saves exactly the validated record (the three submitted values and the timestamp) as the one new row; any other answer leaves the table unchanged; the unfiltered GET renders the whole new table, and the GET filtered by the body's origin and the timestamp's date renders exactly the matching rows; so after a 201 the saved record is in both listings |
| Text.Truthy | server.js:46 | a request value is truthy iff it is present and not the empty string, as JavaScript's `!x` on a string or missing value; the same test guards the filters at server.js:72 and 77 |
| Submission.IsUniqueViolation | server.js:53 | an insert error is read as a duplicate id iff its errno is 19 and its message includes the UNIQUE text |
| Query.Select | server.js:86 | running a statement of the built shape with as many params as placeholders gives a result, no longer than the table, holding exactly the rows that satisfy every condition bound to its param; any other statement gives none |
| Text.Join | server.js:83 | `parts.join(sep)`: no parts give the empty text, one part gives that part, and more parts give the first, the separator, then the rest joined |
| Text.Contains | server.js:53 | `s.includes(t)`: `t` occurs in `s` at some position, so the empty text is included in every text |
| Text.JoinOccurrences | server.js:83 | joining parts that each hold one occurrence of a character, with a separator holding none, gives as many occurrences as parts |
| Text.OccurrencesAppend | server.js:83 | occurrences in a concatenation are the sum of occurrences in its parts |
| Text.ContainsAt | server.js:53 | a text containing a substring at some position `includes` it |

## Left out

- Express and body-parser wiring, `res.render` of the `data` view, console logging, `app.listen` and closing the database are not modelled.
- Opening and creating the database, and preparing and finalising statements, are left out. The table starts empty in `Store.Table.constructor`.
- The clock (`new Date().toISOString()`) becomes the `datetime` parameter of `Submission.PostData`.
- Engine failures other than the UNIQUE constraint (disk, locking, corruption) become the `fault` parameter. `Store.Table.Insert` and `Query.GetData` take it as given; `Store.Table.Insert` and `Submission.PostData` require that it is not a constraint violation (errno 19), because the schema's only constraint is the UNIQUE `id`, and whether that is violated is decided by the rows.
- Request values that are not strings or absent (numbers, booleans, arrays from repeated query keys) are not modelled. Each field is an `Option<string>`, and `None` stands for `undefined` or `null`. A missing `req.body` is not modelled either.
- Query.DatePart: SQLite's `DATE()` accepts many time formats and normalises them. The model takes only the first ten characters, which is what `DATE()` yields on the `toISOString()` values this service stores. Other stored text, such as years beyond 9999, is not modelled; `Query.StoredRowIsFound` and `Service.SubmitThenList` require `Query.IsIsoTimestamp` of the timestamp for this reason.
- Query.Select: only statements of the shape the handler builds are interpreted. Any other text gives `None`.
- Row order: the statement has no ORDER BY. The model lists rows in insertion order, which is what SQLite returns for this table but is not promised by SQL.
- Concurrency between requests is not modelled. Each handler runs to completion on the shared table.
- The usage comment at the end of `server.js` is not modelled.
