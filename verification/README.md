# Grade API core, modelled in Dafny

The service is a small HTTP API over a PostgreSQL database. It has two tables:
`tbl_grades_subject_grade` holds one row per student and subject, and `tbl_grade_grade_input` holds the
inputs (quizzes, exams and so on) behind a grade. The logic in `server.js` is:

- **List queries.** `GET /api/grades` and `GET /api/grade-inputs` each take two optional query-string
  filters. From them the handler builds a SQL text and a parameter list. A filter is used only when it is
  JavaScript-truthy, so an absent or empty value is ignored. Used filters are joined by `WHERE` / `AND`, and
  each gets the placeholder `$k`, where k is the parameter count after the push. The text always ends with
  `ORDER BY created_at DESC`.
- **Row handlers by key.**
  - Create inserts a row with `NOW()` timestamps and answers 201.
  - Get answers 200, or 404 when no row has the key.
  - Update sets each column the handler reads from the body (eight for grades, four for grade inputs) to
    `COALESCE($k, column)`, so a missing or null field keeps the stored value. It sets `updated_at`, and for
    grades also `finalized_at`, to `NOW()`. No other column changes. It answers 200, or 404.
  - Delete answers 200, or 404.
- **Student statistics.** `GET /api/grades/stats/:student_id` counts the student's grade rows, and the rows
  whose remarks are exactly `'Passed'` and exactly `'Failed'`.

Modules:

- `Wrappers`: `Option`. Its `Or` is SQL `COALESCE`.
- `Decimal`: the decimal rendering of a placeholder number, and reading it back.
- `Words`: a text as space-separated words (`Join`, `Split`), and word counting.
- `ListQuery`: the list-query builder as the handlers write it (`Build`, `GradesList`, `GradeInputsList`), and
  an independent reference definition (`Reference`). The reference is a word sequence built from the truthy
  filters. Properties are stated on the words of the query text.
- `Store`: a table keyed by a serial sequence, and the four keyed statements with their 200/201/404 answers.
- `Grades`, `GradeInputs`: the handlers of the two tables.
- `Stats`: the statistics counts.

The database clock `NOW()` is a parameter `now` of every writing handler. SQL NULL and a missing JSON field
are both `None`, because the driver sends both as NULL.

server.js validates no request field, so no handler answers 400. Each list endpoint reads exactly the two
filters named above. Each update statement is a fixed text whose COALESCE list covers every column the handler
reads from the body.

## Model

| member | source | states |
|---|---|---|
| ListQuery.Build | server.js:33-49 | The builder copies the handlers' appends step by step. Its contract states that the parameters are the truthy filter values, first filter first. The text is stated by `BuildIsReference` and `BuildShape`. |
| ListQuery.GradesList | server.js:30-49 | The grades list query over `student_id`, then `course_subject_id`. The parameters are the truthy ones among the two values; the text is stated by `GradesListShape`. |
| ListQuery.GradeInputsList | server.js:222-241 | The grade-inputs list query over `subject_grade_id`, then `term`. The parameters are the truthy ones among the two values; the text is stated by `GradeInputsListShape`. |
| ListQuery.Push | server.js:39-45 | A push only extends the text, never rewrites it, and appends the value to the parameters. The words it adds are stated by `PushWords`. |
| ListQuery.BuildIsReference | server.js:30-49 | The step-by-step builder gives exactly the reference query for every pair of filter values. The reference query is the SELECT words, then `WHERE` and the conditions `column = $k` of the truthy filters joined by `AND`, then the ORDER BY words. Its parameters are the truthy values in order. |
| ListQuery.ReferenceShape | server.js:36-49 | For identifier names, the reference text read back as words has `WHERE` once iff some filter is truthy and `AND` once fewer than the conditions. Its placeholders read `$1..$n` in text order. Condition i names the i-th truthy filter's column, and parameter i is that filter's value. |
| ListQuery.BuildShape | server.js:36-49 | For a two-filter query: the parameters are the truthy values, first filter first. `WHERE` appears iff a filter is truthy, and `AND` iff both are. The placeholders are `$1..$n` with n the parameter count. The word before `= $(i+1)` is the column of parameter i. |
| ListQuery.GradesListShape | server.js:30-49 | The same shape for the grades list: `student_id` comes before `course_subject_id`, and each is bound to its own value. |
| ListQuery.GradeInputsListShape | server.js:222-241 | The same shape for the grade-inputs list: `subject_grade_id` comes before `term`. |
| ListQuery.GradesListUnfiltered | server.js:33-49 | With no truthy filter the grades query is `SELECT * FROM tbl_grades_subject_grade ORDER BY created_at DESC`, with no parameters. |
| ListQuery.GradeInputsListUnfiltered | server.js:225-241 | With no truthy filter the grade-inputs query is `SELECT * FROM tbl_grade_grade_input ORDER BY created_at DESC`, with no parameters. |
| ListQuery.GradesListEmptyIsAbsent | server.js:36-42 | An empty-string filter is falsy and gives the same query as an absent one. |
| ListQuery.GradeInputsListEmptyIsAbsent | server.js:228-234 | An empty `subject_grade_id` or `term` gives the same query as an absent one. |
| ListQuery.BuildDependsOnlyOnPresence | server.js:36-49 | The query text depends only on which filters are truthy. Filter values reach the query only as parameters. |
| ListQuery.GradesListTextIgnoresValues | server.js:36-49 | Grades queries whose filters have the same truthiness have the same text. |
| ListQuery.GradeInputsListTextIgnoresValues | server.js:228-241 | Grade-inputs queries whose filters have the same truthiness have the same text. |
| ListQuery.PushWords | server.js:39-40 | Pushing a value appends the words `column`, `=`, `$k` to the text, where k is the new parameter count, and appends the value to the parameters. |
| ListQuery.PlaceholderRoundTrip | server.js:40 | The placeholder `$k` is one word, and it reads back as the number k. |
| ListQuery.ConjunctionPlaceholders | server.js:38-46 | The conditions numbered from k carry the placeholders k, k+1, ... in text order. |
| ListQuery.ConjunctionKeywords | server.js:42-43 | n conditions are joined by n-1 `AND`s and contain no `WHERE`. |
| Decimal.ToNatFromNat | server.js:40 | A rendered number reads back as itself. |
| Decimal.FromNatInjective | server.js:40 | Different numbers render differently, so different placeholders never collide. |
| Wrappers.CoalesceAgain | server.js:153-160 | `COALESCE(a, COALESCE(a, b))` is `COALESCE(a, b)`: coalescing the same supplied value again changes nothing. This is what makes a repeated partial update a no-op. |
| Wrappers.CoalesceAssociative | server.js:153-160 | `COALESCE(a, COALESCE(b, c))` is `COALESCE(COALESCE(a, b), c)`. `Grades.UpdateTwice` and `GradeInputs.UpdateTwice` use it to collapse two partial updates into one. |
| Grades.CoalesceThen | server.js:153-160 | Merging a first body and then a second into a row is the same as merging into it the second body laid over the first, for all eight columns. |
| Grades.UpdateTwice | server.js:151-167 | Two updates of the same grade, at times e and n, give the same outcome as one update at n whose body is the second body laid over the first. |
| GradeInputs.Merge | server.js:332-335 | The second set of changes laid over the first: each field takes the second set's value when it supplies one and the first set's otherwise, so a field is supplied iff either set supplies it. |
| GradeInputs.UpdateTwice | server.js:330-340 | Two updates of the same grade input give the same outcome as one update, at the later time, with the merged changes. |
| Grades.Coalesce | server.js:153-160 | The merged columns take each value from the body where the body supplies it, and from the stored row otherwise. This is stated field by field through `MergedFrom`, a definition separate from the COALESCE chain. |
| Grades.Updated | server.js:153-162 | The row an update leaves: the eight columns merged as `MergedFrom` states, `finalized_at` and `updated_at` set to now, and `created_at` kept. |
| Grades.CoalesceTwice | server.js:153-160 | Merging the same body into a row twice gives what merging it once gives, for all eight columns. |
| Store.Insert | server.js:111-121 | The row is stored under a key no row had, the answer is 201 with the new row, and the table stays valid. |
| Store.Find | server.js:71-86 | 200 with the stored row when the key exists, 404 otherwise. The table is unchanged. |
| Store.Modify | server.js:151-179 | 404 with the table untouched when the key is absent. Otherwise 200 with the changed row, and no other row changes. |
| Store.Remove | server.js:195-210 | 200 and exactly that key gone when it exists, 404 with the table untouched otherwise. |
| Store.KeysNeverReused | server.js:111-119 | Assuming the key comes from a sequence that is never reset: a key freed by a delete is not handed out again by the next insert. |
| Store.RemoveThenMissing | server.js:195-205 | After a delete the key is missing: a get or a second delete answers 404 and changes nothing. |
| Grades.Create | server.js:111-125 | 201. The eight columns equal the body, and `finalized_at`, `created_at` and `updated_at` all equal now. The key is fresh. |
| Grades.Get | server.js:71-86 | 200 with the stored row, or 404 with no row when the key is absent; the table is unchanged. |
| Grades.Update | server.js:151-180 | Each column takes the body's value when supplied and keeps its own otherwise. `finalized_at` and `updated_at` become now, and `created_at` is kept. No other row changes. 404 leaves the table untouched. |
| Grades.Delete | server.js:195-210 | The rows afterwards are the rows before minus that key. The answer is 200, or 404 when the key is absent. |
| Grades.CreateThenGet | server.js:98-125 | A created grade is fetched back with the body's columns and the creation time. |
| Grades.UpdateIdempotent | server.js:151-167 | Repeating an update at the same time changes nothing further. |
| Grades.UpdateWithEmptyBody | server.js:153-162 | An empty body only refreshes `finalized_at` and `updated_at`. |
| Grades.UpdateNeverClears | server.js:153-160 | A column holding a value still holds one after any update, because null means keep. |
| Grades.DeleteTwice | server.js:195-205 | The first delete answers 200. The second answers 404 and changes nothing. |
| Grades.PassedThenFailedExample | server.js:111-174 | A grade created at 89.25 with remarks 'Passed', then updated with only remarks 'Failed', keeps 89.25. It has remarks 'Failed', and `updated_at` is after `created_at`. |
| Grades.HandlersKeepTableValid | server.js:111-205 | Every handler keeps every stored key below the sequence's next value. |
| GradeInputs.Create | server.js:301-313 | 201. The six columns equal the body, and `created_at` and `updated_at` equal now. The key is fresh. |
| GradeInputs.Get | server.js:263-278 | 200 with the stored row, or 404 with no row when the key is absent; the table is unchanged. |
| GradeInputs.Update | server.js:330-353 | `input_type`, `input_name`, `score` and `term` are COALESCE-merged, and `updated_at` becomes now. `subject_grade_id`, `created_by` and `created_at` never change. No other row changes. 404 leaves the table untouched. |
| GradeInputs.Updated | server.js:331-337 | The row an update leaves: the four body columns each take the body's value when supplied and keep their own otherwise, and `updated_at` is set to now. `subject_grade_id`, `created_by` and `created_at` are kept. |
| GradeInputs.Delete | server.js:368-383 | The rows afterwards are the rows before minus that key. The answer is 200, or 404. |
| GradeInputs.CreateThenGet | server.js:290-313 | A created input is fetched back with the body's columns. |
| GradeInputs.UpdateIdempotent | server.js:330-340 | Repeating an update at the same time changes nothing further. |
| GradeInputs.DeleteTwice | server.js:368-378 | The first delete answers 200. The second answers 404 and changes nothing. |
| GradeInputs.HandlersKeepTableValid | server.js:301-378 | Every handler keeps the table valid. |
| Stats.StudentIds | server.js:406-407 | The keys of the rows that `WHERE student_id = $1` selects from the given keys; always a subset of them and of the table's keys. |
| Stats.RemarkIds | server.js:404-405 | The keys of the student's rows whose remarks equal the given text exactly, with NULL and any other text excluded; always a subset of the student's rows. |
| Stats.StudentStatistics | server.js:398-414 | Always 200. The total is the number of the student's rows. The passed and failed counts are the numbers of the student's rows whose remarks are exactly 'Passed' and exactly 'Failed'. |
| Stats.PassedAndFailedWithinTotal | server.js:400-407 | The passed and failed counts never add up to more than the total. |
| Stats.NoRowsGivesZero | server.js:398-414 | A student without rows gets all counts zero, not a 404. |

## Left out

- HTTP routing, CORS and JSON parsing middleware, and the response envelopes (`success`, `message`, `count`). Each handler is a function from a table and a request to an outcome.
- The connection pool, its start-up connection test, and logging.
- The 500 answers. These come from any database error: a non-numeric id, a constraint violation, or a lost
  connection. The model's only schema facts are the key sequence (below) and nullable columns. It does not
  model NOT NULL columns or foreign keys.
- Store.Insert / Store.KeysNeverReused: the INSERT statements leave the key column out. The model assumes the
  key comes from a SERIAL/IDENTITY sequence that starts at 1 and is never reset. That default lives in the
  database schema, not in server.js, so these members state a consequence of that assumption. The model also
  leaves out a sequence value that collides with a key inserted some other way, which is a database error and
  a 500.
- `NOW()` is the parameter `now`. The model does not assume the clock advances between calls.
- The AVG, MAX and MIN columns of the statistics query, because they are decimal arithmetic done by the database.
- Running the list query against the rows, and the `ORDER BY created_at DESC` row order. The model states what
  query text and parameters are sent, not the database's answer.
- PostgreSQL type coercion. Keys and ids are `int`, grades and scores are `real`, and query-string values
  stay strings.
- The query parser's array and object values for a repeated or bracketed query key. A filter is a string or
  absent.
- The root endpoint and the health endpoint.
