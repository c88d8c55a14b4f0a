# gw_clock_api: the request-handling layer of the actions service, in Dafny

gw_clock_api is a small HTTP service, written with Flask. It stores the "actions" of the
GW_CLOCK device in one SQLite table, `actions(id, date_time, value, est_effectue,
type_action_id)`. This project models the service's two resources:

- `Actions` on `/actions`: GET lists the rows, POST creates one, PATCH overwrites one, DELETE removes one.
- `ActionsCompleter` on `/actions/completer`: POST marks one action as done.

It also models the storage gateway `SqliteUtils` that the handlers call. For every handler
the model states:

- the order in which fields are read and checked;
- which check reports first, and with which text;
- what the one SQL statement does to the table;
- how the row count, or the exception raised on the way, becomes a `(body, status)` pair.

Files, one module each:

- `wrappers.dfy` (`Wrappers`): `Option` and `Result`.
- `pyruntime.dfy` (`PyRuntime`): the Python behaviour the handlers rely on. This covers a
  decoded JSON value (`Str` or `Int`), `v == ""`, `int(v)`, `str(KeyError(x))` and
  `.replace("'", "")`. It also proves that `int` reads back the decimal text of every
  integer, and that removing the quotes from `str(KeyError(x))` gives back `x`.
- `storage.dfy` (`Storage`): `class SqliteUtils`. Its field `rows: map<int, Action>` stands
  for the table, keyed by primary key. `Select` lists the rows. `Execute` runs one write
  statement. Pure functions (`UpdatedRows`, `RemovedRows`, `CompletedRows`, `Matched`,
  `NewAction`) give each statement's effect and row count.
- `resources.dfy` (`Resources`): what both resources share. That is the response tags
  (`Outcome`), the runtime conditions of a request (`Env`), the three `except` clauses
  (`Caught`) and the field checks.
- `actions.dfy` (`Actions`): the validation chains and the GET, POST, PATCH and DELETE
  handlers. It also has a create-then-list client.
- `completer.dfy` (`ActionsCompleter`): the completion handler and a complete-twice client.

How the model stands for the running service:

- The JSON body is a `map<string, Json>`. A key the map lacks is a missing field.
- A handler answers with an `Outcome`. The tags are `Ok200`, `Listed200` (GET, with
  `liste_actions`), `NotFound404`, `BadRequest400(erreur, description)`, `ServerError500` and
  `ErrorNoStatus`. The last is a dict returned without a status code: lines 165 and 318.
  Flask-RESTful then answers 200, but that is framework behaviour and is not modelled.
- The database file is a `SqliteUtils` object passed to the handler. The handler's
  `SqliteUtils(nom_bd)` call opens a connection to that file.
- Whether opening the connection raises, and whether executing the statement raises,
  is the `Env` parameter. A failed statement writes nothing, because it raises before
  the commit.
- Each handler states its outcome and the new table in terms of the validation function
  and the table functions. Those functions carry the properties:
  - a refused body never reaches the table;
  - a create stores `est_effectue = 0` whatever the body holds;
  - update, delete and complete touch only the row with the given id;
  - a zero row count is 404 for update and delete, but an error without a status for
    complete. Create's answer without a status (line 165) cannot be reached, because a
    plain INSERT that does not raise always reports 1.

Behaviour of the code that the model keeps on purpose:

- PATCH requires `est_effectue` to be a non-empty positive integer, so sending 0 is a 400.
  Both of its messages are the texts written for `id` (lines 205-208).
- Every field is read before any is checked. A missing field is therefore reported by its
  name, even when an earlier field is empty.
- `int()` of a non-numeric string raises ValueError. That is caught by `except Exception`,
  so it is a 500, not a 400.
- PATCH, DELETE and complete all call `SqliteUtils.insert`. The three write methods of
  `SqliteUtils` (lines 63-97) have the same body: execute, commit, return the row count.
  They are one method here, `SqliteUtils.Execute`. The statement it is given decides the
  effect.
- A plain INSERT that does not raise adds one row and reports 1, so POST's answer without
  a status at line 165 is never given in the model. The branch is kept in `Actions.Post`
  as the code has it.
- The key used by `WHERE id=?` is `int(id)`. This is how SQLite's integer affinity
  compares a bound `"5"` with the key 5. The columns store the values exactly as they
  were bound.

## Model

| member | source | states |
|---|---|---|
| `Storage.SqliteUtils.constructor` | gw_clock_api.py:31-38 | opening the database gives access to the table as it is, and all its keys are positive |
| `Storage.SqliteUtils.Select` | gw_clock_api.py:48-61 | a statement that fails raises and returns nothing; otherwise the result lists every row of the table exactly once, each with its own fields, and no other record |
| `Storage.SqliteUtils.Execute` | gw_clock_api.py:63-97 | a failing statement raises and leaves the table unchanged. An INSERT reports 1 and adds exactly one row under a fresh positive key. UPDATE, DELETE and the completing UPDATE report the number of rows with that key (0 or 1) and change the table as the functions below say. Keys stay positive |
| `Storage.NewAction` | gw_clock_api.py:156 | the INSERT stores the date_time, value and type_action_id it is given, and est_effectue 0 |
| `Storage.Matched` | gw_clock_api.py:258-261 | a statement restricted by `WHERE id=?` affects at most one row, and none exactly when no row has that key |
| `Storage.UpdatedRows` | gw_clock_api.py:214-217 | the full UPDATE overwrites all four columns of the row with that key and no other row; the set of keys is unchanged; an unknown key changes nothing |
| `Storage.RemovedRows` | gw_clock_api.py:258-261 | the DELETE removes exactly that key and leaves every other row as it was |
| `Storage.CompletedRows` | gw_clock_api.py:307-310 | the completing UPDATE sets est_effectue to 1 on the row with that key, whatever it held, keeps that row's other columns, and changes no other row |
| `Storage.CompleteIdempotent` | gw_clock_api.py:307-314 | completing twice leaves the same table as completing once, and both report the same row count |
| `Storage.KeyBound` | gw_clock_api.py:156-159 | some positive key is above every key in use, so an INSERT can always get a fresh key |
| `PyRuntime.IsEmptyString` | gw_clock_api.py:147-152 | `v == ""` holds exactly for the empty string, never for a number |
| `PyRuntime.IntOf` | gw_clock_api.py:153 | `int(v)` of a number is that number, and of the empty string raises; a string is parsed by `ParseInt` |
| `PyRuntime.KeyErrorText` | gw_clock_api.py:168-169 | `str(e)` of a KeyError is its argument between single quotes |
| `PyRuntime.ParseInt` | gw_clock_api.py:153 | `int()` of the empty string raises |
| `PyRuntime.ParseIntOfDecimal` | gw_clock_api.py:199 | `int()` reads back every integer from its decimal text |
| `PyRuntime.RemoveQuotes` | gw_clock_api.py:169 | `replace("'", "")` leaves no single quote and never lengthens the text |
| `PyRuntime.UnquoteKeyError` | gw_clock_api.py:169 | removing the quotes from `str(KeyError(x))` gives back `x`, for any `x` without quotes |
| `Resources.ErrorText` | gw_clock_api.py:147-154 | the argument of each KeyError a check raises: the field name for a missing field, or the "ne peut être vide" or "ne peut être zéro ou négatif" text; it has no quote when the field name has none |
| `Resources.Caught` | gw_clock_api.py:167-179 | only a KeyError becomes a 400. Its erreur is the fixed "Une erreur existe dans un de champs." text, and its description has no single quote and is exactly the KeyError's text. An OperationalError and every other exception, ValueError from `int()` included, become a 500 with the generic text |
| `Resources.CheckPositive` | gw_clock_api.py:197-200 | the two checks on an identifier pass exactly when `int()` gives a positive number. An empty value reports the empty text, a non-numeric one makes `int()` raise, and zero or less reports the not-positive text |
| `Resources.FirstMissing` | gw_clock_api.py:143-145 | none is missing exactly when the body has every key; otherwise it is a key the body lacks, and every key before it in reading order is present |
| `Actions.ValidateCreate` | gw_clock_api.py:143-154 | accepted exactly when date_time and value are non-empty and type_action_id is a positive integer, and then the three values are passed on as sent. The first of date_time, value and type_action_id that the body lacks is reported by its name, before any content check. Each content description is returned exactly when the earlier checks pass and that check fails. A non-numeric type_action_id is the only failure that is not a KeyError. No KeyError text holds a quote |
| `Actions.ValidatePatch` | gw_clock_api.py:191-212 | accepted exactly when date_time and value are non-empty and id, est_effectue and type_action_id are all positive integers. A missing field is reported first. Then each description is returned exactly when a check that raises it is the first of the eight checks to fail; the two checks on est_effectue raise the id texts. A ValueError (a 500) is returned exactly when the first non-numeric id, est_effectue or type_action_id is reached with the earlier checks passing. There is no other failure |
| `Actions.PatchAfterId` | gw_clock_api.py:201-212 | once id has passed: accepted exactly when date_time and value are non-empty and est_effectue and type_action_id are positive integers; each description and the ValueError are returned exactly when their check is the first to fail |
| `Actions.PatchEstEffectueAsId` | gw_clock_api.py:205-208 | an est_effectue of 0, `"0"` or `""`, with the earlier checks passing, is refused with the texts written for id, and no description ever names est_effectue |
| `Actions.PatchReportsFirstMissing` | gw_clock_api.py:191-195 | the missing field PATCH reports is the first of id, date_time, value, est_effectue and type_action_id that the body lacks |
| `Actions.ValidateId` | gw_clock_api.py:251-256 | accepted exactly when id is a positive integer, and then the key is `int(id)`. A missing, empty or non-positive id is a KeyError naming id. A non-numeric one makes `int()` raise. The same chain is repeated at lines 298-304 |
| `Actions.ValidateIdOfDecimal` | gw_clock_api.py:253-256 | an id sent as its decimal string is validated exactly like the number itself |
| `Actions.ListingError` | gw_clock_api.py:125-131 | both exceptions of GET answer 500: an OperationalError with the generic text, any other exception with the text about fetching the actions |
| `Actions.Get` | gw_clock_api.py:104-131 | with no failure: 200 with a listing of every row when the table is non-empty, and 404 with the "Aucune action" text when it is empty. An exception opening or reading the database is a 500. Every listed id is positive. The table is never changed |
| `Actions.Post` | gw_clock_api.py:133-179 | a connection failure is a 500 before the body is read. A refused body gets the response of its exception and the table is unchanged. A failing INSERT is a 500. An accepted body meeting no failure is stored and answered 200. A 200 means exactly one new row under a fresh positive key, with the fields sent and est_effectue 0. Every answer other than 200 leaves the table unchanged |
| `Actions.Patch` | gw_clock_api.py:181-239 | a refused body or a failure is answered before anything changes. Otherwise only the row with `int(id)` gets all four columns overwritten: 200 when it exists, and 404 with the table unchanged when it does not |
| `Actions.Delete` | gw_clock_api.py:241-281 | a refused id or a failure changes nothing. Otherwise exactly the row with `int(id)` is removed and the answer is 200, or 404 with the table unchanged when no row matched |
| `Actions.CreateThenList` | gw_clock_api.py:114-162 | an accepted body is created with a 200, and the listing then holds a row under a positive key the table did not hold before, with the date_time, value and type_action_id sent and est_effectue 0 |
| `ActionsCompleter.Post` | gw_clock_api.py:289-332 | a refused id or a failure changes nothing. Otherwise est_effectue becomes 1 on the row with `int(id)` only, and the answer is 200. When no row matched, the answer is an error body without a status, not a 404, and the table is unchanged |
| `ActionsCompleter.CompleteTwice` | gw_clock_api.py:298-318 | completing an existing action twice answers 200 both times and leaves it with est_effectue 1 and its other columns unchanged |

## Left out

- Flask and flask_restful plumbing is not modelled: creating the app and the API, registering routes, decoding `request.json`, and `app.run` (lines 18-19, 335-349). The body reaches the handler already decoded.
- The status Flask-RESTful gives to a response returned without one (lines 165 and 318) is not modelled. `ErrorNoStatus` stands for it.
- The sqlite3 mechanics are not modelled: the connection URI, `row_factory`, the foreign-keys PRAGMA, `commit` and the closing destructor (lines 36-46, 60). They are foreign-library I/O. Their only visible effect, that opening the database may raise, is `Env.connect`.
- The SQL text is not parsed. Each handler's statement is a `Statement` value with the effect the SQL has.
- Auto-increment is not modelled. The engine may give a new row any positive key not in use, and the model does not choose which one.
- Foreign-key enforcement on type_action_id is not modelled. The `actions_types` table is not part of this model, so a violation is only a possible statement failure, `Env.execute`, which leads to a 500.
- sqlite3's 64-bit integer binding is not modelled. An integer too large for 64 bits, such as an `id` of 2^63 in a PATCH (line 217), makes sqlite3 raise OverflowError, a 500. The model answers that only when `Env.execute` says the statement fails. With `Env.execute` empty, it looks the key up as an unbounded integer and answers 404.
- How sqlite3 binds the bare `(id)` passed by DELETE and complete (lines 261, 310) is not modelled. It is not a 1-tuple, and its fate depends on sqlite3's binding rules. The model binds `int(id)` and lets `Env.execute` stand for a binding failure, which leads to a 500.
- SQLite's column affinity is not modelled. A value bound as `"3"` is stored as the string `"3"`, where an INTEGER column might convert it.
- The natural order of the SELECT result is not modelled. `Select` may return the rows in any order.
- ParseInt: accepts only an optional sign followed by ASCII digits. Python's `int()` also accepts surrounding whitespace, underscores between digits and non-ASCII digits. Those strings make the model raise ValueError where Python would parse them. In the other direction, current Python releases make `int()` raise ValueError on a string of more than 4300 digits, such as an `id` of `"1"` repeated 5000 times (a 500 at line 199). The model parses it, and answers 404 when `Env.execute` reports no failure.
- JSON values other than strings and integers are not modelled: null, booleans, floats, lists and objects, and a body that is not an object. In Python, `int()` of these converts or raises, and a non-object body makes the field read raise.
- `str(KeyError(x))` is modelled as `x` between single quotes, which is Python's repr only for text without quotes or backslashes. Every argument the handlers raise is such a text.
- Actions.Post: the zero-count branch of lines 164-165, which answers without a status, is kept in the body as the code has it, but no contract states it, because a plain INSERT that does not raise always reports 1.
- The `print` logging and the unused module-level `sqlite_utils` global are not modelled, because they have no effect on responses or on the table.
