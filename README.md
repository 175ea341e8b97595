# sap-hdbext-promisfied, modelled in Dafny

The library is a thin adapter that turns the callback-style SAP HANA client
(`prepare`, `statement.exec`, stored-procedure callables) into promises, plus two
static helpers. This project models the decisions the adapter itself makes:

- `objectName` — turning an optional object name into a SQL `LIKE` pattern;
- `schemaCalc` — resolving a schema selector (`**CURRENT_SCHEMA**`, `*`, or a literal);
- `execSQL` — preparing a statement, then executing it with no parameters;
- the completion callback of `callProcedurePromisified` — rejecting with the reported
  error, or shaping `(outputScalar, ...results)` into the resolved object, with its
  `results` versus `results0 .. resultsN-1` asymmetry.

The client is data (`ClientApi`): `prepare` and `exec` are total functions from
their arguments to an already-settled `Result`, and every operation that talks to
the client returns a `Traced` value that records the requests it made
(`Prepare(sql)`, `Exec(statement, parameters)`) next to its outcome. "Issues no
query", "exec is never attempted" and "exec gets an empty parameter list" are
statements about that record. A JavaScript object is a `map` from property names
to values; `undefined` is an explicit value (`Undefined`, `UndefinedProperty`).

Files: `wrappers.dfy` (Option, Result), `client_api.dfy` (the client's values),
`decimal.dfy` (the decimal text of `${i}`, with its inverse), `like_pattern.dfy`
(what `%` and `_` mean to `LIKE`, the reference the two pattern helpers are proved
against) and `promisified.dfy` (index.js).

At its edges index.js behaves as follows; the model follows it:

- For fewer than two result sets the resolved object always holds the key
  `results`; with zero sets its value is `undefined` (the key is present).
- `schemaCalc` on `**CURRENT_SCHEMA**` whose query returns no rows rejects with a
  `TypeError` (reading `CURRENT_SCHEMA` of `undefined`); a first row without that
  column resolves to `undefined` rather than failing.
- `objectName("")` is `"%"`, the same pattern as a missing name.

## Model

| member | source | states |
|---|---|---|
| Promisified.ObjectName | index.js:22-29 | the pattern is never empty and ends in `%`; a missing name or `*` gives exactly `%`; any other name is a prefix of the pattern, which is one character longer |
| Promisified.ObjectNameIsWildcard | index.js:23-27 | the pattern is the bare `%` if and only if the name is missing, `*` or empty |
| Promisified.ObjectNameMatchesAll | index.js:23-24 | for a missing name or `*` the pattern matches every object name under `LIKE` |
| Promisified.ObjectNameSelectsPrefix | index.js:25-26 | for any other name the pattern matches every object name it prefixes, and, when the name holds no `%` or `_`, only those |
| Promisified.ExecSql | index.js:51-67 | prepare comes first; a prepare error is the rejection and exec is never requested; otherwise exec is requested once on the prepared statement with an empty parameter list and its outcome, success or error, is passed through unchanged |
| Promisified.SchemaCalc | index.js:7-20 | a request is made of the client if and only if the selector is `**CURRENT_SCHEMA**`, and then only `SELECT CURRENT_SCHEMA FROM DUMMY` with no parameters; `*` resolves to `%`; any other selector resolves to itself; for `**CURRENT_SCHEMA**` a query error is the rejection, an empty result rejects with a `TypeError`, otherwise the result is the `CURRENT_SCHEMA` column of row 0 |
| Promisified.AnySchemaMatchesAll | index.js:13-14 | the `*` selector resolves to a pattern that matches every schema name under `LIKE` |
| ClientApi.Column | index.js:11 | property access on a row: the column's value when present, `undefined` when absent |
| Promisified.CallProcedure | index.js:70-92 | a reported error is the rejection whatever else is supplied; with fewer than two result sets the object is exactly `{outputScalar, results: results[0]}` (`undefined` for none); with two or more its keys are exactly `outputScalar` and `results0 .. resultsN-1`, each `results<i>` holding result set i |
| Promisified.IndexedKeysExclude | index.js:81-87 | the indexed object has no plain `results` key and no `results<j>` key for j at or beyond the number of result sets |
| Promisified.IndexedResultsKeyInjective | index.js:85 | distinct indexes give distinct `results${i}` names, so no result set overwrites another |
| Promisified.IndexedResultsKeyIsFresh | index.js:83-85 | no `results${i}` name coincides with `outputScalar` or with `results` |
| Decimal.DigitsValueOfNatToString | index.js:85 | the decimal text of `${i}` reads back as i |

## Left out

- The `util.promisify` wrapping and the entry points it installs on the client, on each statement and on the procedure loader (index.js:31-49): runtime plumbing around callbacks. `preparePromisified` and `statementExecPromisified` survive only as the calls `ExecSql` makes of `Client.prepare` and `Client.exec`.
- `loadProcedurePromisified` (index.js:46-49): a plain forwarding call into the external `hdbext` library.
- Promise scheduling, concurrency and a callback that never fires: every asynchronous step is an already-settled `Result`.
- The database and the SQL semantics behind `prepare`, `exec` and `CURRENT_SCHEMA`: abstract functions of `Client`.
- Promisified.CallProcedure: starts at the procedure's completion callback; invoking `storedProc` with the input parameters is a call into the client and is not modelled.
- Promisified.CallProcedure: an error is present or absent; JavaScript truthiness of odd error values (a falsy `0` or `""` passed as the error) is not modelled.
- Promisified.ObjectName: names are strings or absent; `name += "%"` on a non-string value (number coercion) is not modelled.
- Promisified.SchemaCalc: the selector is a string; a missing `options.schema` (which index.js would return as `undefined`) is not modelled.
- Promisified.CallProcedure: the resolved object is a map, so the insertion order of its keys (`outputScalar`, then `results0`, `results1`, …), which JavaScript makes observable, is not modelled.
- Promisified.SchemaCalc: `db` is taken to be this adapter over a `Client`; index.js accepts any object with an `execSQL` method, and such other objects are not modelled.
- Numbers are unbounded integers; JavaScript's floating-point numbers in cells are not modelled.
- `LIKE` escape characters are not modelled; `%` and `_` are the only special characters.
