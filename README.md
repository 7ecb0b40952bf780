# Contact backend: a Dafny model

A model of the request logic of a small Express service that stores
contact-form submissions in PostgreSQL (`server.js`). It covers:

- **the CORS origin gate**: the allow-list built once at start-up from the
  optional `FRONTEND_URL` setting (split on `,`, each piece trimmed, or the
  single default `http://localhost:3001` when the setting is unset or empty),
  and the `origin` callback, which allows a request with no or an empty
  `Origin` header or one whose origin is on the list, and otherwise reports
  the error "Not allowed by CORS";
- **`POST /api/contact`**: a truthy honeypot field `trap` is answered 400
  "Form submission blocked."; then any falsy `name`, `email`, `subject` or
  `message` is answered 400 "Name, email, subject, and message are
  required."; otherwise one parameterised insert with the parameters
  `[name, email, subject, message]` runs, and the answer is 201 with the first
  returned row or 500 "Failed to submit contact form.";
- **`GET /`**: one `SELECT NOW()`, answered 200 with the database time or 500
  with a fixed degraded message.

JavaScript values and truthiness are modelled explicitly (`JsValues`):
`undefined`, `null`, `false`, `0` and `""` are falsy, every other value,
including `"0"`, `"   "` and `"x"`, is truthy. `String.prototype.trim` removes
ECMAScript's WhiteSpace and LineTerminator code points, all of which are
listed in `Strings.IsWhitespace`.

The database is the class `Store.Pool`: it counts the clients checked out
and logs every query issued. What the database does on one request is a
parameter, `StoreOutcome`: the connection is refused, the query fails, or
the query returns rows. Each handler is a method over the pool with the
handler's own early returns, proved equal to a specification function
(`ContactResponse`, `HealthResponse`), and the properties are lemmas about
those functions.

Two consequences of the code as written are part of the model:

- `client.release()` runs only after a successful query, so a query that
  fails leaves its client checked out (`PostContact` and `GetRoot` say so in
  their contracts).
- `GET /` reads `result.rows[0].now` inside its `try`, so a query that
  resolves with no rows is also answered 500. For a database that gives
  `SELECT NOW()` its one row, the route is 200 exactly when the query
  succeeds (`HealthyIffQuerySucceeds`).

The service as written sends no e-mail or other notification about a
submission, so the model has none.

Modules: `Wrappers` (Option), `JsValues`, `Strings`, `Cors`, `Store`,
`Http` (responses), `Contact`, `Health`.

## Model

| member | source | states |
|---|---|---|
| `JsValues.FalsyValues` | server.js:66-70 | JavaScript truthiness (`Truthy`): `undefined`, `null`, `false`, `0` and `""` are falsy; every other value, `"0"`, `"   "` and any object or array included, is truthy |
| `JsValues.OfOptional` | server.js:36 | a string that may be absent (a header, a setting) is truthy exactly when it is present and non-empty |
| `Strings.TrimStart` | server.js:26 | the leading-whitespace part of `trim`: a suffix of the input, what it dropped is all whitespace, and it does not start with whitespace |
| `Strings.TrimEnd` | server.js:26 | the trailing-whitespace part of `trim`: a prefix of the input, what it dropped is all whitespace, and it does not end with whitespace |
| `Strings.Trim` | server.js:26 | `trim()`: no longer than its input, neither starting nor ending with whitespace, and empty exactly when the input is all whitespace |
| `Strings.TrimOf` | server.js:26 | trimming `a + m + b`, with `a` and `b` all whitespace and `m` without whitespace at its ends, gives exactly `m` |
| `Strings.TrimsCharacter` | server.js:26 | `IsWhitespace` is exactly the set of code points `trim` removes: ECMAScript WhiteSpace and LineTerminator |
| `Strings.TrimIdempotent` | server.js:26 | trimming a trimmed string changes nothing |
| `Strings.TrimKeeps` | server.js:26 | every character of a trimmed string occurs in the original |
| `Strings.Split` | server.js:26 | `split(",")`: at least one piece, and no piece contains the separator |
| `Strings.SplitCount` | server.js:26 | a split has one piece per separator in the string, plus one |
| `Strings.JoinSplit` | server.js:26 | joining the pieces of a split with the separator gives back the string |
| `Strings.SplitJoin` | server.js:26 | splitting a join of separator-free pieces gives back the pieces, so the pieces are the comma-separated parts in order |
| `Strings.IndexOf` | server.js:36 | `indexOf`: -1 exactly when the value is absent, otherwise the first position holding it |
| `Cors.AllowedOrigins` | server.js:24-30 | never empty; `["http://localhost:3001"]` when the setting is unset or empty; otherwise one entry per comma plus one, entry `i` being the trimmed piece `i` |
| `Cors.LoadAllowedOrigins` | server.js:24-30 | the start-up if/else assigns exactly the allow-list `AllowedOrigins` describes |
| `Cors.CheckOrigin` | server.js:33-41 | allowed exactly when the origin is absent, empty or on the list; every other origin is rejected with "Not allowed by CORS", never allowed |
| `Cors.AllowedOriginsOfList` | server.js:25-26 | a setting written as comma-separated origins yields those origins trimmed, in the order written |
| `Cors.DefaultGate` | server.js:27-40 | without a setting, only requests with no or an empty origin and those from `http://localhost:3001` pass |
| `Cors.CommaOriginRejected` | server.js:26-40 | an origin containing a comma is rejected whatever the setting, since no allow-list entry can contain one |
| `Cors.TwoOriginSetting` | server.js:25-26 | a setting `"a, b"` yields the list `[a, b]`, the space after the comma trimmed away |
| `Cors.TwoOriginGate` | server.js:25-40 | under a setting `"a, b"` exactly the empty origin, `a` and `b` pass; any other origin gets the CORS error |
| `Store.Pool.constructor` | server.js:11-13 | a new pool has no client checked out and has issued no query |
| `Store.Pool.Connect` | server.js:77 | a client is checked out unless the database refuses the connection; no query is issued |
| `Store.Pool.Run` | server.js:78-81 | the query is appended to the log and yields the database's rows, or fails |
| `Store.Pool.Release` | server.js:82 | one client fewer is checked out; no query is issued |
| `Contact.Classify` | server.js:64-75 | the trap check comes first; a falsy field rejects next; an accepted form's insert parameters are name, email, subject, message, all truthy, in that order |
| `Contact.ContactResponse` | server.js:63-92 | 400 exactly when the form is rejected; 201 exactly when accepted and the insert returns, with `data` the first returned row; otherwise 500 with the fixed message and no row |
| `Contact.ContactQueries` | server.js:76-81 | at most one query, issued exactly when the form is accepted and a client was obtained, and it is the insert of the accepted parameters |
| `Contact.PostContact` | server.js:63-92 | the handler answers `ContactResponse`, issues exactly `ContactQueries`, and leaves one client checked out exactly when the insert fails |
| `Contact.TrapTakesPrecedence` | server.js:66-74 | a truthy trap is answered 400 "Form submission blocked." whatever the other fields, missing ones included, and nothing reaches the store |
| `Contact.MissingFieldRejected` | server.js:70-74 | with no trap, a falsy name, email, subject or message is answered 400 with the required-fields message and nothing reaches the store |
| `Contact.NoFormatCheck` | server.js:70-81 | any four non-empty strings, whitespace-only or malformed, are accepted and sent to the insert unchanged |
| `Contact.ExactlyOneInsert` | server.js:76-81 | a valid submission on a working connection issues exactly one insert, parameters in the order name, email, subject, message |
| `Contact.TrapNeverStored` | server.js:64-81 | submissions differing only in a falsy trap get the same response and the same queries: the trap never reaches the store |
| `Contact.StoreDecidesValidSubmission` | server.js:84-91 | for a valid submission, a returned row gives 201 with exactly that row as `data`; a failed connection or insert gives 500 with the fixed message |
| `Contact.RejectedScenarios` | server.js:66-74 | a blank name is answered with the required-fields error and a filled trap with the blocked error, neither stored |
| `Health.HealthResponse` | server.js:47-61 | 200 with the database's `now` exactly when the query returns a row; otherwise 500 with the fixed degraded message |
| `Health.GetRoot` | server.js:47-61 | the handler answers `HealthResponse`, issues `SELECT NOW()` once a client is obtained, and leaves the client checked out when the query fails |
| `Health.HealthyIffQuerySucceeds` | server.js:48-59 | when the query, on success, yields its one row, the route is 200 exactly when the query succeeds and 500 otherwise |

## Left out

- Express routing, middleware order and body parsing (`express.json`, `express.urlencoded`): the parsed body is the input record `ContactForm`; a body field that is absent reads as `Undefined`.
- What the `cors` middleware does with the callback's answer (preflight handling, `optionsSuccessStatus`, the response to a rejected origin): library behaviour outside `server.js`; the model stops at the callback's verdict.
- The PostgreSQL client: pool construction, the SQL text and how `pg` turns parameters into SQL values. Queries are `SelectNow` and `InsertContact(params)`, and what the database answers is the `StoreOutcome` parameter.
- `pool.on("error")` ending the process: process lifecycle, outside any request.
- `dotenv`, reading `PORT`, `DATABASE_URL` and `FRONTEND_URL` from the environment (the setting is a parameter of `AllowedOrigins`), `app.listen` and all console logging.
- The formatting of the database time into the 200 text of `GET /`: the body `RunningText` carries the raw `now` value.
- Numbers in a body are rationals: -0 is represented by `Num(0.0)` and an infinite value by any nonzero `Num`, with the same truthiness; NaN cannot come from JSON or form parsing.
- The pool's capacity: `pool.connect()` waiting when every client is checked out is not modelled, so the consequence of a client left checked out after a failed query (later requests waiting) is not captured; `Store.Pool.Connect` depends only on the outcome.
- Concurrency between requests: each handler call is modelled as running alone on the pool.
