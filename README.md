# To-do list backend: request handling, verified model

A Dafny model of the request-handling core of a small Express/knex service
(`src/index.ts`) that keeps a `users` table and a `tasks` table and exposes
seven routes: GET/POST `/users`, DELETE `/users/:id`, GET/POST `/tasks`,
PUT and DELETE `/tasks/:id`.

Each handler validates its input with an ordered list of checks and stops at
the first that fails. It then looks up existing rows, changes one table (an
insert, update or delete), and replies. A failure carries the status the
handler set with `res.status(..)` before throwing, which may be none, and the
error it threw.

Modules, one per concern:

- `Json` (json.dfy): request-body values as JavaScript sees them (`undefined`, `null`, booleans, numbers with NaN, strings, objects/arrays).
- `Errors` (errors.dfy): the handlers' error reasons and their message texts, the rejection record (explicit status or none, plus the error), and the reply type.
- `Checks` (checks.dfy): ordered short-circuit validation as a list of steps and the index of the first step that fails.
- `Password` (password.dfy): the password regular expression read with JavaScript semantics, and the plain policy it amounts to.
- `Rows` (rows.dfy): the two row types and the table invariants (rows keyed by id, emails unique).
- `Validation` (validation.dfy): the check lists of POST /users, POST /tasks and PUT /tasks/:id, and the record PUT writes (the merge).
- `Api` (api.dfy): every handler as a pure transition from (table, request) to (reply, table).
- `Server` (server.dfy): class `Service`, which holds both tables as fields. It has one method per route, written step by step, and each method's contract ties it to its `Api` transition.
- `Properties` (properties.dfy): lemmas that relate several handlers.

Behaviour modelled as the code has it:

- DELETE `/users/:id` tests `!` on the whole array of matching rows. Its "not found" branch therefore never fires: any id starting with `f` gets 200, whether or not a row existed.
- PUT and DELETE `/tasks/:id` destructure the first row before testing it. Their 404 branches do fire, and DELETE `/tasks/:id` removes nothing when the row is absent.
- The password check and the `f` prefix check of DELETE `/users/:id` throw without setting a status.
- The password pattern uses `.`, which does not match a line terminator (`\n`, `\r`, U+2028, U+2029). A password containing one is therefore rejected, even though a plain "8 to 12 characters with a lower-case letter, an upper-case letter, a digit and a special character" rule would accept it.
- The PUT merge uses `||` for the four text fields, so an empty string keeps the old value. A supplied `id` or `title` has passed the length-4 check, so it always replaces the old one. `status` uses `isNaN`, so 0 is stored.

## Model

| member | source | states |
|---|---|---|
| Errors.Message | src/index.ts:88-394 | the text of each of the handlers' own errors (their sixteen messages), each opening with the quoted name of the field at fault |
| Checks.FirstFailing | src/index.ts:86-113 | the index it returns is the first step that fails: every earlier step passes, and it is the list's length exactly when all steps pass |
| Checks.RunChecks | src/index.ts:86-113 | running the steps in order gives no rejection iff every step passes; otherwise it gives the rejection of a failing step before which every step passed |
| Checks.RunChecksStopsAt | src/index.ts:86-113 | whichever step fails first decides the rejection |
| Password.MatchesIsPolicy | src/index.ts:111 | the pattern with its four lookaheads and `.{8,12}$` matches iff the password has 8–12 characters, no line terminator, and a lower-case letter, an upper-case letter, a digit and a non-alphanumeric character |
| Password.LookaheadOnOneLine | src/index.ts:111 | on a string without line terminators, a `(?=.*[class])` lookahead holds iff the string contains a character of that class |
| Password.LineTerminatorRejects | src/index.ts:111 | a password containing a line terminator never matches |
| Password.AcceptedExample | src/index.ts:111 | "Senha123!" matches |
| Password.Matches | src/index.ts:111 | a matching password has 8–12 characters, no line terminator, and a lower-case letter, an upper-case letter, a digit and a non-alphanumeric character |
| Password.MissingClassRejects | src/index.ts:111 | a password lacking any one of the four classes (lower-case, upper-case, digit, non-alphanumeric) never matches |
| Password.NoUpperCaseExample | src/index.ts:111 | the literal "senha123!", which has no upper-case letter, does not match |
| Password.LengthExamples | src/index.ts:111 | passwords of 5 and of 14 characters do not match |
| Validation.ValidateNewUser | src/index.ts:84-113 | a POST /users body passes iff `id` is a string of at least 4 characters, `name` a string of at least 2, `email` a string, and `password` a string matching the pattern; the row it yields holds exactly the body's strings |
| Validation.NewUserRejectionOrder | src/index.ts:86-113 | the steps run in the order id type, id length, name type, name length, email type, password; each of the first five rejects with 400; a non-string password (TypeError) and a mismatched password reject with no status |
| Validation.ValidateNewTask | src/index.ts:222-247 | a POST /tasks body passes iff `id` and `title` are strings of at least 4 characters and `description` is a string; the new row holds the body's strings; every rejection is 400 |
| Validation.NewTaskRejectionOrder | src/index.ts:224-247 | the steps run in the order id type, id length, title type, title length, description type, each rejecting with 400 at the first failure |
| Validation.ValidatePatch | src/index.ts:292-342 | a PUT /tasks body passes iff each field is `undefined` or of its type (`id` and `title` strings of at least 4 characters, `description`/`createdAt` strings, `status` a number, `null` being none of them); the patch keeps exactly what was supplied; every rejection is 400 |
| Validation.PatchRejectionOrder | src/index.ts:298-342 | the first present-but-ill-typed field in the order id, title, description, createdAt, status decides the 400 rejection |
| Validation.MergeTask | src/index.ts:350-356 | every column of the merged record is either the old value or the supplied one, and a non-empty old text column never becomes empty |
| Validation.MergeFields | src/index.ts:350-356 | a validated `id` or `title` always replaces the old one; `description` and `createdAt` are replaced only by a non-empty string, so an absent or empty one keeps the old value; `status` is replaced by any non-NaN number, including 0, and kept when absent or NaN |
| Validation.MergeIdempotent | src/index.ts:350-356 | applying the same patch twice gives the same record as applying it once |
| Validation.MergeEmptyPatch | src/index.ts:350-356 | an empty patch leaves the record unchanged |
| Api.ContainsText | src/index.ts:63 | `LIKE '%q%'` read as containment: a prefix is contained, a contained term is no longer than the text, and a term of the text's length is contained only if it is the text |
| Api.SearchUsers | src/index.ts:56-65 | with no `q` every user is returned; with `q`, exactly the users whose name contains `q` |
| Api.SearchTasks | src/index.ts:192-202 | with no `q` every task is returned; with `q`, exactly the tasks whose title or description contains `q` |
| Api.CreateUser | src/index.ts:115-140 | a validation rejection is the reply; a taken id gives 400 before a taken email is checked, and a taken email gives 400; either way the table is unchanged; otherwise the reply is 201 with the new row, the table gains exactly that row and one entry, and id-keying and email uniqueness are preserved |
| Api.DeleteUser | src/index.ts:160-172 | an id not starting with 'f' is rejected with no status and no change; every other id gets 200, and the table loses exactly the row with that id (none if absent); no other row changes |
| Api.CreateTask | src/index.ts:249-268 | a validation rejection is the reply; a taken id gives 400 with no change; otherwise the reply is 201 with the stored row (the database defaults for created_at and status filled in), and the table gains exactly that one row |
| Api.UpdateTask | src/index.ts:344-363 | a validation rejection is the reply; a missing path id gives 404 with no change; otherwise the reply is 200 with the merged row, which replaces the row under the path id (re-keyed if its id changed) unless its new id belongs to another row, which is rejected with no status as a duplicate key; rows under other ids are unchanged and the table keeps its size |
| Api.RekeyedSize | src/index.ts:358 | rewriting the row under the path id with a record whose id is the same, or not yet used, keeps the table's size |
| Api.DeleteTask | src/index.ts:386-398 | an id not starting with 't' gives 400; an absent id gives 404; either way the table is unchanged; otherwise 200 and exactly that row is removed, no other row changing |
| Server.Service.GetUsers | src/index.ts:54-65 | the status is 200 and the rows are those of Api.SearchUsers on the current table |
| Server.Service.GetTasks | src/index.ts:190-202 | the status is 200 and the rows are those of Api.SearchTasks on the current table |
| Server.Service.CreateUser | src/index.ts:82-141 | the handler's steps give the reply and new `users` table of Api.CreateUser, leave `tasks` untouched and keep the table invariants |
| Server.Service.DeleteUser | src/index.ts:158-172 | the handler's steps give the reply and new `users` table of Api.DeleteUser, leave `tasks` untouched and keep the invariants |
| Server.Service.CreateTask | src/index.ts:220-268 | the handler's steps, the insert and the read-back, give the reply and new `tasks` table of Api.CreateTask |
| Server.Service.UpdateTask | src/index.ts:287-363 | the handler's steps, the validation, lookup, merge and update, give the reply and new `tasks` table of Api.UpdateTask |
| Server.Service.DeleteTask | src/index.ts:382-398 | the handler's steps give the reply and new `tasks` table of Api.DeleteTask |
| Properties.CreatedUserIsListed | src/index.ts:135-140 | a user just created appears in the unfiltered listing and when searching for its own name |
| Properties.CreatedTaskIsListed | src/index.ts:261-268 | a task just created appears when searching for its title and when searching for its description |
| Properties.CreateThenDeleteUser | src/index.ts:171 | deleting a user just created (its id starting with 'f') gives 200 and restores the table |
| Properties.CreateThenDeleteTask | src/index.ts:396 | deleting a task just created (its id starting with 't') gives 200 and restores the table |
| Properties.DeleteTwice | src/index.ts:165-171 | a second DELETE /users of the same id again gets 200 and changes nothing; a second DELETE /tasks gets 404 |
| Properties.EmptySearchTermMatchesAll | src/index.ts:63 | an empty search term lists every row, as `LIKE '%%'` does |
| Properties.UpdateOnlyTitle | src/index.ts:350-358 | a PUT with only a valid title rewrites the title, keeps every other column, and leaves the row under its id |
| Properties.UpdateStatusZero | src/index.ts:355 | a PUT with `status: 0` stores 0, every other column unchanged |
| Properties.UpdateEmptyDescriptionKeepsOld | src/index.ts:353 | a PUT with `description: ""` keeps the old row as it was |
| Properties.UpdateWithEmptyBody | src/index.ts:350-358 | a PUT with an empty body replies 200 with the row as it is and leaves the table unchanged |

## Left out

- Express and CORS set-up, `app.listen`, the `/ping` route, JSON encoding of replies and `console.log` are I/O plumbing, so they are not modelled.
- The final HTTP status chosen in the catch blocks is not modelled. The blocks test `req.statusCode`, whose value comes from Node/Express. A rejection is therefore modelled as an explicit status or none, plus the error, and the error's message is given by `Errors.Message`.
- The messages of errors the runtime raises are not modelled, because their text belongs to the JavaScript engine and the database driver. These are the TypeError of `password.match` on a non-string and the database's refusal of a duplicate key.
- The knex query builder and SQL are not modelled. Each table is a map from id to row, and each query is the corresponding map operation.
- Listing results are sets, because the order of the rows is the database's.
- `created_at` and `status` on task insert are database column defaults, so they are parameters of `CreateTask`.
- `LIKE` depends on the database collation for case sensitivity and treats `%` and `_` in the search term as wildcards. Search is modelled as plain, case-sensitive substring containment.
- A `q` given more than once arrives as an array. Only a single string or no `q` is modelled.
- Api.UpdateTask: when the merged row takes an id that another row already has, the model assumes `id` is the table's primary key and rejects the update with no status and no change. The schema is not part of this model.
- String lengths and `s[0]` are counted in Dafny characters (Unicode scalar values), not UTF-16 code units. The two differ for characters outside the Basic Multilingual Plane.
- Strings holding a lone surrogate (a JSON escape such as `"\ud800"` gives a JavaScript string of length 1) are not modelled, because a Dafny `string` cannot hold one.
- Numbers are real numbers plus NaN. Floating-point rounding is not modelled, and neither are ±Infinity: an overflowing numeral such as `1e400` parses to `Infinity`, passes the `status` type check of PUT /tasks/:id and would be stored, since `isNaN(Infinity)` is false, but `Json.Num` has no value for it.
- `async`/`await` and the races between an existence check and the following write are left out: the model runs one request at a time.
- The `src/database/knex` and `src/database/types` modules are not part of this model.
