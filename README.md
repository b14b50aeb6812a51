# SQL sandbox pipeline — a Dafny model

This project models the part of the SQL-learning backend that runs untrusted
student SQL. It covers three pieces.

- **The query validator** (`validateQuery`, `isSelectQuery`, `QUERY_ROW_LIMIT`).
  It decides whether a text may run. If it may, it produces the text that is
  actually sent: surrounding whitespace and the one trailing `;` removed, and
  ` LIMIT <n>` appended to a SELECT that has no LIMIT.
- **The sandbox executor** (`executeSandboxQuery`). It leases a pooled
  PostgreSQL connection and sends BEGIN, the two `SET LOCAL` timeouts, the
  statement and ROLLBACK. On any failure it tries one more ROLLBACK and ignores
  that attempt's outcome. It maps the fault to a caller-safe message and
  releases the connection on every path.
- **The execute endpoint** (`executeQuery`), which chains validation,
  execution and the HTTP response. Also modelled: the hint endpoint's handling
  once the assignment lookup has answered, including its hint-level
  normalisation.

Modules:

- `JsText` (js_text.dfy) holds the JavaScript built-ins the code relies on:
  - `trim()` and the `\s` whitespace set;
  - counting one character;
  - `split('\n')[0]`;
  - integer rendering in a template literal;
  - `parseInt(x) || default`.
- `WordMatch` (word_match.dfy) gives `/\b(W1|…|Wn)\b/i` both as the engine's
  left-to-right scan (`Test`) and as a declarative meaning
  (`ContainsAnyWholeWord`), proved equal. `\b` uses the ASCII word characters
  `[A-Za-z0-9_]`, and `/i` folds ASCII letters only. So `last_update` and
  `dropped` contain no whole-word UPDATE or DROP, while `pg_sleep` is one
  whole word.
- `QueryValidator` (query_validator.dfy) holds the validator.
  `ValidatorExamples` (validator_examples.dfy) restates the validator's unit
  tests as lemmas.
- `DbService` (db_service.dfy) holds the executor.
  - `Pool` and `Client` are classes: the pool counts leased connections, and
    a client records every command sent and every release.
  - The server's answers are a parameter `replies`: the reply to the k-th
    command on the connection.
  - `ExpectedLog` and `ExpectedResult` state what the protocol must produce,
    and `ExecuteSandboxQuery` is proved against them.
- `AssignmentController` (assignment_controller.dfy) holds both endpoints as
  functions. The executor, the assignment lookup and the hint service are
  parameters.

The destructive-keyword check runs before the statement-terminator check, so
`SELECT * FROM users; DELETE FROM users` is refused with the
destructive-operations error. The unit test at
`backend/test/queryValidator.test.js:18-23` expects the multiple-statements
error instead. The model follows the code:
`ValidatorExamples.SecondStatementIsDestructive` states what the code does.

Two further consequences of the code as written, which no test covers:

- A lone `;` is accepted, and the text sent to the database is empty
  (`ValidatorExamples.LoneTerminatorIsAccepted`).
- The driver's `rowCount` is passed to the client as it is, so it is `null`
  for a statement whose completion carries no count, such as that empty text,
  `EXPLAIN` or `SHOW`. The model keeps it optional.

## Model

| member | source | states |
|---|---|---|
| JsText.Trim | backend/services/queryValidator.js:34 | the result has no whitespace at either end, and it is empty exactly when the input is all whitespace |
| JsText.TrimSplit | backend/services/queryValidator.js:34 | the input is a whitespace prefix, then the trimmed text, then a whitespace suffix |
| JsText.TrimOfTrimmed | backend/services/queryValidator.js:73 | trimming a text that has no whitespace at either end changes nothing |
| JsText.TrimIdempotent | backend/services/queryValidator.js:73 | trimming twice is trimming once |
| JsText.CountChar | backend/services/queryValidator.js:61 | the `/;/g` match count equals the number of occurrences of the character in the text |
| JsText.FirstLine | backend/services/dbService.js:78 | `split('\n')[0]` is the longest prefix with no line feed: it is followed by a line feed or by the end |
| JsText.NatToDecimal | backend/services/queryValidator.js:78 | the digits of a natural number are non-empty and have no leading zero; 0 is `0` |
| JsText.IntToDecimal | backend/services/queryValidator.js:78 | the rendering is a minus sign exactly when the number is negative, then digits with no leading zero, so 0 is `0` and never `-0` or `00` |
| JsText.IntToDecimalRoundTrip | backend/services/queryValidator.js:78 | the rendered integer reads back as the same integer |
| JsText.NatToDecimalRoundTrip | backend/services/queryValidator.js:78 | the digits of a natural number read back as that number |
| JsText.IntOrDefault | backend/services/queryValidator.js:16 | `parseInt(x) \|\| d` is the parsed value unless it is NaN or 0, in which case it is `d`; never 0 when `d` is not |
| WordMatch.AsciiUpper | backend/services/queryValidator.js:19 | case folding keeps word characters and letters what they are |
| WordMatch.AlternativesAt | backend/services/queryValidator.js:19 | trying the alternatives in order at one position succeeds exactly when some alternative matches there as a whole word |
| WordMatch.SearchFrom | backend/services/queryValidator.js:19 | the scan from position `i` succeeds exactly when some alternative matches as a whole word at some position from `i` on |
| WordMatch.Test | backend/services/queryValidator.js:19-22 | the regex test succeeds exactly when the text contains one of the alternatives as a whole word, in any case |
| WordMatch.WholeWordAtSplit | backend/services/queryValidator.js:19 | across a non-word character, a whole-word match lies entirely on one side |
| WordMatch.ContainsAnySplit | backend/services/queryValidator.js:19 | a text split by a non-word character contains a listed word exactly when one of its two sides does |
| WordMatch.ContainsAnyPadded | backend/services/queryValidator.js:42 | non-word characters around a text change nothing about the listed words it contains |
| WordMatch.SingleWordContains | backend/services/queryValidator.js:19 | in a text made only of word characters, a keyword matches only as the entire text |
| WordMatch.NoLettersNoKeyword | backend/services/queryValidator.js:78 | a text with no letters contains no keyword |
| WordMatch.ShapeRulesOut | backend/services/queryValidator.js:19 | a single word whose length and upper-cased initial no listed keyword has contains none of them |
| WordMatch.NoListedWordInJoin | backend/services/queryValidator.js:19 | words of foreign shape joined by non-word characters contain no listed keyword |
| QueryValidator.RowLimit | backend/services/queryValidator.js:16 | the row limit is the configured value, or 500 when it is unset, unparsable or 0; it is never 0 |
| QueryValidator.SelectPrefixTest | backend/services/queryValidator.js:77 | `/^\s*SELECT\b/i` holds exactly when, after leading whitespace, SELECT follows in any case and ends a word |
| QueryValidator.LimitClause | backend/services/queryValidator.js:78 | the cap is ` LIMIT ` followed by digits that read back as the row limit |
| QueryValidator.StripTerminator | backend/services/queryValidator.js:73 | a text without a final `;` is kept; otherwise the `;` and the whitespace before it are removed, leaving a trimmed prefix of a trimmed text |
| QueryValidator.NeedsRowCap | backend/services/queryValidator.js:77 | the cap is needed exactly when the statement begins with the word SELECT and has no whole-word LIMIT |
| QueryValidator.TerminatorMisplaced | backend/services/queryValidator.js:61-64 | more than one `;`, or one that is not last, exactly when a `;` occurs before the last character |
| QueryValidator.Sanitize | backend/services/queryValidator.js:73-79 | the accepted text is the statement without its terminator, with the cap appended exactly when it begins with the word SELECT and has no whole-word LIMIT |
| QueryValidator.SelectStartsAfterWhitespace | backend/services/queryValidator.js:77 | SELECT can only begin where the leading whitespace ends |
| QueryValidator.ValidateQuery | backend/services/queryValidator.js:29-39 | the verdict is well formed (`valid` iff no error iff a sanitized text); a falsy or non-string input gets the non-empty-string error; a whitespace-only string gets the empty-query error |
| QueryValidator.ValidateTrimmed | backend/services/queryValidator.js:37-81 | the verdict on the trimmed text is well formed, and it is the empty-query error exactly when the text is empty |
| QueryValidator.VerdictOrder | backend/services/queryValidator.js:30-70 | on the raw input, each error occurs exactly when its check is the first to fail (input, empty, destructive, dangerous, a `;` before the end of the trimmed text), and the input is accepted exactly when none fails |
| QueryValidator.TrimmedVerdict | backend/services/queryValidator.js:37-81 | the same order on the trimmed text; an accepted text is sanitized by `Sanitize` |
| QueryValidator.TrimKeepsChecks | backend/services/queryValidator.js:34-64 | trimming changes neither what the two blacklists find nor the number of `;` |
| QueryValidator.AcceptedTrimmed | backend/services/queryValidator.js:30-34 | an accepted input is a string, and its verdict is that of its trimmed text |
| QueryValidator.AcceptedTrimmedText | backend/services/queryValidator.js:61-70 | an accepted trimmed text is non-empty and has at most one `;`, and it has one exactly when it ends with it |
| QueryValidator.StripTerminatorSplit | backend/services/queryValidator.js:73 | the trimmed text is the stripped statement followed by whitespace and `;` characters, one `;` exactly when the text ends with one |
| QueryValidator.StatementOfTrimmed | backend/services/queryValidator.js:61-73 | for an accepted trimmed text, the stripped statement holds no `;` and has no whitespace at either end |
| QueryValidator.AcceptedText | backend/services/queryValidator.js:73-81 | an accepted text is the input minus its outer whitespace and trailing `;`, with ` LIMIT <n>` appended exactly when it is a SELECT without a whole-word LIMIT |
| QueryValidator.IsSelectQuery | backend/services/queryValidator.js:89-91 | true exactly when the trimmed text starts with SELECT, in any case, followed by the end or a non-word character |
| QueryValidator.SelectTestOnTrimmed | backend/services/queryValidator.js:90 | on a trimmed text the SELECT test looks only at its first seven characters |
| QueryValidator.TrimmedInput | backend/services/queryValidator.js:34 | a non-empty text without outer whitespace is judged as it stands |
| QueryValidator.LimitIsNotBlacklisted | backend/services/queryValidator.js:19-22 | no destructive keyword or dangerous function spells LIMIT |
| QueryValidator.RowCapAddsNoListedWord | backend/services/queryValidator.js:78 | appending the row cap adds no listed word to the statement |
| QueryValidator.RowCapPosition | backend/services/queryValidator.js:77-78 | after the cap is appended to a statement without LIMIT, the whole word LIMIT occurs exactly once, in the cap |
| QueryValidator.RowCapShape | backend/services/queryValidator.js:78 | the capped text still has no `;` and no outer whitespace |
| QueryValidator.RowCapKeepsSafe | backend/services/queryValidator.js:77-78 | appending the cap to a safe statement keeps it safe: no `;`, no outer whitespace, no blacklisted word |
| QueryValidator.StatementIsClean | backend/services/queryValidator.js:73 | removing trailing whitespace and `;` keeps a text free of blacklisted words |
| QueryValidator.TrimmedStatementIsSafe | backend/services/queryValidator.js:42-73 | the stripped statement of an accepted text is safe |
| QueryValidator.TrimmedSanitizedIsSafe | backend/services/queryValidator.js:42-79 | the sanitized text of an accepted trimmed text is safe |
| QueryValidator.SanitizedIsSafe | backend/services/queryValidator.js:42-81 | an accepted query's text has no `;`, no outer whitespace and no destructive or dangerous word |
| QueryValidator.SanitizeIsFixed | backend/services/queryValidator.js:73-79 | sanitizing a sanitized text changes nothing: nothing left to strip, no second cap |
| QueryValidator.TrimmedRevalidation | backend/services/queryValidator.js:37-81 | an accepted, non-empty sanitized text is accepted again unchanged |
| QueryValidator.RevalidationIsStable | backend/services/queryValidator.js:29-81 | validating a non-empty accepted output again gives the same verdict and the same text |
| ValidatorExamples.RefusedAsDestructive | backend/services/queryValidator.js:42-48 | a non-blank text with a destructive keyword is refused for it, whatever else it holds |
| ValidatorExamples.RefusedAsDangerous | backend/services/queryValidator.js:51-57 | a non-blank text with a dangerous function and no destructive keyword is refused for the function |
| ValidatorExamples.AcceptedAsIs | backend/services/queryValidator.js:73-81 | a clean, trimmed text without `;` is accepted, capped exactly when it is an uncapped SELECT |
| ValidatorExamples.AcceptedWithRowCap | backend/services/queryValidator.js:77-79 | a clean SELECT without LIMIT is accepted with the cap appended |
| ValidatorExamples.CleanTrimmedIsAccepted | backend/services/queryValidator.js:61-81 | a clean trimmed text whose `;`, if any, is last, is accepted with its sanitized text |
| ValidatorExamples.DefaultLimitClause | backend/services/queryValidator.js:78 | the default cap reads ` LIMIT 500` |
| ValidatorExamples.DropIsDestructive | backend/test/queryValidator.test.js:11-16 | `DROP TABLE users` gets the destructive-operations error |
| ValidatorExamples.SecondStatementIsDestructive | backend/test/queryValidator.test.js:18-23 | `SELECT * FROM users; DELETE FROM users` gets the destructive error, not the multiple-statements error the test expects |
| ValidatorExamples.SelectWhereIsAccepted | backend/test/queryValidator.test.js:25-31 | `SELECT * FROM users WHERE id = 1` is accepted, with ` LIMIT 500` appended to the text that runs |
| ValidatorExamples.SelectGetsRowCap | backend/test/queryValidator.test.js:33-38 | `SELECT * FROM users` becomes `SELECT * FROM users LIMIT 500` |
| ValidatorExamples.ExistingLimitIsKept | backend/test/queryValidator.test.js:40-45 | `SELECT * FROM users LIMIT 10` is accepted unchanged, so it keeps its single LIMIT |
| ValidatorExamples.SleepIsDangerous | backend/test/queryValidator.test.js:47-52 | `SELECT pg_sleep(10)` gets the dangerous-functions error |
| ValidatorExamples.EmbeddedKeywordsAreAccepted | backend/services/queryValidator.js:19-22 | `SELECT last_update FROM dropped` is accepted: keywords inside longer words do not match |
| ValidatorExamples.LoneTerminatorIsAccepted | backend/services/queryValidator.js:61-81 | `;` alone is accepted and leaves the empty text to run |
| ValidatorExamples.SelectRecognised | backend/services/queryValidator.js:89-91 | a trimmed text opening with the word SELECT is a SELECT query |
| ValidatorExamples.SelectIsDetected | backend/test/queryValidator.test.js:55 | `SELECT * FROM users` is a SELECT query |
| ValidatorExamples.IndentedLowerCaseSelectIsDetected | backend/test/queryValidator.test.js:56 | `  select id from orders` is a SELECT query |
| ValidatorExamples.UpdateIsNotSelect | backend/test/queryValidator.test.js:57 | `UPDATE users SET name = "test"` is not a SELECT query |
| DbService.TimeoutMs | backend/services/dbService.js:6-7 | each timeout is the configured value, or 2000 ms when it is unset, unparsable or 0 |
| DbService.StatementTimeoutCommand | backend/services/dbService.js:33 | the command is `SET LOCAL statement_timeout = '`, digits that read back as the timeout, then `ms'` |
| DbService.LockTimeoutCommand | backend/services/dbService.js:34 | the command is `SET LOCAL lock_timeout = '`, digits that read back as the timeout, then `ms'` |
| DbService.Commands | backend/services/dbService.js:30-40 | five commands: BEGIN, the two settings, the user's statement fourth, then ROLLBACK; none but the user's can be COMMIT |
| DbService.Success | backend/services/dbService.js:48-54 | a success carries the reply's rows and count (`null` included) as they are, and each field reduced to its name and type id, in order |
| DbService.Failure | backend/services/dbService.js:83-89 | a failure carries no rows, no fields, a count of 0 and the fault's caller-safe message, which is one line |
| DbService.TimeoutCommandsDefault | backend/services/dbService.js:33-34 | with the defaults the commands read `SET LOCAL statement_timeout = '2000ms'` and `SET LOCAL lock_timeout = '2000ms'` |
| DbService.SanitizeError | backend/services/dbService.js:66-79 | the caller-safe message never contains a line feed |
| DbService.ErrorMappingTable | backend/services/dbService.js:66-79 | 57014, 42P01, 42703 and 42601 get their fixed messages; otherwise the first line of a non-empty message; otherwise `Query execution failed` |
| DbService.ProjectFields | backend/services/dbService.js:43-46 | the fields keep their number and order, each reduced to its name and type id |
| DbService.FirstFault | backend/services/dbService.js:28-40 | the position of the first failing reply: every earlier reply succeeded |
| DbService.Pool.Connect | backend/services/dbService.js:26 | a failed connect leases nothing; a successful one leases one fresh connection with an empty log |
| DbService.Client.Query | backend/services/dbService.js:30-40 | the command is appended to the log and answered by the reply for its position |
| DbService.Client.Release | backend/services/dbService.js:91-93 | the release is counted and the connection goes back to the pool |
| DbService.FaultPersists | backend/services/dbService.js:28-56 | once a command has failed, the later commands of the try block are skipped |
| DbService.Step | backend/services/dbService.js:30-40 | one awaited command: sent and recorded while nothing has failed, skipped after a failure |
| DbService.TryBlock | backend/services/dbService.js:28-40 | the five commands are sent in order up to and including the first that fails; the fourth reply is the user statement's |
| DbService.ExecuteSandboxQuery | backend/services/dbService.js:25-94 | a failed connect escapes and leases nothing; otherwise the connection gets exactly `ExpectedLog`, the call returns `ExpectedResult`, the connection is released exactly once and the pool's lease count is restored |
| DbService.BeginsAndRollsBack | backend/services/dbService.js:30-62 | every path opens with BEGIN and ends with ROLLBACK, in two to six commands |
| DbService.NeverCommits | backend/services/dbService.js:30-62 | apart from the user's statement, every command is BEGIN, a timeout or ROLLBACK; COMMIT appears only when it is the user's own statement |
| DbService.SuccessMeansFullProtocol | backend/services/dbService.js:30-54 | success exactly when all five commands succeed, and then the log is exactly those five commands |
| DbService.SuccessCarriesUserResult | backend/services/dbService.js:43-54 | a success carries the user statement's rows and count untouched and its fields projected in order |
| DbService.FailureShape | backend/services/dbService.js:83-89 | every failure has no rows, no fields, a zero count and a one-line message |
| DbService.FailedRun | backend/services/dbService.js:56-89 | after the first failure at position `i`, the result is that failure mapped, and the log is the commands up to `i` then ROLLBACK |
| DbService.RecoveryRollbackIgnored | backend/services/dbService.js:56-62 | replies after the first failure, including the recovery ROLLBACK's, change neither the result nor the log |
| DbService.FirstFaultDependsOnPrefix | backend/services/dbService.js:28-40 | the first failure depends only on the replies up to it |
| DbService.NoFaultDependsOnPrefix | backend/services/dbService.js:28-40 | that no command has failed depends only on the replies so far |
| AssignmentController.BadRequest | backend/controllers/assignmentController.js:70-75 | a refusal is a 400 whose body carries the error, empty rows and fields, and no `rowCount` |
| AssignmentController.ExecuteQuery | backend/controllers/assignmentController.js:65-120 | the status is 200, 400 or 500; success exactly when 200; every non-200 body has no rows, no fields and no count; a response sent without executing carries an error |
| AssignmentController.MissingSqlIsRefused | backend/controllers/assignmentController.js:69-76 | a missing or falsy `sql` gets 400 `SQL query is required`, and nothing is executed |
| AssignmentController.RejectedNeverExecuted | backend/controllers/assignmentController.js:79-88 | a rejected query gets 400 with the validator's error, and nothing is executed |
| AssignmentController.ExecutorGetsSanitizedText | backend/controllers/assignmentController.js:79-91 | the executor runs exactly when the validator accepts, and it receives exactly the sanitized text |
| AssignmentController.ExecutedTextIsSafe | backend/controllers/assignmentController.js:79-91 | whatever reaches the executor has no `;` and no blacklisted word |
| AssignmentController.ExecutionOutcomes | backend/controllers/assignmentController.js:91-119 | a thrown fault gives 500 with the generic message; a failure gives 400 with the executor's error; a success gives 200 with rows, fields and count copied |
| AssignmentController.ThrownFaultIsHidden | backend/controllers/assignmentController.js:111-119 | the response to a thrown fault does not depend on the fault |
| AssignmentController.SandboxFailureIsOneLine | backend/controllers/assignmentController.js:93-100 | behind the sandbox executor, a failing statement reaches the client as a 400 with a one-line error |
| AssignmentController.NormalizeHintLevel | backend/controllers/assignmentController.js:135-136 | the level is always low, medium or high: the requested one when it is one of these, otherwise low |
| AssignmentController.NormalizeHintLevelIdempotent | backend/controllers/assignmentController.js:135-136 | normalising a normalised level changes nothing |
| AssignmentController.HintSql | backend/controllers/assignmentController.js:158 | a truthy text reaches the hint service as it is; the only falsy value the service ever receives is the empty string |
| AssignmentController.GetAssignmentHint | backend/controllers/assignmentController.js:139-181 | a missing assignment gets 404, a failed lookup gets 500, a found one gets 200 |
| AssignmentController.HintServiceCall | backend/controllers/assignmentController.js:158-171 | the service is asked at the normalised level; an error from it gives the fallback hint, otherwise its answer with a null error |

## Left out

- `testConnection` (backend/services/dbService.js:100-108) is a health check that is not part of the pipeline.
- The pool is a lease counter. Queueing, concurrency, connection reuse and the pool's configuration are not modelled.
- PostgreSQL itself is not modelled: how the statement runs, its timeouts, the read-only role and the rows it returns. Each reply is the parameter `replies`.
- A reply whose `fields` is missing is not modelled, so `fields.map` never throws after the try block's ROLLBACK; every successful reply carries a field list.
- `console` logging and `dotenv` loading are left out. The configured values are parameters of `RowLimit` and `TimeoutMs`.
- `parseInt` of a configuration string is not modelled. Its outcome is given as `Option<int>`, with `None` for NaN.
- IntToDecimal: numbers of magnitude 10^21 or more, which JavaScript renders in exponent notation, are rendered in plain digits.
- A JavaScript string is a sequence of UTF-16 code units, while a Dafny string is a sequence of Unicode scalar values. Lone surrogates cannot be represented. Characters outside the Basic Multilingual Plane count once instead of twice, which changes no verdict.
- A non-string JavaScript value is reduced to its truthiness (`JsOther`).
- ExecuteQuery: a request without a body, where destructuring throws and the catch answers 500, is not modelled; the model takes `sql` directly.
- The assignment lookup (Mongo) is the parameter `Lookup`. The LLM hint service (`getHint`, `getFallbackHint`) is a pair of function parameters whose answers are taken as given.
- GetAssignmentHint: a throw from the hint service itself, also answered with 500 by the catch at backend/controllers/assignmentController.js:173-181, is not modelled; only a failing lookup reaches the 500 path.
- `listAssignments`, `getAssignment`, the frontend, the seed scripts and the server wiring are not part of this model.
