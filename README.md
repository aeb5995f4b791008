# fiberextend, modelled in Dafny

fiberextend is a Go helper library around the fiber web framework. It provides the following:

- **A scenario test harness** (`IFiberExTest`).
  - `Run` wraps a scenario in a database transaction. Afterwards it resets the in-memory Redis and the Elasticsearch indices.
  - `Api`, `Job` and `Exec` evaluate a list of `ITestCase` assertions and report each one as `[Case<n>. <it>]`.
  - `ITestCase.assert` is a small comparison language of nine test methods.
  - `StructPath` reads a dotted field path out of any value with reflection. Any panic is recovered into nil.
- **API helpers.**
  - `Result` chooses the response envelope.
  - `ValidatePassword` is a password character-class rule.
  - `GetJsonTag`, `ValidationParser` and `SimpleValidation` turn validator errors into `IError` records.
- **Configuration and start-up.**
  - Typed getters read a free-form option map.
  - `RunCommand` selects a `run` sub-command.
  - The database step of `New`. Together with `NewDB`, it suffixes the database name in test mode, builds the MySQL or PostgreSQL connection string and opens it.
- **Errors.**
  - The error lists of the error codes.
  - An `Errors` wrapper that records the application's own stack frames.

The model is organised as follows:

- **Go values.** An `interface{}` value is the closed datatype `Values.Value`. Go's `==` on it is `Values.GoEqual`, which reports Same, Differ or Uncomparable. Uncomparable is the runtime panic for slices and maps.
- **Panics.** An unrecovered runtime panic (a failed type assertion, a nil function call, a reflection panic) is a value of its own: `Assertion.Outcome.Defect`, a `Result.Err`, or a `panic` out-parameter. It is never an ordinary failure.
- **Library calls become parameters.** These are:
  - `%+v` rendering, `regexp.Compile` and `Match`;
  - the JSON path lookup and JSON marshalling;
  - the apitest HTTP exchange;
  - scenario bodies and the `Store` and `Result` callbacks of a case;
  - `gorm.Open`;
  - `runtime.Caller`;
  - the validator's error list.
- **Mutable state.**
  - Objects whose fields the Go code updates are classes: `Scenario.TestCase`, `Scenario.FiberExTest`, `Db.DBConfig` and `Db.FiberExConfig`.
  - The loops that write into them are methods proved against specification functions.

The files, one module each, follow the Go files:

- wrappers.dfy (`Wrappers`): Option and Result.
- strs.dfy (`Strs`): the `strings` and `strconv` pieces used (Split, Join, Contains, decimal text).
- values.dfy (`Values`): `interface{}` values and Go `==`.
- utils.dfy (`Utils`): utils.go.
- assertion.dfy (`Assertion`): tests.go, `ITestCase.assert`.
- scenario.dfy (`Scenario`): tests.go, the harness.
- api.dfy (`Api`): api.go.
- db.dfy (`Db`): db.go.
- fiberextend.dfy (`FiberExtend`): fiberextend.go.
- errors.dfy (`ErrorTrace`): error.go.

## Model

| member | source | states |
|---|---|---|
| Values.GoEqual | tests.go:268-272 | Go `==` on interface values: a verdict of equal, or a comparison panic, only ever between values of the same dynamic type |
| Values.GoEqualReflexive | tests.go:268-272 | a value with no slice or map inside is `==` to itself |
| Values.GoEqualSymmetric | tests.go:268-272 | `a == b` and `b == a` give the same verdict, panic included |
| Values.DifferentTypesDiffer | tests.go:268-272 | values of different dynamic types are never equal and never panic |
| Values.ScalarEquality | tests.go:268-272 | on nil, bool, int, int64 and string, `==` is Same exactly when the values are identical |
| Assertion.EqualVerdict | tests.go:267-270 | Equal passes exactly when `value == Want`, fails with `assert equal: value: …, want: …` exactly when they differ, panics exactly when `==` panics |
| Assertion.NotEqualIsDual | tests.go:271-274 | NotEqual fails exactly where Equal passes, passes exactly where Equal fails, panics on the same inputs |
| Assertion.EqualAcrossTypes | tests.go:267-274 | a value of another variant than Want fails Equal and passes NotEqual |
| Assertion.EqualOnScalars | tests.go:267-274 | on scalars Equal fails exactly when `value != Want`, NotEqual exactly when `value == Want`, neither panics |
| Assertion.EqualToItself | tests.go:267-274 | a comparable value passes Equal against itself and fails NotEqual |
| Assertion.EqualOnSlicesPanics | tests.go:267-270 | Equal on two slices of one type is a comparison panic, not a failure |
| Assertion.ContainsVerdict | tests.go:275-278 | Contains fails exactly when the string value contains Want at some position, passes otherwise; a non-string value or Want panics |
| Assertion.ContainsEmptyFails | tests.go:275-278 | Contains with the empty Want always fails |
| Assertion.MatchesVerdict | tests.go:279-286 | a non-string Want panics; a pattern that does not compile fails with `assert match: <error>`; otherwise a string value fails exactly when the pattern does not match, a non-string value panics |
| Assertion.LenVerdict | tests.go:287-290 | Len fails exactly when the `[]any` length differs from the int Want; a value that is no `[]any`, or a Want that is no int, panics |
| Assertion.GreaterThanVerdict | tests.go:291-294 | GreaterThan fails exactly when `value < Want` on ints (equal passes); non-ints panic |
| Assertion.LessThanVerdict | tests.go:295-298 | LessThan fails exactly when `value > Want` on ints (equal passes); non-ints panic |
| Assertion.OrderingRejectsInt64 | tests.go:291-298 | an int64 value is not an int: both orderings panic |
| Assertion.OrderingComplementary | tests.go:291-298 | GreaterThan and LessThan never both fail, and both pass on equal ints |
| Assertion.Assert | tests.go:265-303 | a test method outside the seven the switch implements gives `error: not support TestMethod` |
| Assertion.UnsupportedMethods | tests.go:299-301 | Present, NotPresent and any number outside the nine methods give `error: not support TestMethod` |
| Scenario.TestCase.StoreAssert | tests.go:305-307 | the assertion applied to what Store reads from the current stores; a nil Store is a nil-function panic, and a panic inside Store is the case's panic, before any assertion |
| Scenario.TestCase.ResultAssert | tests.go:309-311 | the assertion applied to the case's stored result, a delegation to Assert, whose verdict lemmas above say what it means |
| Scenario.ItEntries | tests.go:148-153 | It logs a non-empty message and drops an empty one |
| Scenario.CaseEntry | tests.go:183-187 | a case is reported as an error exactly when it failed |
| Scenario.CaseEntryLabelled | tests.go:184-186 | every report starts with `[Case<i+1>. <it>]` |
| Scenario.Settled | tests.go:176-188 | the cases that complete before a panic are the longest panic-free prefix |
| Scenario.ReportsInOrder | tests.go:176-188 | one report per completed case, the k-th report for the k-th case |
| Scenario.NoShortCircuit | tests.go:176-188 | without a panic every case is reported in order, numbered from 1, an error exactly when it failed, so a failure never skips later cases |
| Scenario.DefectStops | tests.go:176-188 | a panicking case and all later ones go unreported |
| Scenario.PanicOf | tests.go:176-188 | a loop ends in a panic exactly when some case panics |
| Scenario.ExecValue | tests.go:376-380 | Exec stores StructPath of the executed value when the case has a Path, and the case's Result function of it otherwise; a nil Result function is a nil-function panic and a Result function that panics gives its panic, and in both cases there is no value |
| Scenario.Written | tests.go:375-386 | the cases whose `result` Exec writes: those that complete, plus a panicking one whose value was computed |
| Scenario.VerbRoundTrip | tests.go:216-227 | each of GET, POST, PATCH, PUT, DELETE is reached from its own name |
| Scenario.VerbFallback | tests.go:216-227 | a method string other than POST, PATCH, PUT and DELETE gives GET, and only those do not |
| Scenario.BodyText | tests.go:241-251 | a string body is sent as it is; any other body as its JSON marshalling, or "" if that fails |
| Scenario.Call | tests.go:214-239 | the verb from the method name and the path; Content-Type application/json first; then every request header exactly once; a body exactly when Body is not nil; query parameters exactly when Query is not nil |
| Scenario.ExecCase | tests.go:376-381 | one Exec case writes its value into `result`, then asserts on it |
| Scenario.ExecOutcomesAt | tests.go:375-386 | the k-th of the Exec outcomes is the outcome of the k-th case |
| Scenario.ExecStep | tests.go:376-381 | one turn of the Exec loop: the case's outcome; its `result` written exactly when its value exists; the cases before it still hold their values and the unreached ones their old results |
| Scenario.ApiCase | tests.go:178-182 | one Api case: the assertion on the JSON path of the response with a Path, on Store without |
| Scenario.HeaderEntries | tests.go:229-231 | the loop over the request headers lists every map entry exactly once |
| Scenario.ApiCases | tests.go:176-188 | the Api loop: each case asserted on the JSON path of the response when it has a Path, on Store otherwise; the reports are the in-order reports of the settled cases; the first panic ends it |
| Scenario.StoreCases | tests.go:363-369 | the Job loop: each case asserted on Store, reports in order, the first panic ends it |
| Scenario.ExecCases | tests.go:375-386 | the Exec loop: reports in order; every case reached gets its StructPath or Result value in `result`; the other cases keep the results they held before the loop; the first panic ends it |
| Scenario.AppendReport | tests.go:183-187 | the reports of the settled cases before `i`, extended by the report of case `i`, are the reports up to `i + 1` |
| Scenario.FiberExTest.It | tests.go:148-153 | It appends its message to the log, and only a non-empty one |
| Scenario.FiberExTest.Run | tests.go:113-136 | with UseDB the body runs on a transaction begun on the current handle, is rolled back, and the saved handle is restored; with UseRedis the cache is empty after; with UseES the indices are gone exactly when the server accepted the delete, a client error is reported, and a refused delete leaves them without a report; with a flag off that store is left as the body left it; a panicking body skips all cleanup |
| Scenario.FiberExTest.Api | tests.go:155-189 | the request goes through the application with the verb, path, Content-Type header first, every request header once, body and query as Call builds them; a panic in the exchange ends Api before any case, with apitest's reports logged; otherwise every case is reported in order as ApiCases states; the database handle is unchanged |
| Scenario.FiberExTest.Job | tests.go:359-370 | `before`, then the job, each on the stores the previous step left; a panic in either ends the call with its stores and no case reports; otherwise every case asserted on Store and reported in order; the database handle is unchanged |
| Scenario.FiberExTest.Exec | tests.go:372-387 | the executed function runs once and its writes to the stores stay; a panic in it ends the call with no case reports and no result written; otherwise the cases are run and reported as ExecCases states |
| Utils.FieldByName | utils.go:186 | reflection's FieldByName finds a field of that name in a struct, and fails on anything that is not a struct |
| Utils.StructPath | utils.go:175-196 | a value that is not a struct gives nil; a non-nil result is what the field walk of the path reaches |
| Utils.Walk | utils.go:181-195 | a walk succeeds only from a struct; a path without a dot is the last-segment lookup |
| Utils.Descend | utils.go:185-193 | an unexported name fails; a step reaches the named field of a struct, through its pointer when the field is a pointer and not an interface |
| Utils.Last | utils.go:195 | an unexported name fails; a success is the named field of a struct, as it is |
| Utils.StructPathFollowsSegments | utils.go:181-195 | StructPath on `a.b.c` resolves exactly the chain of fields the segments name, and gives nil when the chain breaks |
| Utils.StructPathDereferences | utils.go:190-192 | a pointer-typed intermediate field is dereferenced before the rest of the path |
| Utils.StructPathDescends | utils.go:193 | any other intermediate field is walked into as it is |
| Utils.StructPathNilPointer | utils.go:176-180 | an intermediate nil pointer gives nil |
| Utils.StructPathInterfacePointer | utils.go:190-193 | an interface-typed field holding a pointer is not dereferenced, so walking on through it gives nil |
| Utils.StructPathLastField | utils.go:195 | the last segment's field is returned as it is, with no dereference |
| Utils.StructPathMissing | utils.go:176-180 | a missing field, or a step into a non-struct, gives nil on the last segment and on any intermediate one |
| Utils.StructPathUnexported | utils.go:176-180 | an unexported field cannot be read and gives nil |
| Utils.StructPathConfigAddr | utils.go:175-196 | on the configuration value, `DBConfig.Addr` gives `"db:3306"` |
| Utils.StructPathConfigAddrFoo | utils.go:175-196 | on the configuration value, `DBConfig.Addr.Foo` gives nil |
| Utils.Atoi | utils.go:152-158 | Atoi is the parsed decimal when strconv accepts the text (a 64-bit value); otherwise 0 |
| Utils.ParseInt64 | utils.go:152-158 | strconv's 64-bit parse: a value exactly when the text is a decimal inside the 64-bit range, and then that decimal |
| Utils.Itoa | utils.go:170-172 | the decimal text of a 64-bit integer, parsed back to the integer, starting with `-` exactly for a negative one |
| Utils.Atoi64 | utils.go:161-167 | Atoi64 agrees with Atoi (base 10, 64-bit) |
| Utils.AtoiItoa | utils.go:152-172 | parsing the decimal text of any 64-bit integer gives it back |
| Utils.AtoiRejects | utils.go:152-158 | empty text, a lone sign, letters, spaces, underscores and hex give 0 |
| Utils.AtoiOutOfRange | utils.go:152-158 | a decimal outside the 64-bit range gives 0 |
| Utils.AtoiAccepts | utils.go:152-158 | an optional sign is accepted |
| Utils.BoolToUint | utils.go:69-74 | 1 exactly for true, 0 for false |
| Utils.MapToValueArray | utils.go:77-83 | one element per key of the map, each the value of a distinct key, so the elements are the map's values |
| Strs.JoinSplit | utils.go:184-191 | joining the pieces of a split with the same separator gives the path back |
| Strs.SplitJoin | utils.go:184-191 | splitting a join of dot-free segments gives the segments back |
| Strs.ContainsIff | tests.go:276 | strings.Contains holds exactly when the substring occurs at some position |
| Strs.SplitSecond | db.go:23-24 | on a string holding the separator, the second piece of the split is the text after the first separator up to the next one or the end |
| Api.Result | api.go:83-94 | a status already above 300 leaves the response alone; no results give status 204 and the logged error `api error: no content: []`; one or more results are sent with the given code |
| Api.ResultPayload | api.go:87-93 | several results are sent as `results`, one as `result` (results[0]); every result reaches the client in order |
| Api.MatchAnyIff | api.go:161-172 | an unanchored single-class pattern matches exactly when some character is in the class |
| Api.MatchWholeIff | api.go:173 | `^[…]+$` matches exactly a non-empty string of class characters |
| Api.AsciiByteLen | api.go:158 | `len` of a string of allowed characters is its number of characters |
| Api.ValidatePassword | api.go:152-177 | an accepted password is at least the required length and made of allowed characters only |
| Api.AllowedByteLen | api.go:158-173 | a string matching `^[allowed]+$` is non-empty, all allowed characters, and its byte length is its length |
| Api.PasswordRule | api.go:152-177 | a password passes exactly when it is at least the required length (10, or Atoi of the parameter) and has a lower-case letter, an upper-case letter, a digit and a symbol, and every character is allowed |
| Api.AllowedIsPrintable | api.go:170-173 | the allowed characters are printable ASCII except space and backtick |
| Api.PasswordTwelvePasses | api.go:152-177 | with `password=12`, `Q1w2e3r4t5!!` passes |
| Api.PasswordElevenFails | api.go:152-177 | with `password=12`, `Q1w2e3r4t5!` fails |
| Api.PasswordBadParam | api.go:155-157 | a parameter that is no number sets the required length to 0 |
| Api.TagOf | api.go:216-217 | the json tag of the field with that name, present exactly when the struct has such a field |
| Api.BeforeComma | api.go:219-222 | the longest comma-free prefix of the tag: it has no comma, and it is followed by a comma or the end |
| Api.GetJsonTag | api.go:213-224 | no panic exactly on a struct type; the result never holds a comma; a pointer, any other type and the nil type panic |
| Api.GetJsonTagFound | api.go:216-222 | an existing field gives its json tag cut at the first comma |
| Api.GetJsonTagMissing | api.go:215-222 | a field the struct does not have gives the field name itself |
| Api.GetJsonTagExample | api.go:213-224 | `json:"name,omitempty"` on Name gives `name` |
| Api.ValidationIError | api.go:203-208 | the IError of a validator error: code E40001, the field name, the rule's parameter, message `ValidationError.<tag>` |
| Api.ParseErrors | api.go:200-211 | one IError per validator error, in order; the first panicking lookup ends the loop with its panic |
| Api.ValidationParser | api.go:200-211 | one IError per error, in order, under its GetJsonTag name; it panics exactly when there are errors and the source is not a struct value |
| Api.ValidationParserPanicsOnString | api.go:213-217 | GetJsonTag on a string value panics with reflect's non-struct message |
| Api.ValidationParserPanicsOnPointer | api.go:213-217 | GetJsonTag on a pointer to a struct panics too |
| Api.ToArray | api.go:189 | the slice ValidationParser returns, as a fresh array holding the same errors in the same order |
| Api.OverwriteField | api.go:191-194 | the index loop sets Field on every element of the slice in place and changes nothing else |
| Api.SimpleValidation | api.go:187-198 | as written: no errors give none; otherwise it panics unless the value is a struct, and then each error gets Field set to the given field, count and other fields unchanged |
| Api.JsonFieldName | api.go:213-224 | the corrected name lookup never returns a name holding a comma |
| Api.JsonFieldNameAgrees | api.go:213-224 | the corrected lookup agrees with GetJsonTag wherever GetJsonTag does not panic, and looks through a pointer |
| Api.ValidationParserFixed | api.go:200-211 | corrected: one IError per error, in order, never a panic |
| Api.SimpleValidationFixed | api.go:187-198 | corrected: one IError per error, in order, each with Field set to the given field and the rest from the validator error |
| FiberExtend.GetString | fiberextend.go:121-128 | the option when it holds a string, else "" (an absent key included) |
| FiberExtend.GetInt | fiberextend.go:130-137 | the option when it holds an int, else 0 |
| FiberExtend.GetInt64 | fiberextend.go:139-146 | the option when it holds an int64, else 0 |
| FiberExtend.OptionRoundTrip | fiberextend.go:121-146 | a value stored under a key is read back by the getter of its type |
| FiberExtend.OptionNoConversion | fiberextend.go:121-146 | an int is not read by GetInt64, an int64 not by GetInt, a number not by GetString; a missing key reads as the zero value |
| FiberExtend.OptionOtherKey | fiberextend.go:121-146 | storing under another key does not change what a getter reads |
| FiberExtend.RunCommand | fiberextend.go:331-340 | with at least two arguments and `run` first: the name, the arguments after it and true, and `run`, name and rest rebuild the arguments; otherwise "", the arguments and false |
| FiberExtend.RunCommandNeedsName | fiberextend.go:334-339 | a lone `run`, or no arguments, is no command |
| FiberExtend.NewDatabase | fiberextend.go:247-262 | when no connection exists and UseDB is set: a missing DBConfig is allocated, an empty Addr becomes db:3306, the name gets `_test` here and again in NewDB, then Connect runs; otherwise nothing changes |
| FiberExtend.TestModeSuffixTwice | fiberextend.go:258-261 | in test mode New and NewDB together turn `name` into `name_test_test` |
| Db.WithTestSuffix | db.go:13-15 | test mode appends `_test`; otherwise the name is unchanged |
| Db.SslMode | db.go:19-22 | sslmode is "disable" exactly when DevMode is set and true, "enable" otherwise |
| Db.FallbackDropsDbName | db.go:24-27 | the fallback DSN is the first with its ` dbname=…` item taken out |
| Db.HostPort | db.go:23-24 | host and port exist exactly when Addr has a colon; otherwise the index panic |
| Db.HostPortParts | db.go:23-24 | the host is the text before the first colon, the port the text after it up to the next colon |
| Db.ConnectAttempts | db.go:16-43 | MySQL is opened once; PostgreSQL a second time, without the database name, only when the first open fails; the result is the last attempt when it connected, and otherwise its error, which is panicked with |
| Db.FiberExConfig.NewDB | db.go:12-44 | the name gets `_test` on every call in test mode, nothing else in DBConfig changes, and the opens are those of Connect with the MySQL DSN `user:pass@tcp(addr)/db?charset=utf8mb4&parseTime=True&loc=Local` or the PostgreSQL ones; a nil DBConfig is a nil dereference |
| ErrorTrace.CodeErrors | error.go:17-25 | E40001 gives `[{E40001, Validation Error}]`, every other code `[{E99999, Undefined Error}]` |
| ErrorTrace.CodeErrorsSingle | error.go:17-25 | every code gives one error, naming E40001 exactly for E40001 |
| ErrorTrace.TraceFrames | error.go:58-76 | the loop over runtime.Caller computes the trace the specification function describes |
| ErrorTrace.TraceStep | error.go:65-74 | one turn of the walk: the frame looked at when local, then the rest unless the lookup failed or the next frame is past `max` |
| ErrorTrace.TraceBound | error.go:58-76 | at most `max - count + 1` entries, or one when `count` is already past `max` |
| ErrorTrace.TraceEntries | error.go:65-69 | every entry is `file:line` of a frame whose file contains the local path, from the frames looked at |
| ErrorTrace.TraceFirst | error.go:65-74 | a local first frame is the first entry; a failed first lookup gives no entries (for a non-empty local path) |
| ErrorTrace.StackTrace | error.go:54-56 | the trace from frame 2 to 16, at most 15 entries |
| ErrorTrace.String | error.go:42-44 | the wrapped error's message; a nil wrapped error is a nil dereference |
| ErrorTrace.NewErrors | error.go:38-40 | the wrapper holds the error and the trace taken where it is created |
| ErrorTrace.ErrorsRoundTrip | error.go:42-52 | Error and String return the wrapped message, Trace the recorded trace unchanged |

## Left out

- logger.go is not part of this model. It is zap and Sentry wiring, and its caller lookup depends on the runtime.
- `New` is modelled only for its database step. The mergo merging of the other defaults is left out, and so are the construction of the Redis, Elasticsearch, Sentry, validator and job clients, `NewApp`, `MetaMiddleware`, `NewMeta` and the JSON body of `result`, including the status 500 that `result` sends when `json.Marshal` fails (api.go:64-66). All of these are library I/O. The Meta block of a response is not modelled.
- `ResultError` is modelled only as far as Result uses it: the status, an empty body and the logged text.
- The `file:line: ` prefix that `it` (tests.go:138-146) adds to log lines is not modelled. It comes from stack introspection, so its text is abstract.
- `NewTest`, `DryJobs`, `Routes` and `fiberToHandlerFunc` are left out. So are `ApiAssert`/`ApiAssertOld`, which delegate to apitest, simplejson and apitest-jsonpath. The HTTP exchange and the JSON path lookup are parameters.
- `FilterString`, `ToJson`, `ToPrettyJson`, `ConvertStruct`, `DeepCopy`, the UUID and case-conversion helpers and `Recover` are left out. They are JSON, UUID and logging library calls.
- `Validation`, both `RequestParser`s, `ValidateMatch` and `Match` are left out. The regular expression engine is replaced by the character-class functions of the password rule.
- `ReconnectDB`, `ClearPreparedStatements` and `IpAddr` are left out. They need a live database or the network.
- `gorm.Open` is an abstract parameter. `IDBConfig.Config`, the gorm configuration, is not modelled.
- A nil `*IFiberExConfigOption` receiver is not modelled. The option getters take the map.
- `InitErrors` is left out: the global `LocalFilePath` is a parameter.
- Utils.FieldByName: fields promoted from embedded structs are not modelled.
- Utils.Atoi: Go's `int` is modelled as 64 bits.
- Scenario.Call: the headers after Content-Type are stated as each map entry exactly once, in an unspecified order, because Go's map iteration order is unspecified.
- Utils.MapToValueArray: the order of the result is unspecified for the same reason.
- Scenario.FiberExTest.Run: the test log is a field, and `t.Error` is an `Errored` entry. Ending the test is not modelled.
- Scenario.FiberExTest.Run: the model assumes every database write of the body goes through the transaction handle `p.Ex.DB`; a write through the package-level `DB`, or through a handle `ReconnectDB` installs, would survive the rollback. gorm's `Rollback` is taken to restore the rows saved at `Begin` (Scenario.Rollback), not proved.
- Scenario.FiberExTest.Run: the Elasticsearch delete is an abstract outcome, the client's error and whether the server accepted the delete. The discarded response is not otherwise modelled.
- Scenario.ItEntries, Scenario.CaseEntry, Scenario.FiberExTest.It: the message is logged unchanged. Go passes it to `t.Logf` as a format string (tests.go:152), so a `%` in a case's text or in a `%+v` rendering is read as a verb; that rewriting is not modelled.
- Scenario.TestCase.StoreAssert: what a Store callback logs itself through `t.Error` or `t.Logf` (as the callbacks at tests_test.go:70-86 do) is not modelled. Its value and its panic are.
- Scenario.FiberExTest.Api: the JSON path lookup is a total abstract function. The decoded response holds no JSON number: simplejson decodes numbers as `json.Number` (tests.go:168, 320), so in Go a case with an `int` Want never equals a number read from the response. `Values.Value` has no float or `json.Number` variant to express this.
- Api.TagOf: fields promoted from embedded structs, which reflect's FieldByName (api.go:217) finds, are not found.
- Utils.Exported: the upper-case test on a field name's first character is ASCII-only; Go uses unicode.IsUpper.
- Api.ValidatePassword: `len` counts UTF-8 bytes, which the model computes. A password with a non-ASCII character fails the last check anyway.

## Findings

| source | as written | input that shows it | evidently intended | confidence | as-written member | corrected member |
|---|---|---|---|---|---|---|
| api.go:187-224 | ValidationParser calls GetJsonTag on the validated value. reflect.Type.FieldByName panics on any type that is not a struct. So SimpleValidation panics whenever its check fails, because it validates single values. `Validation(&src)` panics the same way. | `SimpleValidation("ABC", "test", "match=^[a-z]+$")`, or `Validation(&s)` for a struct `s` that fails a rule | the validation errors, with the given field name for SimpleValidation and the json name of the pointed-to struct's field for a pointer | not executed; reflect documents the panic for non-struct types | Api.SimpleValidation, Api.ValidationParserPanicsOnString, Api.ValidationParserPanicsOnPointer | Api.SimpleValidationFixed, Api.ValidationParserFixed, Api.JsonFieldNameAgrees |

Two behaviours that look unintended are kept as written, not corrected:

- Contains fails when the value does contain Want.
- GreaterThan and LessThan pass on equal values.
