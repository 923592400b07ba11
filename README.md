# Rule engine of mockapy, modelled in Dafny

mockapy lets an HTTP mock server hand each request to a user-written
Python rule. The rule engine in `src/rule.js` does four things. It loads the
script and records `isInvalid()` instead of raising on failure. It gives the
script two small modules. `request` answers `id`, `resource`, `pathname`,
`method`, `header` and `payload`. `response` offers `status`, `send`, `header`
and `exit`. Both act on a single "current" options slot. Finally, `apply` binds
that slot, calls `handle_request` and turns any error into the fallback
response: `status(500)`, `send(message)` and `exit()`, made through the
response's ordinary lock-respecting calls.

This project models that engine:

- `IntParse` (`int_parse.dfy`) models `parseInt(value, 10)` together with
  `Number.isInteger`, which the `status` facade uses. It skips leading
  white space, reads an optional sign and then the longest run of decimal
  digits. With no digit the result is NaN, written `None` here.
- `ResponseSink` (`response_sink.dfy`) models the response object (`src/response.js`).
  `Sink` is its observable state. `Response` is the object itself, with methods
  that update it in place. `Grows` states its invariants: a locked field keeps
  its value, and neither a lock nor the exit flag is ever undone.
- `RequestView` (`request_view.dfy`) models `RuleOptions`. `Split` is `split('/')`
  and `NonEmpty` is `filter(part => part.length > 0)`. `Segments` combines the
  two. `resource()` and `id()` take element 0 and element 1 of the segments.
  The filter keeps the parts' order, so for any path these are the first and
  second non-empty parts of the split.
  The remaining accessors return the request's fields unchanged.
- `Engine` (`engine.dfy`) models the engine.
  - A script's `handle_request` is a list of facade calls whose arguments are
    literals or `request` queries. It may also hold a `Raise` of an error
    with a message.
  - `StatusCall`, `SendCall`, `HeaderCall` and `ExitCall` give the meaning of
    the `response` facade. `Run` runs a script. `Applied` is the response that
    `apply` returns.
  - The class `Rule` has the fields of the source's `Rule`. Its methods are the
    facade closures and `apply`. Each method is proved against those functions.
  - `Rule.Id` … `Rule.Payload` are the `request` closures. They forward to the
    options held in the `current` slot.
- `RuleTests` (`rule_tests.dfy`) restates the scenarios of `src/rule.test.js`
  in the model, with the request `GET /resource/123`, and proves their outcomes.

Interface assumptions:

- The response object's behaviour is an assumed contract. A `status` or
  `send` on a locked field does nothing and does not raise. `addHeader` and
  `exit` are never locked. The engine relies on nothing beyond this.
- Values that cross the script boundary are `Option<string>`, where `None` is
  JavaScript's `undefined` or `null`. A number that a script passes, such as
  `response.status(402)`, reaches `parseInt` as its decimal string.
- `Raise(m)` stands for an error escaping `handle_request`, and `m` is the
  `message` of the JavaScript error that `apply`'s catch block receives. For
  a Python exception under Pyodide that is the formatted traceback text, not
  only the argument of the exception.
- Calling a missing `handle_request` raises a TypeError. Its message is taken
  to be `handle_request is not a function`.
- Loading is a parameter of the constructors. `read` is the text of the
  rules file, or `None` when it cannot be read. `LoadResult` records whether
  running the script's top level raised, and the `handle_request` it left
  defined.

How `apply`'s fallback behaves, as the code is written:

- The catch block of `apply` (`src/rule.js:124-128`) calls the response's
  ordinary `status(500)` and `send(message)`. Under the lock contract that the
  facade itself relies on, these calls do not bypass the locks. A script that
  commits a status and then raises therefore keeps that status, not 500. The
  body and the exit flag still become the error message and true.
  `Engine.CommittedStatusSurvivesFailure` states this. `Engine.FailureYields500`
  states when the response is a 500.
- The catch block locks nothing, so after a failure the status and the body
  stay unlocked.
- Both factories call `loadPyodide()` outside their `try`. A failure to start
  the interpreter would therefore propagate rather than mark the rule
  invalid. The model covers only the failures caught inside the `try`.

## Model

| member | source | states |
|---|---|---|
| IntParse.DigitPrefixSpec | src/rule.js:92 | the digits parseInt reads: a prefix of the input, all decimal digits, and maximal (the next character is not a digit) |
| IntParse.ParseIntDecimal | src/rule.js:92-93 | round trip: parseInt of the decimal form of any integer n, followed by anything that does not start with a digit, is exactly n |
| IntParse.ParseIntSkipsWhiteSpace | src/rule.js:92 | leading white space never changes what parseInt returns |
| IntParse.ParseIntDigitFirst | src/rule.js:92-93 | a string that starts with a digit always parses to a number |
| IntParse.ParseIntMinus | src/rule.js:92 | if a string starting with a digit parses to v, the same string behind a minus sign parses to -v |
| IntParse.ParseIntPlus | src/rule.js:92 | before a run of digits, a leading plus changes nothing |
| IntParse.ParseIntNeedsDigit | src/rule.js:92-93 | parseInt succeeds only when the string contains a digit (otherwise `status` ignores the call) |
| IntParse.ParseIntRejects | src/rule.js:92-93 | a string starting with anything but white space, a sign or a digit (such as "undefined") parses to NaN |
| ResponseSink.PrimitivesGrow | src/rule.js:94-95 | every response primitive the engine calls (status, lockStatus, send, lockResponse, addHeader, exit) keeps the response's invariants: locked fields keep their value, locks and exit never revert |
| ResponseSink.Response.Status | src/rule.js:94 | `status(code)` sets the status unless it is locked |
| ResponseSink.Response.LockStatus | src/rule.js:95 | `lockStatus()` locks the status and changes nothing else |
| ResponseSink.Response.Send | src/rule.js:100 | `send(payload)` sets the body unless it is locked |
| ResponseSink.Response.LockResponse | src/rule.js:101 | `lockResponse()` locks the body and changes nothing else |
| ResponseSink.Response.AddHeader | src/rule.js:109 | `addHeader(name, value)` sets that header, with no lock check |
| ResponseSink.Response.Exit | src/rule.js:106 | `exit()` sets the exit flag |
| RequestView.JoinSplit | src/rule.js:16 | `split('/')` loses nothing: joining its parts with '/' gives back the path |
| RequestView.Split | src/rule.js:16 | `split` yields at least one part and no part contains the separator |
| RequestView.NonEmpty | src/rule.js:16 | `filter(part => part.length > 0)` keeps exactly the non-empty parts |
| RequestView.NonEmptyConcat | src/rule.js:16 | the filter keeps the parts' order and repetitions: filtering `a + b` is filtering `a` followed by filtering `b` |
| RequestView.NonEmptyOfEmpties | src/rule.js:16 | parts that are all empty leave nothing behind |
| RequestView.Segments | src/rule.js:16 | every segment of a path is non-empty, contains no '/', and is a part of `split('/')`; every non-empty part of the split is a segment |
| RequestView.SegmentsOfParts | src/rule.js:16 | for any path whose split is empty parts, then a non-empty `x`, then `rest`: the segments are `x` followed by the filtered `rest`, in order |
| RequestView.SegmentsOfPath | src/rule.js:16 | round trip: the segments of `/s0/s1/...` are exactly s0, s1, ... for any non-empty, slash-free s0, s1, ... |
| RequestView.RuleOptions.Resource | src/rule.js:15-17 | `resource()` is present iff the path has a non-empty segment; it is then non-empty and free of '/' |
| RequestView.RuleOptions.Id | src/rule.js:18-20 | `id()` is present iff the path has two non-empty segments; it is then non-empty, free of '/', and `resource()` is present too |
| RequestView.ResourceAndIdOfPath | src/rule.js:15-20 | on the path `/s0/s1/...`, `resource()` is s0 and `id()` is s1, each absent when the path has too few segments |
| RequestView.ResourceAndIdOfParts | src/rule.js:15-20 | for any path (trailing '/', doubled slashes, no leading '/'): `resource()` is the first non-empty part of `split('/')` and `id()` the second |
| RequestView.ResourceWithoutId | src/rule.js:15-20 | for any path with exactly one non-empty part: `resource()` is that part and `id()` is absent |
| RequestView.NoResource | src/rule.js:15-20 | a path without a non-empty part (such as "/" or "") has neither `resource()` nor `id()` |
| RequestView.RuleOptions.Pathname | src/rule.js:12-14 | `pathname()` is the request's original URL, unchanged |
| RequestView.RuleOptions.Method | src/rule.js:21-23 | `method()` is the request's method, unchanged |
| RequestView.RuleOptions.Payload | src/rule.js:24-26 | `payload(name)` is the body's field exactly when the body has it, and absent otherwise |
| RequestView.RuleOptions.Header | src/rule.js:27-29 | `header(name)` is the stored header exactly when the request has it, and absent otherwise |
| IntParse.ParseInt | src/rule.js:92-93 | `parseInt(value, 10)` followed by `Number.isInteger`: leading white space skipped, an optional sign, the longest digit run, `None` for NaN; its properties are the IntParse lemmas above |
| Engine.JsString | src/rule.js:92 | `String(v)` as `parseInt` sees it: a string is itself, and `undefined` becomes a string that never parses |
| Engine.Eval | src/rule.js:70-88 | the value each `request` call answers, read from the options in the slot |
| Engine.StatusCall | src/rule.js:91-97 | facade `status(v)`: when v parses, the status is locked and equals the parsed value unless it was already locked; when it does not parse, the response is unchanged; nothing but the status and its lock changes |
| Engine.SendCall | src/rule.js:98-104 | facade `send(p)`: the body is locked and equals p unless it was already locked; nothing else changes |
| Engine.HeaderCall | src/rule.js:108-110 | facade `header(k, v)`: `getHeader(k) == v` afterwards whatever is locked, other headers and everything else unchanged |
| Engine.ExitCall | src/rule.js:105-107 | facade `exit()`: `shouldExit()` is true afterwards, nothing else changes |
| Engine.Step | src/rule.js:91-110 | one script action: only a `raise` raises (no facade call raises into the script), a `raise` leaves the response alone, and every step lets the response grow |
| Engine.Run | src/rule.js:122-123 | running `handle_request` only lets the response grow: a locked status or body keeps its value, locks and exit never revert |
| Engine.Recover | src/rule.js:124-128 | the catch block: exit is set, the status is 500 and the body the error message unless those were locked, headers and locks untouched |
| Engine.Applied | src/rule.js:119-130 | the response `apply` returns grows from the one it was given |
| Engine.RunConcat | src/rule.js:122-123 | a script runs its calls in order: `a + b` runs `b` from where `a` stopped, unless `a` raised |
| Engine.RunCompletes | src/rule.js:98-110 | no facade call raises into the script (`send` swallows, `status` ignores unparsable input): a script without `raise` runs to its end |
| Engine.RaiseStopsScript | src/rule.js:123-124 | nothing after the first raise is carried out, and the error's message is that raise's |
| Engine.RunFrame | src/rule.js:91-110 | each part of the response (status, body, headers, exit) changes only through the facade call that writes it |
| Engine.HeaderKept | src/rule.js:108-110 | a header keeps its value unless a later `header` call names it |
| Engine.HeaderObservable | src/rule.js:108-110 | a header a script sets is visible in the response `apply` returns, whatever is locked and even if the script raises afterwards |
| Engine.AppliedAfter | src/rule.js:122-128 | a prefix that does not raise hands its response on: `apply` on `pre + rest` is `apply` on `rest` from where `pre` left the response |
| Engine.FirstStatusWins | src/rule.js:91-97 | at any position after a raise-free prefix that left the status unlocked (unparsable `status` calls included), the first `status` call whose argument parses decides the final status of `apply`, whatever follows, failures included |
| Engine.FirstSendWins | src/rule.js:98-104 | at any position after a raise-free prefix that left the body unlocked, the first `send` decides the final body of `apply`, whatever follows |
| Engine.FailureYields500 | src/rule.js:124-128 | a script whose raise-free prefix left status and body unlocked and that then raises ends with status 500, body equal to the error message, exit true |
| Engine.MissingHandlerYields500 | src/rule.js:122-128 | without `handle_request`, `apply` ends with status 500, the TypeError's message, exit true |
| Engine.CompletedScriptKeepsExit | src/rule.js:119-130 | a script that completes without calling `exit` leaves the exit flag as it was |
| Engine.CommittedStatusSurvivesFailure | src/rule.js:124-128 | a status committed before an error survives the catch block (the response is not 500), while body and exit still take the fallback |
| Engine.Rule.FromScript | src/rule.js:53-63 | `createFromScript`: the rule holds the script, is invalid exactly when running it raised, and never raises |
| Engine.Rule.FromFile | src/rule.js:41-52 | `createFromFile`: the path is recorded; the rule is invalid exactly when the file cannot be read or running it raised |
| Engine.Rule.IsInvalid | src/rule.js:116-118 | `isInvalid()` reports the flag the factories set |
| Engine.Rule.Id | src/rule.js:70-72 | the `request.id` closure forwards to the options in the slot |
| Engine.Rule.Resource | src/rule.js:73-75 | the `request.resource` closure forwards to the options in the slot |
| Engine.Rule.Pathname | src/rule.js:76-78 | the `request.pathname` closure forwards to the options in the slot |
| Engine.Rule.Method | src/rule.js:79-81 | the `request.method` closure forwards to the options in the slot |
| Engine.Rule.Header | src/rule.js:82-84 | the `request.header` closure forwards to the options in the slot |
| Engine.Rule.Payload | src/rule.js:85-87 | the `request.payload` closure forwards to the options in the slot |
| Engine.Rule.Argument | src/rule.js:70-88 | the `request` facade answers from the options in the current slot |
| Engine.Rule.Status | src/rule.js:91-97 | the `status` closure changes the current response exactly as `StatusCall` says |
| Engine.Rule.Send | src/rule.js:98-104 | the `send` closure changes the current response exactly as `SendCall` says |
| Engine.Rule.Exit | src/rule.js:105-107 | the `exit` closure changes the current response exactly as `ExitCall` says |
| Engine.Rule.SetHeader | src/rule.js:108-110 | the response `header` closure changes the current response exactly as `HeaderCall` says |
| Engine.Rule.Perform | src/rule.js:123 | one facade call of the running script acts on the current options as `Step` says |
| Engine.Rule.Apply | src/rule.js:119-130 | `apply` binds the options to the slot, returns their own response, and leaves it as `Applied` says |
| RuleTests.SetsStatus | src/rule.test.js:20-28 | `response.status(402)` gives status 402, no body, no exit |
| RuleTests.SetsBody | src/rule.test.js:30-38 | `response.send("ok")` gives the body "ok" |
| RuleTests.SetsHeader | src/rule.test.js:40-48 | `response.header("x-unit-test-response", "ok")` makes that header "ok" |
| RuleTests.SetsExit | src/rule.test.js:50-58 | `response.exit()` makes `shouldExit()` true |
| RuleTests.SendsResource | src/rule.test.js:60-68 | on `/resource/123`, `request.resource()` is "resource" |
| RuleTests.StatusFromId | src/rule.test.js:70-78 | on `/resource/123`, `request.id()` is "123", which `status` turns into 123 |
| RuleTests.SendsPathname | src/rule.test.js:80-88 | `request.pathname()` is the original URL unchanged |
| RuleTests.SendsMethod | src/rule.test.js:90-98 | `request.method()` is the method unchanged |
| RuleTests.SendsHeader | src/rule.test.js:100-108 | `request.header(name)` is the stored header value |
| RuleTests.SendsPayload | src/rule.test.js:110-118 | `request.payload(name)` is the body's field |
| RuleTests.FailingScript | src/rule.js:124-128 | any script whose `handle_request` raises at once yields status 500, the caught error's message as body, exit true |
| RuleTests.InvalidScript | src/rule.js:56-61 | a script that fails to load leaves a rule with `isInvalid()` true |
| RuleTests.UnreadableFile | src/rule.js:44-50 | an unreadable rules file leaves an invalid rule without a script |

## Left out

- The Python interpreter (Pyodide: `loadPyodide`, `runPython`, `registerJsModule`, `globals.get`) is not modelled. A script is a list of facade calls and raises, and loading is a constructor parameter.
- Python control flow inside `handle_request` is not modelled. An example is the `if request.method() == "POST"` test in `rules.py`. Only straight-line scripts are expressible.
- Script code that calls a facade function while the rule loads is not modelled; the load outcome is a parameter instead. The slot is still `null` then. `exit`, the response's `header` and every `request` call raise a TypeError, which makes the rule invalid. `send` swallows that error in its own `try`. `status` with an argument that does not parse returns before it reads the slot.
- Computed names are not expressible: `CallHeader`, `RequestHeader` and `RequestPayload` take a literal name, while a script may pass any value it has computed.
- `fs.readFileSync` and the asynchronous factories are not modelled. Only the resulting text, or `None`, is kept.
- Concurrent `apply` calls sharing the one slot are not modelled. Calls are taken to be serialized.
- src/response.js is not part of this model. Its status and body locks are the assumed contract described above.
- `Engine.Rule.Send`: the source wraps the call in `try`/`catch`. Under the assumed contract the response never raises, so the model has nothing to swallow.
- `Engine.SendCall`: `send` accepts any JavaScript value. The model's values are strings or `undefined`.
- `IntParse.ParseIntDecimal`: integers are unbounded. JavaScript's rounding of very long digit strings and its overflow to Infinity, which `Number.isInteger` would reject, are not modelled. The same goes for `-0`, which the model reads as 0.
- `RequestView.RuleOptions.Header`: Express's `req.get` is case-insensitive. The model looks the header up by its exact name.
- `RequestView.RuleOptions.Payload`: `req.body[name]` raises when no body was parsed. The model takes the parsed body to be a map, possibly empty, and it holds strings only.
- `RuleOptions.response()` is the `response` field of the model's `RuleOptions`. The Express response wrapper around it is not modelled.
- The Jest harness is not modelled. Its scenarios are restated in `RuleTests`.
