# dotnet-retest retry engine in Dafny

This project models the core of `dotnet retest`, a wrapper around
`dotnet test`. The wrapper runs the test suite, and when tests fail it
re-runs only the failing ones, up to an attempt budget. The model covers
`RetestCommand.ExecuteAsync` and its helpers:

- **Argument preparation** (`arguments.dfy`). The `dotnet test` arguments are
  recovered from the remaining command line. Then the `--logger` and
  `--results-directory` values are scanned. A non-trx logger is rejected
  outside Windows. Finally the trx logger, the console logger and a fresh
  results directory are put in front when they are missing.
- **Re-run command line** (`test_run.dfy`, `command.dfy`). Each invocation is
  `test`, then `--filter FullyQualifiedName~A|FullyQualifiedName~B|…` when
  tests are failing, then the persistent arguments.
- **Outcome classifier** (`classifier.dfy`). After a non-zero exit, the
  output counts as a test run when one of its lines matches
  `:.*VSTEST.*:` or `Failed:.*Passed:.*Skipped:.*Total:.*`. Each regex is a
  chain of literals joined by `.*`, and `.` does not match a newline. The
  model implements it as a greedy ordered-substring search per line. That
  search is proved equal to a reference definition: some newline-free
  stretch of the output holds the literals in order.
- **Result merging** (`trx_results.dfy`). `GetTestResults` folds the TRX
  reports of the results directory, newest first, into a map from test full
  name to "failed". Only the first record of each test id counts, and a
  failure is never overwritten.
- **Retry loop** (`retry_loop.dfy`). The loop is a state machine over the
  readings of its attempts. A reading holds the exit code, the output, the
  classifier's verdict and the parsed outcomes. `Read` computes a reading
  from an observed attempt (exit code, output, results directory). The
  state is the attempt number, the persistent arguments, which gain
  `--no-build` from attempt 2 on, and the failing set. A session ends in
  success, in a fatal failure (the run did not get to run tests), or with
  the budget spent.
- **Settings** (`settings.dfy`). `Retries` and `Attempts` are two 32-bit
  views of one field.
- **End to end** (`command.dfy`). `Execute` composes preparation and the
  session.
- **Scenarios** (`scenarios.dfy`). These are concrete sessions: a flaky pair
  of tests narrowed down and passed, the same pair with too small a budget,
  and a build failure that ends the session at once.

Everything the program gets from outside is an input. That covers the
processes it runs, the file system, the option parser, the platform and the
environment.

## Model

| member | source | states |
|---|---|---|
| Arguments.FlattenParsedMembers | src/dotnet-retest/RetestCommand.cs:31-43 | without raw tokens, the rebuilt arguments hold exactly the keys that have values and every non-null value |
| Arguments.FlattenOptionRegroup | src/dotnet-retest/RetestCommand.cs:35-41 | one key flattens to one group per value, in order: the key, then the value unless it is null; the values read back from the tokens are the parsed ones (for values not spelled like the key) |
| Arguments.FlattenParsedGroups | src/dotnet-retest/RetestCommand.cs:33-42 | each key's group of tokens sits after the groups of the keys before it and before those of the keys after it |
| Arguments.TestArgs | src/dotnet-retest/RetestCommand.cs:28-43 | the `dotnet test` arguments are the raw remaining tokens when there are any, and otherwise the flattened parsed options |
| Arguments.FlattenParsedAppend | src/dotnet-retest/RetestCommand.cs:33-42 | the parsed keys are flattened one after another: flattening distributes over concatenation |
| Arguments.ScanLoggers | src/dotnet-retest/RetestCommand.cs:50-58 | a logger was seen iff some `-l` value was given; the trx and console flags come from the last value only |
| Arguments.ScanPath | src/dotnet-retest/RetestCommand.cs:59 | the last `--results-directory` value is the one kept |
| Arguments.Prepare | src/dotnet-retest/RetestCommand.cs:45-100 | fails with 1 exactly for a given, last non-trx logger off Windows; otherwise the result is `--logger trx` (unless the last logger starts with trx), then `--logger console;verbosity=normal` (no console logger, not CI, Windows), then `--results-directory <fresh>` (none given), then the user's arguments, with the directory and CI flag reported |
| Arguments.PrepareKeepsUserArgs | src/dotnet-retest/RetestCommand.cs:78-100 | preparation only adds in front: the user's arguments are an unchanged suffix and at most six tokens are added |
| TestRun.Filter | src/dotnet-retest/RetestCommand.cs:249-250 | the filter is non-empty exactly when some test is failing |
| TestRun.TestArguments | src/dotnet-retest/RetestCommand.cs:247-256 | no failing tests: `test` then the arguments; otherwise `test --filter <F>` then the arguments, unchanged |
| TestRun.FilterRoundTrip | src/dotnet-retest/RetestCommand.cs:249 | the filter splits on `\|` back into one `FullyQualifiedName~` term per failing test, in order |
| TestRun.FilterTermsExact | src/dotnet-retest/RetestCommand.cs:249 | a test's term is in the filter iff the test is failing |
| Strings.JoinSplit | src/dotnet-retest/RetestCommand.cs:249 | joining the fields of a string on a separator rebuilds the string |
| Strings.SplitJoin | src/dotnet-retest/RetestCommand.cs:249 | splitting a join of separator-free fields gives the fields back |
| Classifier.OrderedIffSpans | src/dotnet-retest/RetestCommand.cs:268-272 | taking the leftmost occurrence of each literal in turn succeeds iff the literals occur in order without overlapping |
| Classifier.SomeLineMatchesSound | src/dotnet-retest/RetestCommand.cs:268-272 | if the line-by-line search succeeds, some newline-free stretch of the output spans the literals |
| Classifier.SomeLineMatchesComplete | src/dotnet-retest/RetestCommand.cs:268-272 | if some newline-free stretch spans the literals, the line-by-line search succeeds |
| Classifier.IsRetryableMeaning | src/dotnet-retest/RetestCommand.cs:156-157 | the output counts as a test run iff, within one line, it has `:`, `VSTEST`, `:` in order or `Failed:`, `Passed:`, `Skipped:`, `Total:` in order |
| TrxResults.Scan | src/dotnet-retest/RetestCommand.cs:213-240 | the fold has seen every test id; it has an outcome for a full name iff a first record of some test id carries it, and that outcome is failed iff one of those records failed |
| TrxResults.GetTestResults | src/dotnet-retest/RetestCommand.cs:207-211 | an absent results directory yields no outcomes |
| TrxResults.GetTestResultsMeaning | src/dotnet-retest/RetestCommand.cs:213-242 | over all reports, newest first, a name is reported iff some first record has it, and it is failed iff such a record's outcome is exactly "Failed" |
| TrxResults.NewestFileWins | src/dotnet-retest/RetestCommand.cs:215-226 | when the newest report has a record for every older record's test id, the older reports change nothing |
| Settings.WithRetries | src/dotnet-retest/RetestCommand.cs:279-283 | the `Retries` getter gives back what the initializer set; attempts are retries plus one, and only `int.MaxValue` wraps to `int.MinValue` |
| Settings.AttemptsRoundTrip | src/dotnet-retest/RetestCommand.cs:279-287 | setting the retries to the getter's value gives back the same settings |
| Settings.DefaultAttempts | src/dotnet-retest/RetestCommand.cs:278-283 | the default of three retries means up to four attempts |
| RetryLoop.WithNoBuild | src/dotnet-retest/RetestCommand.cs:127-128 | a retry's arguments contain `--no-build`; they are unchanged exactly when it was already there, and otherwise one copy is put in front |
| RetryLoop.WithNoBuildIdempotent | src/dotnet-retest/RetestCommand.cs:127-128 | inserting `--no-build` again changes nothing |
| RetryLoop.WithNoBuildCount | src/dotnet-retest/RetestCommand.cs:127-128 | after the insertion `--no-build` occurs once when it was absent, and as often as before otherwise |
| RetryLoop.Drive | src/dotnet-retest/RetestCommand.cs:115-183 | the loop only appends invocations, numbered by attempt, and never more than the budget |
| RetryLoop.DriveEnd | src/dotnet-retest/RetestCommand.cs:153-164 | every attempt before the last continued the loop, the last did not, and it decides the end |
| RetryLoop.DriveArgs | src/dotnet-retest/RetestCommand.cs:125-128 | the first invocation gets the persistent arguments as given and every later one gets them with `--no-build` |
| RetryLoop.DriveFailing | src/dotnet-retest/RetestCommand.cs:166-176 | after attempt 1 the failed names are added to the set; after later attempts the names parsed as passed are removed |
| RetryLoop.Retest | src/dotnet-retest/RetestCommand.cs:115-119 | a session makes at least one and at most max(1, Attempts) invocations, numbered 1, 2, … |
| RetryLoop.EndOfMeaning | src/dotnet-retest/RetestCommand.cs:153-164 | a stopping attempt ends in success iff it exited 0, fatally (with its output) iff it failed without a test run, and with the budget spent iff it failed after a test run |
| RetryLoop.RetestEnd | src/dotnet-retest/RetestCommand.cs:153-164 | the session reports the last attempt's exit code; it is fatal iff that attempt failed without a test run, which is looked at before the budget; a spent budget means all attempts were made |
| RetryLoop.RetestEarlier | src/dotnet-retest/RetestCommand.cs:153-164 | every attempt before the last exited non-zero with output showing a test run |
| RetryLoop.RetestSucceeds | src/dotnet-retest/RetestCommand.cs:153-154 | the session reports 0 iff some attempt it made exited 0 |
| RetryLoop.RetestArgs | src/dotnet-retest/RetestCommand.cs:125-136 | attempt 1 runs with the prepared arguments; every later attempt runs with them plus `--no-build`, never more than one copy added |
| RetryLoop.RetestFailing | src/dotnet-retest/RetestCommand.cs:166-176 | the set starts empty, is seeded with exactly the names parsed as failed, and later loses exactly the names parsed as passed, keeping names the parse omits |
| RetryLoop.FailingShrinks | src/dotnet-retest/RetestCommand.cs:172-176 | from the seed on the failing set never grows, so it stays within the first seed |
| RetryLoop.ObservedEnd | src/dotnet-retest/RetestCommand.cs:153-164 | an observed attempt that stops the loop reports its exit code; it ends in success iff it exited 0, fatally with its output iff it exited non-zero and no line of its output matches either regex, and with the budget spent iff it exited non-zero after such a line |
| RetryLoop.ScriptEnd | src/dotnet-retest/RetestCommand.cs:149-164 | over the observed attempts: the last attempt's exit code is reported; the session is fatal, with that attempt's output, iff it exited non-zero and no line of its output shows a test run (regex meaning); the budget is spent, all attempts made, iff it exited non-zero after a test run |
| RetryLoop.ScriptEarlier | src/dotnet-retest/RetestCommand.cs:153-164 | over the observed attempts: every attempt before the last exited non-zero with a line of output showing a test run |
| RetryLoop.ScriptFailing | src/dotnet-retest/RetestCommand.cs:166-176 | over the observed attempts: the failing set is first empty, then the names attempt 1's results directory reports failed, then loses after each later attempt the names its results directory reports passed |
| Command.Execute | src/dotnet-retest/RetestCommand.cs:26-204 | a rejected logger returns 1 with no run; otherwise attempt 1 runs with exactly the prepared arguments (user's arguments at the end) and every later attempt with them plus `--no-build`, and at most max(1, Attempts) attempts are made |
| Command.ExecuteEnd | src/dotnet-retest/RetestCommand.cs:149-164 | for an accepted command line the last attempt's exit code is returned; the end is fatal iff that attempt exited non-zero and no line of its output shows a test run, and the budget is spent, every attempt made, iff it exited non-zero after one |
| Command.ExecuteEarlier | src/dotnet-retest/RetestCommand.cs:153-164 | for an accepted command line every attempt before the last exited non-zero with a line of output showing a test run: the loop stops at the first success or fatal failure |
| Command.ExecuteFailing | src/dotnet-retest/RetestCommand.cs:166-176 | for an accepted command line attempt 1 runs with no failing set, attempt 2 with exactly the names attempt 1's results directory reports failed, and each later attempt with the previous set minus the names the previous attempt's results directory reports passed |
| Command.InvocationArguments | src/dotnet-retest/RetestCommand.cs:245-256 | for any enumeration of the failing set, the command line is `test` plus the arguments, with `--filter <F>` between when the set is not empty |
| Command.FilterTermsOfSet | src/dotnet-retest/RetestCommand.cs:249 | whatever the set's enumeration order, the filter's terms are exactly those of the failing tests |
| Command.FilterOrderIrrelevant | src/dotnet-retest/RetestCommand.cs:249 | two enumerations of the same set give filters with the same terms |
| Command.AttemptArgumentsDoNotAccumulate | src/dotnet-retest/RetestCommand.cs:136 | each attempt's command line holds `test`, its own filter only and the persistent arguments; earlier filters never carry over |
| Scenarios.SummaryIsRetryable | src/dotnet-retest/RetestCommand.cs:271 | a `Failed: 2, Passed: 1, Skipped: 0, Total: 3` summary line counts as a test run |
| Scenarios.BuildErrorIsFatal | src/dotnet-retest/RetestCommand.cs:156-161 | an MSBuild error, though it has colons, does not count as a test run |
| Scenarios.FirstOutcomes | src/dotnet-retest/RetestCommand.cs:222-237 | a report with both tests failed parses to both names failed |
| Scenarios.SecondOutcomes | src/dotnet-retest/RetestCommand.cs:215-237 | with a newer report where the first test passed, the older failure of that test is hidden |
| Scenarios.FlakySession | src/dotnet-retest/RetestCommand.cs:116-176 | with three attempts the flaky pair runs three times, the set narrows to the second test, retries use `--no-build`, and the session succeeds |
| Scenarios.FlakySessionExhausted | src/dotnet-retest/RetestCommand.cs:163-164 | with two attempts the same session spends its budget and reports exit code 1 |
| Scenarios.BrokenSession | src/dotnet-retest/RetestCommand.cs:156-161 | a build failure ends the session after one attempt, fatally, with its exit code and output |

## Left out

- Running `dotnet` through CliWrap, streaming lines to the progress callback, and the working directory are out of scope: they are process I/O. Each attempt is an observation instead: an exit code, the captured output, and the results directory as the parser would find it.
- The file system and the TRX format are out of scope: `Directory.Exists`, `EnumerateFiles`, the ordering by last write time, and the SGML and CSS-selector parsing of the reports. A results directory is absent, or it is a list of already-parsed reports, newest first.
- TrxResults.GetTestResults: requires every result's test id to be defined in the same report. The source asserts this and would dereference null otherwise, so a malformed report is outside the model.
- The Mono.Options parser is a foreign library. The logger and results-directory values it would hand to the callbacks are inputs, in command-line order. So are the platform check, the `CI` variable and the fresh temporary directory.
- Arguments.ScanLoggers: compares prefixes character by character, while .NET's `StartsWith(string)` is culture-sensitive. The two differ only for logger values holding characters the current culture ignores or combines, such as a soft hyphen (U+00AD) or a zero-width character before `trx`: the program accepts `"\u00ADtrx"` as a trx logger and the model does not.
- RetryLoop.Retest: requires one reading per attempt up to the budget. The readings stand in for the runs, so a script that is too short is a modelling artefact, not a behaviour of the program.
- Most retry-loop lemmas are stated over readings. `RetryLoop.ScriptEnd`, `RetryLoop.ScriptEarlier` and `RetryLoop.ScriptFailing` restate them over the observed attempts, with the classifier's regex meaning and the parsed results directory. `Command.ExecuteEnd`, `Command.ExecuteEarlier` and `Command.ExecuteFailing` carry them to `Execute`'s result.
- The filter's effect inside the test runner is out of scope. `FullyQualifiedName~X` selects every test whose full name contains `X`, so a failing `Sample.Test1` also re-runs `Sample.Test10`, as the comment at lines 231-233 admits. The model proves which terms the filter holds, not which tests the runner then selects.
- The rendering is out of scope: Spectre.Console progress columns, task descriptions, the "Retrying N failed tests" text, the error markup, and the `TrxCommand` summary printed after the session.
- The `testArgs` string in `RunTestsAsync` is built but never used, so it is not modelled.
- The program has no cancellation path, so the session has none.
- `Program.cs` and `DotnetMuxer.cs` are not part of this model. They cover the update check, help rendering and locating the `dotnet` executable.
- The sample test project is not modelled. Its two flaky tests inspire the scenarios.
