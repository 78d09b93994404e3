/** `ExecuteAsync` end to end: argument preparation, then the retry session,
    and the command line each attempt hands to `dotnet`. Rendering, the
    summary report and the process itself are left out. */
module Command {
  import opened Wrappers
  import opened Strings
  import opened Arguments
  import opened Settings
  import opened TestRun
  import opened Classifier
  import opened TrxResults
  import opened RetryLoop

  /** What `ExecuteAsync` returns: its exit code, and the session when the
      arguments were accepted. */
  datatype Execution = Execution(exitCode: int, session: Option<Session>)

  /** `ExecuteAsync`: a rejected logger returns 1 before any run; otherwise
      the retry session runs with the prepared arguments, within the
      attempt budget, and the last attempt's exit code is returned
      (`ExecuteEnd`, `ExecuteEarlier`, `ExecuteFailing`). */
  function Execute(rem: Remaining, opts: RecognisedOptions, env: Environment,
                   settings: RetestSettings, script: seq<Observation>): (r: Execution)
    requires Budget(settings.attempts) <= |script|
    requires WellFormed(script)
    ensures r.session.None? <==>
      |opts.loggers| > 0 && !StartsWith(opts.loggers[|opts.loggers| - 1], TrxLogger) && !env.isWindows
    ensures r.session.None? ==> r.exitCode == LoggerError
    ensures r.session.Some? ==>
      var p := Prepare(TestArgs(rem), opts, env);
      var inv := r.session.value.invocations;
      && p.Success?
      && 1 <= |inv| <= Budget(settings.attempts)
      && inv[0].args == p.value.args
      && (forall i :: 1 <= i < |inv| ==> inv[i].args == WithNoBuild(p.value.args))
      && |TestArgs(rem)| <= |inv[0].args|
      && inv[0].args[|inv[0].args| - |TestArgs(rem)|..] == TestArgs(rem)
  {
    var args := TestArgs(rem);
    match Prepare(args, opts, env)
    case Failure(code) => Execution(code, None)
    case Success(prepared) =>
      var session := Retest(settings.attempts, prepared.args, Readings(script));
      RetestArgs(settings.attempts, prepared.args, Readings(script));
      PrepareKeepsUserArgs(args, opts, env);
      Execution(ExitCode(session.end), Some(session))
  }

  /** How an accepted command line's session ends: the last attempt's exit
      code is returned; the session fails fatally exactly when that attempt
      exited non-zero and no line of its output shows a test run, and spends
      its budget, having made every attempt, exactly when it exited non-zero
      after one. */
  lemma ExecuteEnd(rem: Remaining, opts: RecognisedOptions, env: Environment,
                   settings: RetestSettings, script: seq<Observation>)
    requires Budget(settings.attempts) <= |script|
    requires WellFormed(script)
    ensures var r := Execute(rem, opts, env, settings, script);
      r.session.Some? ==>
        var inv := r.session.value.invocations;
        var end := r.session.value.end;
        var last := script[|inv| - 1];
        && r.exitCode == last.exitCode
        && (end.FatalFailure? <==> last.exitCode != 0 && !ShowsTestRun(last.stdout))
        && (end.AttemptsExhausted? <==> last.exitCode != 0 && ShowsTestRun(last.stdout))
        && (end.AttemptsExhausted? ==> |inv| == Budget(settings.attempts))
  {
    var p := Prepare(TestArgs(rem), opts, env);
    if p.Success? {
      ScriptEnd(settings.attempts, p.value.args, script);
    }
  }

  /** Every attempt of an accepted command line's session before the last
      exited non-zero after a test run: nothing else brings another. */
  lemma ExecuteEarlier(rem: Remaining, opts: RecognisedOptions, env: Environment,
                       settings: RetestSettings, script: seq<Observation>)
    requires Budget(settings.attempts) <= |script|
    requires WellFormed(script)
    ensures var r := Execute(rem, opts, env, settings, script);
      r.session.Some? ==>
        var inv := r.session.value.invocations;
        forall i :: 0 <= i < |inv| - 1 ==> script[i].exitCode != 0 && ShowsTestRun(script[i].stdout)
  {
    var p := Prepare(TestArgs(rem), opts, env);
    if p.Success? {
      ScriptEarlier(settings.attempts, p.value.args, script);
    }
  }

  /** The failing set of an accepted command line's session: empty for
      attempt 1, the names attempt 1's results directory reports failed for
      attempt 2, and from then on the previous set minus the names the
      previous attempt's results directory reports passed. */
  lemma ExecuteFailing(rem: Remaining, opts: RecognisedOptions, env: Environment,
                       settings: RetestSettings, script: seq<Observation>)
    requires Budget(settings.attempts) <= |script|
    requires WellFormed(script)
    ensures var r := Execute(rem, opts, env, settings, script);
      r.session.Some? ==>
        var inv := r.session.value.invocations;
        && inv[0].failing == {}
        && (|inv| > 1 ==> inv[1].failing == FailedNames(GetTestResults(script[0].results)))
        && forall i :: 1 <= i < |inv| - 1 ==>
             inv[i + 1].failing == inv[i].failing - PassedNames(GetTestResults(script[i].results))
  {
    var p := Prepare(TestArgs(rem), opts, env);
    if p.Success? {
      ScriptFailing(settings.attempts, p.value.args, script);
    }
  }

  /** `order` is one enumeration of the set `s`: each member exactly once. */
  predicate Enumerates(order: seq<string>, s: set<string>) {
    && (forall i, j :: 0 <= i < j < |order| ==> order[i] != order[j])
    && (set x | x in order) == s
  }

  /** An enumeration is empty exactly when its set is. */
  lemma EnumerationEmpty(order: seq<string>, s: set<string>)
    requires Enumerates(order, s)
    ensures |order| == 0 <==> s == {}
  {
    if |order| > 0 {
      assert order[0] in s;
    }
  }

  /** The command line of one invocation, its failing set enumerated in
      `order` (a `HashSet` promises no particular order): `test`, then a
      filter when the set is not empty, then the persistent arguments. */
  function InvocationArguments(inv: Invocation, order: seq<string>): (argv: seq<string>)
    requires Enumerates(order, inv.failing)
    ensures inv.failing == {} ==> argv == [TestVerb] + inv.args
    ensures inv.failing != {} ==> argv == [TestVerb, FilterOption, Filter(order)] + inv.args
  {
    EnumerationEmpty(order, inv.failing);
    TestArguments(inv.args, order)
  }

  /** Whatever the enumeration order, the filter's terms are exactly those of
      the tests in the failing set (for names without the `|` separator). */
  lemma FilterTermsOfSet(order: seq<string>, s: set<string>, name: string)
    requires Enumerates(order, s) && s != {}
    requires forall x :: x in s ==> FilterSeparator !in x
    ensures FilterTerm(name) in Split(Filter(order), FilterSeparator) <==> name in s
  {
    var x :| x in s;
    assert |order| > 0;
    FilterTermsExact(order, name);
  }

  /** Two enumerations of the same set give filters with the same terms. */
  lemma FilterOrderIrrelevant(a: seq<string>, b: seq<string>, s: set<string>)
    requires Enumerates(a, s) && Enumerates(b, s) && s != {}
    requires forall x :: x in s ==> FilterSeparator !in x
    ensures forall name :: FilterTerm(name) in Split(Filter(a), FilterSeparator)
                       <==> FilterTerm(name) in Split(Filter(b), FilterSeparator)
  {
    forall name
      ensures FilterTerm(name) in Split(Filter(a), FilterSeparator)
          <==> FilterTerm(name) in Split(Filter(b), FilterSeparator)
    {
      FilterTermsOfSet(a, s, name);
      FilterTermsOfSet(b, s, name);
    }
  }

  /** Filters and `test` never pile up across attempts: attempt `i + 1`'s
      command line is `test`, a filter for its own failing set only, and the
      prepared arguments (with `--no-build` from attempt 2 on). */
  lemma AttemptArgumentsDoNotAccumulate(maxAttempts: int, args: seq<string>, readings: seq<Reading>,
                                        i: nat, order: seq<string>)
    requires Budget(maxAttempts) <= |readings|
    requires i < |Retest(maxAttempts, args, readings).invocations|
    requires Enumerates(order, Retest(maxAttempts, args, readings).invocations[i].failing)
    ensures var inv := Retest(maxAttempts, args, readings).invocations[i];
      InvocationArguments(inv, order) ==
        [TestVerb]
        + (if inv.failing == {} then [] else [FilterOption, Filter(order)])
        + (if i == 0 then args else WithNoBuild(args))
  {
    RetestArgs(maxAttempts, args, readings);
  }
}
