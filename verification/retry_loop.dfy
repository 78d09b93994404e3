/** The retry loop of `ExecuteAsync` as a state machine. Each attempt runs
    `dotnet test`; what the run produced (its exit code, its standard output,
    and the results directory as the parser would then find it) comes from
    a script of observations, one per attempt, in place of the process and
    the file system. */
module RetryLoop {
  import opened TrxResults
  import opened Classifier

  /** What one attempt produced. */
  datatype Observation = Observation(exitCode: int, stdout: string, results: ResultsDirectory)

  /** One invocation of the test runner: its 1-based attempt number, the
      persistent arguments it was given, and the failing set its filter is
      built from. */
  datatype Invocation = Invocation(attempt: nat, args: seq<string>, failing: set<string>)

  /** How a session ends. */
  datatype Terminal =
    | Success
    | FatalFailure(exitCode: int, output: string)  // the run did not get to run tests
    | AttemptsExhausted(exitCode: int)

  /** The exit code a session reports. */
  function ExitCode(t: Terminal): int {
    match t
    case Success => 0
    case FatalFailure(code, _) => code
    case AttemptsExhausted(code) => code
  }

  /** A finished session: how it ended and every invocation, in order. */
  datatype Session = Session(end: Terminal, invocations: seq<Invocation>)

  const NoBuild: string := "--no-build"

  /** The arguments of a retry: `--no-build` put in front unless already present. */
  function WithNoBuild(args: seq<string>): (r: seq<string>)
    ensures NoBuild in r
    ensures r == args || r == [NoBuild] + args
    ensures r == args <==> NoBuild in args
  {
    if NoBuild in args then args else [NoBuild] + args
  }

  /** Adding `--no-build` a second time changes nothing. */
  lemma WithNoBuildIdempotent(args: seq<string>)
    ensures WithNoBuild(WithNoBuild(args)) == WithNoBuild(args)
  {
  }

  /** `--no-build` occurs once after the insertion if it did not occur before. */
  lemma WithNoBuildCount(args: seq<string>)
    ensures Count(WithNoBuild(args), NoBuild) == if NoBuild in args then Count(args, NoBuild) else 1
  {
    if NoBuild !in args {
      CountAbsent(args, NoBuild);
      assert ([NoBuild] + args)[1..] == args;
    }
  }

  /** The number of occurrences of `x` in `s`. */
  function Count(s: seq<string>, x: string): nat {
    if |s| == 0 then 0 else (if s[0] == x then 1 else 0) + Count(s[1..], x)
  }

  lemma {:induction false} CountAbsent(s: seq<string>, x: string)
    requires x !in s
    ensures Count(s, x) == 0
  {
    if |s| > 0 {
      assert x !in s[1..];
      CountAbsent(s[1..], x);
    }
  }

  /** The most attempts a session makes: `attempts >= Attempts` is tested
      only after an attempt, so at least one always runs. */
  function Budget(maxAttempts: int): nat {
    if maxAttempts < 1 then 1 else maxAttempts
  }

  /** Every observation's TRX files resolve their test ids. */
  predicate WellFormed(script: seq<Observation>) {
    forall i :: 0 <= i < |script| ==> AllResolved(script[i].results)
  }

  /** What the loop reads from one attempt: the exit code, the output,
      whether the output shows that tests ran, and the parsed outcomes. */
  datatype Reading = Reading(exitCode: int, stdout: string, retryable: bool, outcomes: map<string, bool>)

  function Read(obs: Observation): Reading
    requires AllResolved(obs.results)
  {
    Reading(obs.exitCode, obs.stdout, IsRetryable(obs.stdout), GetTestResults(obs.results))
  }

  /** The reading of every attempt of a script. */
  function Readings(script: seq<Observation>): (rs: seq<Reading>)
    requires WellFormed(script)
    ensures |rs| == |script|
  {
    if |script| == 0 then [] else [Read(script[0])] + Readings(script[1..])
  }

  /** Attempt `i + 1`'s reading is what `Read` makes of its observation. */
  lemma {:induction false} ReadingAt(script: seq<Observation>, i: nat)
    requires WellFormed(script) && i < |script|
    ensures Readings(script)[i] == Read(script[i])
  {
    if i > 0 {
      ReadingAt(script[1..], i - 1);
    }
  }

  /** The reading of attempt `i + 1` carries its exit code and output as
      observed. */
  lemma ReadingOf(script: seq<Observation>, i: nat)
    requires WellFormed(script) && i < |script|
    ensures Readings(script)[i].exitCode == script[i].exitCode
    ensures Readings(script)[i].stdout == script[i].stdout
  {
    ReadingAt(script, i);
  }

  /** The reading of attempt `i + 1` carries the classifier's verdict on its output. */
  lemma ReadingVerdict(script: seq<Observation>, i: nat)
    requires WellFormed(script) && i < |script|
    ensures Readings(script)[i].retryable == IsRetryable(script[i].stdout)
    ensures Readings(script)[i].retryable <==> ShowsTestRun(script[i].stdout)
  {
    ReadingAt(script, i);
    IsRetryableMeaning(script[i].stdout);
  }

  /** The reading of attempt `i + 1` carries the outcomes parsed from its results directory. */
  lemma ReadingOutcomes(script: seq<Observation>, i: nat)
    requires WellFormed(script) && i < |script|
    ensures Readings(script)[i].outcomes == GetTestResults(script[i].results)
  {
    ReadingAt(script, i);
  }

  /** The failing set after attempt `n`: attempt 1 adds every name parsed as
      failed; later attempts remove every name parsed as not failed. */
  function UpdateFailing(n: nat, failing: set<string>, outcomes: map<string, bool>): set<string> {
    if n == 1 then failing + FailedNames(outcomes)
    else set x | x in failing && !(x in outcomes && !outcomes[x])
  }

  /** The persistent arguments for attempt `n`: from attempt 2 on,
      `--no-build` is put in front unless already present. */
  function RunArgs(n: nat, args: seq<string>): seq<string> {
    if n > 1 then WithNoBuild(args) else args
  }

  /** The loop goes on after attempt `n` only when it exited non-zero, its
      output shows that tests ran, and the budget is not reached. */
  predicate Continues(maxAttempts: int, n: nat, rd: Reading) {
    rd.exitCode != 0 && rd.retryable && n < maxAttempts
  }

  /** How the loop ends after an attempt that does not continue it; the
      tests are made in the source's order: exit code, output, budget. */
  function EndOf(rd: Reading): Terminal {
    if rd.exitCode == 0 then Success
    else if !rd.retryable then FatalFailure(rd.exitCode, rd.stdout)
    else AttemptsExhausted(rd.exitCode)
  }

  /** The loop from attempt `|done| + 1` on, given the persistent arguments
      and failing set before that attempt and the invocations made so far.
      It only appends invocations, numbered by attempt, within the budget. */
  function Drive(maxAttempts: int, readings: seq<Reading>, args: seq<string>,
                 failing: set<string>, done: seq<Invocation>): (r: Session)
    requires |done| < Budget(maxAttempts) <= |readings|
    decreases Budget(maxAttempts) - |done|
    ensures |done| < |r.invocations| <= Budget(maxAttempts)
    ensures r.invocations[..|done|] == done
    ensures forall i :: |done| <= i < |r.invocations| ==> r.invocations[i].attempt == i + 1
  {
    var n := |done| + 1;
    var made := done + [Invocation(n, RunArgs(n, args), failing)];
    var rd := readings[n - 1];
    if Continues(maxAttempts, n, rd) then
      var r := Drive(maxAttempts, readings, RunArgs(n, args),
                     UpdateFailing(n, failing, rd.outcomes), made);
      assert r.invocations[..|done|] == r.invocations[..|made|][..|done|];
      assert r.invocations[|done|] == r.invocations[..|made|][|done|];
      r
    else Session(EndOf(rd), made)
  }

  /** How the loop ends: every attempt before the last went on, the last one
      did not, and it decides the end. */
  lemma {:induction false} DriveEnd(maxAttempts: int, readings: seq<Reading>, args: seq<string>,
                                    failing: set<string>, done: seq<Invocation>)
    requires |done| < Budget(maxAttempts) <= |readings|
    decreases Budget(maxAttempts) - |done|
    ensures var r := Drive(maxAttempts, readings, args, failing, done);
      && r.end == EndOf(readings[|r.invocations| - 1])
      && !Continues(maxAttempts, |r.invocations|, readings[|r.invocations| - 1])
      && forall i :: |done| <= i < |r.invocations| - 1 ==> Continues(maxAttempts, i + 1, readings[i])
  {
    var n := |done| + 1;
    var made := done + [Invocation(n, RunArgs(n, args), failing)];
    var rd := readings[n - 1];
    DriveStep(maxAttempts, readings, args, failing, done);
    if Continues(maxAttempts, n, rd) {
      var r := Drive(maxAttempts, readings, RunArgs(n, args), UpdateFailing(n, failing, rd.outcomes), made);
      DriveEnd(maxAttempts, readings, RunArgs(n, args), UpdateFailing(n, failing, rd.outcomes), made);
      assert Drive(maxAttempts, readings, args, failing, done) == r;
      forall i | |done| <= i < |r.invocations| - 1
        ensures Continues(maxAttempts, i + 1, readings[i])
      {
        if i == |done| {
          assert readings[i] == rd;
        }
      }
    }
  }

  /** One step of the loop: the attempt is made, then the loop goes on or ends. */
  lemma DriveStep(maxAttempts: int, readings: seq<Reading>, args: seq<string>,
                  failing: set<string>, done: seq<Invocation>)
    requires |done| < Budget(maxAttempts) <= |readings|
    ensures var n := |done| + 1;
      var made := done + [Invocation(n, RunArgs(n, args), failing)];
      var rd := readings[n - 1];
      Drive(maxAttempts, readings, args, failing, done) ==
        if Continues(maxAttempts, n, rd)
        then Drive(maxAttempts, readings, RunArgs(n, args), UpdateFailing(n, failing, rd.outcomes), made)
        else Session(EndOf(rd), made)
  {
  }

  /** From invocation `from` on, the first invocation has the persistent
      arguments `args` and every later one has them with `--no-build`. */
  ghost predicate ArgsFrom(invocations: seq<Invocation>, from: nat, args: seq<string>) {
    forall i :: from <= i < |invocations| ==>
      invocations[i].args == if i == 0 then args else WithNoBuild(args)
  }

  /** The arguments of each invocation: the first attempt's are the
      persistent ones as given, every later one has `--no-build` once. */
  lemma {:induction false} DriveArgs(maxAttempts: int, readings: seq<Reading>, args: seq<string>,
                                     failing: set<string>, done: seq<Invocation>)
    requires |done| < Budget(maxAttempts) <= |readings|
    decreases Budget(maxAttempts) - |done|
    ensures ArgsFrom(Drive(maxAttempts, readings, args, failing, done).invocations, |done|, args)
  {
    var n := |done| + 1;
    var made := done + [Invocation(n, RunArgs(n, args), failing)];
    var rd := readings[n - 1];
    if Continues(maxAttempts, n, rd) {
      var next := UpdateFailing(n, failing, rd.outcomes);
      var r := Drive(maxAttempts, readings, RunArgs(n, args), next, made);
      DriveStep(maxAttempts, readings, args, failing, done);
      DriveArgs(maxAttempts, readings, RunArgs(n, args), next, made);
      assert r.invocations[|done|] == r.invocations[..|made|][|done|];
      ArgsStep(r.invocations, n, args);
    } else {
      DriveStep(maxAttempts, readings, args, failing, done);
      assert RunArgs(n, args) == if n == 1 then args else WithNoBuild(args);
    }
  }

  /** One step of `DriveArgs`: invocation `n - 1` got `RunArgs(n, args)` and
      the later ones follow from those. */
  lemma ArgsStep(invocations: seq<Invocation>, n: nat, args: seq<string>)
    requires 1 <= n < |invocations|
    requires invocations[n - 1].args == RunArgs(n, args)
    requires ArgsFrom(invocations, n, RunArgs(n, args))
    ensures ArgsFrom(invocations, n - 1, args)
  {
    WithNoBuildIdempotent(args);
    assert WithNoBuild(RunArgs(n, args)) == WithNoBuild(args);
  }

  /** The failing set of each invocation: the given one first, then after
      attempt 1 the names parsed as failed are added, and after each later
      attempt the names parsed as not failed are removed. */
  lemma {:induction false} DriveFailing(maxAttempts: int, readings: seq<Reading>, args: seq<string>,
                                        failing: set<string>, done: seq<Invocation>)
    requires |done| < Budget(maxAttempts) <= |readings|
    decreases Budget(maxAttempts) - |done|
    ensures var r := Drive(maxAttempts, readings, args, failing, done);
      && r.invocations[|done|].failing == failing
      && forall i :: |done| <= i < |r.invocations| - 1 ==>
           r.invocations[i + 1].failing ==
             if i == 0 then r.invocations[i].failing + FailedNames(readings[i].outcomes)
             else r.invocations[i].failing - PassedNames(readings[i].outcomes)
  {
    var n := |done| + 1;
    var made := done + [Invocation(n, RunArgs(n, args), failing)];
    var rd := readings[n - 1];
    if Continues(maxAttempts, n, rd) {
      var next := UpdateFailing(n, failing, rd.outcomes);
      var r := Drive(maxAttempts, readings, RunArgs(n, args), next, made);
      DriveStep(maxAttempts, readings, args, failing, done);
      DriveFailing(maxAttempts, readings, RunArgs(n, args), next, made);
      assert r.invocations[|done|] == r.invocations[..|made|][|done|];
      if n > 1 {
        assert next == failing - PassedNames(rd.outcomes);
      }
    }
  }

  /** A whole retry session (`RetestSettings.Attempts` is `maxAttempts`)
      over the readings of its attempts. It makes between one and
      `Budget(maxAttempts)` invocations, numbered by attempt. */
  function Retest(maxAttempts: int, args: seq<string>, readings: seq<Reading>): (r: Session)
    requires Budget(maxAttempts) <= |readings|
    ensures 1 <= |r.invocations| <= Budget(maxAttempts)
    ensures forall i :: 0 <= i < |r.invocations| ==> r.invocations[i].attempt == i + 1
  {
    Drive(maxAttempts, readings, args, {}, [])
  }

  /** How a reading that stops the loop ends it: the exit code is the
      reading's; success exactly on 0; a fatal failure, carrying the output,
      exactly when a non-zero exit shows no test run; otherwise the budget
      is spent. */
  lemma EndOfMeaning(rd: Reading)
    ensures ExitCode(EndOf(rd)) == rd.exitCode
    ensures EndOf(rd).Success? <==> rd.exitCode == 0
    ensures EndOf(rd).FatalFailure? <==> rd.exitCode != 0 && !rd.retryable
    ensures EndOf(rd).FatalFailure? ==> EndOf(rd).output == rd.stdout
    ensures EndOf(rd).AttemptsExhausted? <==> rd.exitCode != 0 && rd.retryable
  {
  }

  /** The last attempt decides how the session ends: its exit code is the
      one reported; success exactly on 0; a fatal failure, carrying its
      output, exactly when a non-zero exit shows no test run (looked at
      before the budget); otherwise the budget is spent, every attempt made. */
  lemma RetestEnd(maxAttempts: int, args: seq<string>, readings: seq<Reading>)
    requires Budget(maxAttempts) <= |readings|
    ensures var r := Retest(maxAttempts, args, readings);
      var last := readings[|r.invocations| - 1];
      && ExitCode(r.end) == last.exitCode
      && (r.end.Success? <==> last.exitCode == 0)
      && (r.end.FatalFailure? <==> last.exitCode != 0 && !last.retryable)
      && (r.end.FatalFailure? ==> r.end.output == last.stdout)
      && (r.end.AttemptsExhausted? <==> last.exitCode != 0 && last.retryable)
      && (r.end.AttemptsExhausted? ==> |r.invocations| == Budget(maxAttempts))
  {
    DriveEnd(maxAttempts, readings, args, {}, []);
    EndOfMeaning(readings[|Retest(maxAttempts, args, readings).invocations| - 1]);
  }

  /** Every attempt before the last exited non-zero with output showing
      that tests ran: nothing else makes the loop go on. */
  lemma RetestEarlier(maxAttempts: int, args: seq<string>, readings: seq<Reading>)
    requires Budget(maxAttempts) <= |readings|
    ensures var r := Retest(maxAttempts, args, readings);
      forall i :: 0 <= i < |r.invocations| - 1 ==> readings[i].exitCode != 0 && readings[i].retryable
  {
    DriveEnd(maxAttempts, readings, args, {}, []);
  }

  /** The session reports 0 exactly when some attempt it made exited 0:
      the loop stops at the first. */
  lemma RetestSucceeds(maxAttempts: int, args: seq<string>, readings: seq<Reading>)
    requires Budget(maxAttempts) <= |readings|
    ensures var r := Retest(maxAttempts, args, readings);
      ExitCode(r.end) == 0 <==> exists i :: 0 <= i < |r.invocations| && readings[i].exitCode == 0
  {
    RetestEnd(maxAttempts, args, readings);
    RetestEarlier(maxAttempts, args, readings);
    var r := Retest(maxAttempts, args, readings);
    if ExitCode(r.end) == 0 {
      assert readings[|r.invocations| - 1].exitCode == 0;
    }
  }

  /** The first attempt gets the prepared arguments; every later attempt the
      same arguments with `--no-build` added once, so no retry adds a second
      copy and the first attempt never gets one it was not given. */
  lemma RetestArgs(maxAttempts: int, args: seq<string>, readings: seq<Reading>)
    requires Budget(maxAttempts) <= |readings|
    ensures var r := Retest(maxAttempts, args, readings);
      && ArgsFrom(r.invocations, 0, args)
      && r.invocations[0].args == args
      && forall i :: 1 <= i < |r.invocations| ==>
           && r.invocations[i].args == WithNoBuild(args)
           && Count(r.invocations[i].args, NoBuild) <= Count(args, NoBuild) + 1
  {
    DriveArgs(maxAttempts, readings, args, {}, []);
    WithNoBuildCount(args);
  }

  /** The failing set starts empty; after attempt 1 it is exactly the names
      parsed as failed; after a later attempt it loses exactly the names
      parsed as not failed, keeping names the parse does not mention. */
  lemma RetestFailing(maxAttempts: int, args: seq<string>, readings: seq<Reading>)
    requires Budget(maxAttempts) <= |readings|
    ensures var r := Retest(maxAttempts, args, readings);
      && r.invocations[0].failing == {}
      && (|r.invocations| > 1 ==> r.invocations[1].failing == FailedNames(readings[0].outcomes))
      && forall i :: 1 <= i < |r.invocations| - 1 ==>
           r.invocations[i + 1].failing == r.invocations[i].failing - PassedNames(readings[i].outcomes)
  {
    DriveFailing(maxAttempts, readings, args, {}, []);
  }

  /** How an observed attempt that stops the loop ends it, with the
      classifier read by its reference meaning. */
  lemma ObservedEnd(obs: Observation)
    requires AllResolved(obs.results)
    ensures var e := EndOf(Read(obs));
      && ExitCode(e) == obs.exitCode
      && (e.Success? <==> obs.exitCode == 0)
      && (e.FatalFailure? <==> obs.exitCode != 0 && !ShowsTestRun(obs.stdout))
      && (e.FatalFailure? ==> e.output == obs.stdout)
      && (e.AttemptsExhausted? <==> obs.exitCode != 0 && ShowsTestRun(obs.stdout))
  {
    IsRetryableMeaning(obs.stdout);
  }

  /** The session over a script of observed attempts, with the classifier
      read by its reference meaning: the last attempt's exit code is
      reported; the session fails fatally, with that attempt's output,
      exactly when it exited non-zero and no line of its output shows a test
      run; it spends its budget, having made every attempt, exactly when it
      exited non-zero after a test run. */
  lemma ScriptEnd(maxAttempts: int, args: seq<string>, script: seq<Observation>)
    requires WellFormed(script) && Budget(maxAttempts) <= |script|
    ensures var r := Retest(maxAttempts, args, Readings(script));
      var last := script[|r.invocations| - 1];
      && ExitCode(r.end) == last.exitCode
      && (r.end.Success? <==> last.exitCode == 0)
      && (r.end.FatalFailure? <==> last.exitCode != 0 && !ShowsTestRun(last.stdout))
      && (r.end.FatalFailure? ==> r.end.output == last.stdout)
      && (r.end.AttemptsExhausted? <==> last.exitCode != 0 && ShowsTestRun(last.stdout))
      && (r.end.AttemptsExhausted? ==> |r.invocations| == Budget(maxAttempts))
  {
    var rs := Readings(script);
    var n := |Retest(maxAttempts, args, rs).invocations|;
    RetestEnd(maxAttempts, args, rs);
    ReadingOf(script, n - 1);
    ReadingVerdict(script, n - 1);
  }

  /** Every attempt of a scripted session before the last exited non-zero
      with a line of output showing a test run. */
  lemma ScriptEarlier(maxAttempts: int, args: seq<string>, script: seq<Observation>)
    requires WellFormed(script) && Budget(maxAttempts) <= |script|
    ensures var r := Retest(maxAttempts, args, Readings(script));
      forall i :: 0 <= i < |r.invocations| - 1 ==> script[i].exitCode != 0 && ShowsTestRun(script[i].stdout)
  {
    var rs := Readings(script);
    RetestEarlier(maxAttempts, args, rs);
    forall i | 0 <= i < |Retest(maxAttempts, args, rs).invocations| - 1
      ensures script[i].exitCode != 0 && ShowsTestRun(script[i].stdout)
    {
      ReadingOf(script, i);
      ReadingVerdict(script, i);
    }
  }

  /** The failing set over a script of observed attempts: empty for attempt
      1, then the names the results directory of attempt 1 reports failed,
      then after each later attempt those minus the names its results
      directory reports passed. */
  lemma ScriptFailing(maxAttempts: int, args: seq<string>, script: seq<Observation>)
    requires WellFormed(script) && Budget(maxAttempts) <= |script|
    ensures var r := Retest(maxAttempts, args, Readings(script));
      && r.invocations[0].failing == {}
      && (|r.invocations| > 1 ==> r.invocations[1].failing == FailedNames(GetTestResults(script[0].results)))
      && forall i :: 1 <= i < |r.invocations| - 1 ==>
           r.invocations[i + 1].failing == r.invocations[i].failing - PassedNames(GetTestResults(script[i].results))
  {
    var rs := Readings(script);
    var r := Retest(maxAttempts, args, rs);
    RetestFailing(maxAttempts, args, rs);
    ReadingOutcomes(script, 0);
    forall i | 1 <= i < |r.invocations| - 1
      ensures r.invocations[i + 1].failing == r.invocations[i].failing - PassedNames(GetTestResults(script[i].results))
    {
      ReadingOutcomes(script, i);
    }
  }

  /** The failing set never grows after it is seeded: every later set is a
      subset of every earlier one from attempt 2 on, hence of the seed. */
  lemma {:induction false} FailingShrinks(maxAttempts: int, args: seq<string>, readings: seq<Reading>, i: nat, j: nat)
    requires Budget(maxAttempts) <= |readings|
    requires 1 <= i <= j < |Retest(maxAttempts, args, readings).invocations|
    ensures var r := Retest(maxAttempts, args, readings);
      r.invocations[j].failing <= r.invocations[i].failing
    decreases j - i
  {
    if i < j {
      RetestFailing(maxAttempts, args, readings);
      FailingShrinks(maxAttempts, args, readings, i, j - 1);
    }
  }
}
