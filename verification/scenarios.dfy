/** Concrete sessions: the flaky-test story the sample project's `FailsOnce`
    and `FailsTwice` tests play out, with enough attempts and with too few,
    and a run that never gets to run tests. */
module Scenarios {
  import opened Wrappers
  import opened Strings
  import opened Classifier
  import opened TrxResults
  import opened RetryLoop

  /** A summary line as `dotnet test` prints it,
      `Failed: 2, Passed: 1, Skipped: 0, Total: 3`, kept as its labels and
      counts so that the proofs below can name each piece. */
  const Summary: string :=
    "Failed:" + (" 2, " + "Passed:" + (" 1, " + "Skipped:" + (" 0, " + "Total:" + " 3")))

  /** A build failure, `MSBUILD : error MSB1009: Project file does not exist.`:
      colons, but no summary and no adapter diagnostic (kept in pieces, as
      `Summary` is). */
  const BuildError: string := "MSBUILD : " + "error MSB1009: " + "Project file " + "does not exist."

  /** Literal `p` after any text `u` and before a string spanning the rest. */
  lemma SpansAfter(u: string, p: string, t: string, parts: seq<string>)
    requires Spans(t, parts)
    ensures Spans(u + p + t, [p] + parts)
  {
    var s := u + p + t;
    assert s[|u|..|u| + |p|] == p;
    assert s[|u| + |p|..] == t;
    assert OccursAt(s, p, |u|);
    assert ([p] + parts)[0] == p && ([p] + parts)[1..] == parts;
  }

  lemma SummaryOnOneLine()
    ensures '\n' !in Summary
  {
    assert '\n' !in " 0, " && '\n' !in "Total:" && '\n' !in " 3";
    assert '\n' !in " 1, " && '\n' !in "Skipped:";
    assert '\n' !in " 2, " && '\n' !in "Passed:" && '\n' !in "Failed:";
  }

  /** The summary line marks a test run. */
  lemma SummaryIsRetryable()
    ensures IsRetryable(Summary)
  {
    var t3 := " 0, " + "Total:" + " 3";
    var t2 := " 1, " + "Skipped:" + t3;
    var t1 := " 2, " + "Passed:" + t2;
    assert Spans(" 3", []);
    SpansAfter(" 0, ", "Total:", " 3", []);
    assert ["Total:"] + [] == ["Total:"];
    SpansAfter(" 1, ", "Skipped:", t3, ["Total:"]);
    assert ["Skipped:"] + ["Total:"] == ["Skipped:", "Total:"];
    SpansAfter(" 2, ", "Passed:", t2, ["Skipped:", "Total:"]);
    assert ["Passed:"] + ["Skipped:", "Total:"] == ["Passed:", "Skipped:", "Total:"];
    SpansAfter("", "Failed:", t1, ["Passed:", "Skipped:", "Total:"]);
    assert ["Failed:"] + ["Passed:", "Skipped:", "Total:"] == SummaryPattern;
    assert "" + "Failed:" + t1 == Summary;
    SummaryOnOneLine();
    assert Summary[0..|Summary|] == Summary;
    IsRetryableMeaning(Summary);
  }

  /** A string spanning some literals contains the first character of each. */
  lemma {:induction false} SpansContains(w: string, parts: seq<string>, k: nat)
    requires Spans(w, parts)
    requires k < |parts| && |parts[k]| > 0
    ensures parts[k][0] in w
    decreases |parts|
  {
    var p := parts[0];
    var i :| OccursAt(w, p, i) && Spans(w[i + |p|..], parts[1..]);
    if k == 0 {
      assert w[i] == w[i..i + |p|][0];
    } else {
      SpansContains(w[i + |p|..], parts[1..], k - 1);
    }
  }

  /** No line matches a pattern one of whose literals starts with a character absent from the text. */
  lemma MissingCharNoMatch(s: string, parts: seq<string>, k: nat)
    requires k < |parts| && |parts[k]| > 0 && parts[k][0] !in s
    ensures !MatchesWithinLine(s, parts)
  {
    if MatchesWithinLine(s, parts) {
      var a, b :| 0 <= a <= b <= |s| && '\n' !in s[a..b] && Spans(s[a..b], parts);
      SpansContains(s[a..b], parts, k);
    }
  }

  /** The build error's text contains neither a `V` nor an `F`. */
  lemma BuildErrorLetters()
    ensures 'V' !in BuildError && 'F' !in BuildError
  {
    var p0, p1, p2, p3 := "MSBUILD : ", "error MSB1009: ", "Project file ", "does not exist.";
    assert 'V' !in p0 && 'F' !in p0;
    assert 'V' !in p1 && 'F' !in p1;
    assert 'V' !in p2 && 'F' !in p2;
    assert 'V' !in p3 && 'F' !in p3;
    assert BuildError == p0 + p1 + p2 + p3;
  }

  /** A build failure's output does not mark a test run. */
  lemma BuildErrorIsFatal()
    ensures !IsRetryable(BuildError)
  {
    BuildErrorLetters();
    assert AdapterPattern[1][0] == 'V' && SummaryPattern[0][0] == 'F';
    MissingCharNoMatch(BuildError, AdapterPattern, 1);
    MissingCharNoMatch(BuildError, SummaryPattern, 0);
    IsRetryableMeaning(BuildError);
  }

  /** Two tests of one class, identified as a TRX file identifies them. */
  const MethodA: TestMethod := TestMethod(Some("Sample"), Some("FailsOnce"))
  const MethodB: TestMethod := TestMethod(Some("Sample"), Some("FailsTwice"))
  const Methods: map<string, TestMethod> := map["id-a" := MethodA, "id-b" := MethodB]

  /** The report of attempt 1: both tests failed. */
  const FirstReport: TrxFile :=
    TrxFile([UnitTestResult("id-a", Some("Failed")), UnitTestResult("id-b", Some("Failed"))], Methods)

  /** The report of attempt 2: the first test passed on its retry. */
  const SecondReport: TrxFile :=
    TrxFile([UnitTestResult("id-a", Some("Passed")), UnitTestResult("id-b", Some("Failed"))], Methods)

  lemma FullNames()
    ensures FullName(MethodA) == "Sample.FailsOnce"
    ensures FullName(MethodB) == "Sample.FailsTwice"
  {
  }

  /** The fold over one more entry is one more visit. */
  lemma ScanSnoc(es: seq<Entry>, e: Entry)
    ensures Scan(es + [e]) == Visit(Scan(es), e)
  {
    assert (es + [e])[..|es|] == es;
  }

  lemma ScanPair(e0: Entry, e1: Entry)
    ensures Scan([e0, e1]) == Visit(Visit(ScanState({}, map[]), e0), e1)
  {
    ScanSnoc([], e0);
    assert [] + [e0] == [e0];
    ScanSnoc([e0], e1);
    assert [e0] + [e1] == [e0, e1];
  }

  lemma SingleReportEntries(f: TrxFile)
    requires Resolved(f)
    ensures AllResolved(Some([f]))
    ensures Entries([f]) == FileEntries(f)
  {
    assert [f][1..] == [];
  }

  /** Attempt 1's report marks both tests failed. */
  lemma FirstOutcomes()
    ensures AllResolved(Some([FirstReport]))
    ensures GetTestResults(Some([FirstReport])) == map["Sample.FailsOnce" := true, "Sample.FailsTwice" := true]
  {
    FullNames();
    SingleReportEntries(FirstReport);
    var es := FileEntries(FirstReport);
    assert es == [Entry("id-a", "Sample.FailsOnce", true), Entry("id-b", "Sample.FailsTwice", true)];
    ScanPair(es[0], es[1]);
  }

  /** Attempt 2's report on its own marks the first test passed. */
  lemma SecondReportOutcomes()
    ensures AllResolved(Some([SecondReport]))
    ensures GetTestResults(Some([SecondReport])) == map["Sample.FailsOnce" := false, "Sample.FailsTwice" := true]
  {
    FullNames();
    SingleReportEntries(SecondReport);
    var es := FileEntries(SecondReport);
    assert es == [Entry("id-a", "Sample.FailsOnce", false), Entry("id-b", "Sample.FailsTwice", true)];
    ScanPair(es[0], es[1]);
  }

  /** Every test id of the older report reappears in the newer one. */
  lemma OlderIdsCovered()
    ensures forall j :: 0 <= j < |[FirstReport]| ==> Resolved([FirstReport][j])
    ensures forall e :: e in Entries([FirstReport]) ==> e.testId in FileIds(SecondReport)
  {
    SingleReportEntries(FirstReport);
    assert FileEntries(FirstReport)[0].testId == "id-a";
    assert FileEntries(FirstReport)[1].testId == "id-b";
    assert SecondReport.results[0].testId == "id-a";
    assert SecondReport.results[1].testId == "id-b";
  }

  /** For each name, both reports together give what the newer gives alone. */
  lemma NewerReportDecides(k: string)
    ensures AllResolved(Some([SecondReport, FirstReport])) && AllResolved(Some([SecondReport]))
    ensures k in GetTestResults(Some([SecondReport, FirstReport])) <==> k in GetTestResults(Some([SecondReport]))
    ensures k in GetTestResults(Some([SecondReport])) ==>
      GetTestResults(Some([SecondReport, FirstReport]))[k] == GetTestResults(Some([SecondReport]))[k]
  {
    OlderIdsCovered();
    assert [SecondReport] + [FirstReport] == [SecondReport, FirstReport];
    NewestFileWins(SecondReport, [FirstReport], k);
  }

  /** With both reports in the directory, the newer one decides: the first
      test's older failure is hidden by its newer pass. */
  lemma SecondOutcomes()
    ensures AllResolved(Some([SecondReport, FirstReport]))
    ensures GetTestResults(Some([SecondReport, FirstReport])) == map["Sample.FailsOnce" := false, "Sample.FailsTwice" := true]
  {
    SecondReportOutcomes();
    NewerReportDecides("");
    var both := GetTestResults(Some([SecondReport, FirstReport]));
    var newer := GetTestResults(Some([SecondReport]));
    forall k
      ensures k in both <==> k in newer
      ensures k in newer ==> both[k] == newer[k]
    {
      NewerReportDecides(k);
    }
  }

  /** Two failing tests: attempt 1 fails both, attempt 2 (re-running both)
      passes the first, attempt 3 (re-running the second) passes. */
  const FlakyScript: seq<Observation> := [
    Observation(1, Summary, Some([FirstReport])),
    Observation(1, Summary, Some([SecondReport, FirstReport])),
    Observation(0, "", None)
  ]

  /** A run whose build fails before any test runs. */
  const BrokenScript: seq<Observation> := [
    Observation(1, BuildError, None),
    Observation(0, "", None)
  ]

  const FirstMap: map<string, bool> := map["Sample.FailsOnce" := true, "Sample.FailsTwice" := true]
  const SecondMap: map<string, bool> := map["Sample.FailsOnce" := false, "Sample.FailsTwice" := true]

  /** What the loop reads from the flaky script's attempts. */
  const FlakyReadings: seq<Reading> := [
    Reading(1, Summary, true, FirstMap),
    Reading(1, Summary, true, SecondMap),
    Reading(0, "", false, map[])
  ]

  /** What the loop reads from the broken script's attempts. */
  const BrokenReadings: seq<Reading> := [
    Reading(1, BuildError, false, map[]),
    Reading(0, "", false, map[])
  ]

  lemma EmptyOutputIsFatal()
    ensures !IsRetryable("")
  {
    assert IndexOf("", ":") == None;
    assert IndexOf("", "Failed:") == None;
  }

  lemma FlakyFirstRead()
    ensures WellFormed(FlakyScript)
    ensures Readings(FlakyScript)[0] == FlakyReadings[0]
  {
    FirstOutcomes();
    SecondOutcomes();
    SummaryIsRetryable();
    ReadingOf(FlakyScript, 0);
    ReadingVerdict(FlakyScript, 0);
    ReadingOutcomes(FlakyScript, 0);
  }

  lemma FlakySecondRead()
    ensures WellFormed(FlakyScript)
    ensures Readings(FlakyScript)[1] == FlakyReadings[1]
  {
    FirstOutcomes();
    SecondOutcomes();
    SummaryIsRetryable();
    ReadingOf(FlakyScript, 1);
    ReadingVerdict(FlakyScript, 1);
    ReadingOutcomes(FlakyScript, 1);
  }

  lemma FlakyThirdRead()
    ensures WellFormed(FlakyScript)
    ensures Readings(FlakyScript)[2] == FlakyReadings[2]
  {
    FirstOutcomes();
    SecondOutcomes();
    EmptyOutputIsFatal();
    ReadingOf(FlakyScript, 2);
    ReadingVerdict(FlakyScript, 2);
    ReadingOutcomes(FlakyScript, 2);
  }

  /** The flaky script reads as stated: the summary shows a test run and the
      reports parse to the two outcome maps. */
  lemma FlakyScriptReads()
    ensures WellFormed(FlakyScript)
    ensures Readings(FlakyScript) == FlakyReadings
  {
    FlakyFirstRead();
    FlakySecondRead();
    FlakyThirdRead();
  }

  /** The broken script reads as stated: the build error shows no test run. */
  lemma BrokenScriptReads()
    ensures WellFormed(BrokenScript)
    ensures Readings(BrokenScript) == BrokenReadings
  {
    BuildErrorIsFatal();
    EmptyOutputIsFatal();
    ReadingOf(BrokenScript, 0);
    ReadingOf(BrokenScript, 1);
    ReadingVerdict(BrokenScript, 0);
    ReadingVerdict(BrokenScript, 1);
    ReadingOutcomes(BrokenScript, 0);
    ReadingOutcomes(BrokenScript, 1);
  }

  /** With three attempts allowed, the flaky session runs all three and the
      last one passes. */
  lemma FlakySessionEnd(args: seq<string>)
    ensures var r := Retest(3, args, FlakyReadings);
      r.end == Terminal.Success && |r.invocations| == 3
  {
    RetestEnd(3, args, FlakyReadings);
  }

  /** Along the way it narrows the failing set from both tests to the
      second. */
  lemma FlakySessionFailing(args: seq<string>)
    ensures var r := Retest(3, args, FlakyReadings);
      && |r.invocations| == 3
      && r.invocations[1].failing == {"Sample.FailsOnce", "Sample.FailsTwice"}
      && r.invocations[2].failing == {"Sample.FailsTwice"}
  {
    FlakySessionEnd(args);
    RetestFailing(3, args, FlakyReadings);
    assert FailedNames(FirstMap) == {"Sample.FailsOnce", "Sample.FailsTwice"};
    assert PassedNames(SecondMap) == {"Sample.FailsOnce"};
  }

  /** In all, the flaky session ends in success after narrowing the failing
      set, and its retries skip the build. */
  lemma FlakySession(args: seq<string>)
    ensures WellFormed(FlakyScript)
    ensures var r := Retest(3, args, Readings(FlakyScript));
      && r.end == Terminal.Success
      && |r.invocations| == 3
      && r.invocations[1].failing == {"Sample.FailsOnce", "Sample.FailsTwice"}
      && r.invocations[2].failing == {"Sample.FailsTwice"}
      && r.invocations[2].args == WithNoBuild(args)
  {
    FlakyScriptReads();
    FlakySessionEnd(args);
    FlakySessionFailing(args);
    RetestArgs(3, args, FlakyReadings);
  }

  /** With only two attempts allowed, the same session spends its budget and
      reports the second attempt's exit code. */
  lemma FlakySessionExhausted(args: seq<string>)
    ensures WellFormed(FlakyScript)
    ensures var r := Retest(2, args, Readings(FlakyScript));
      && r.end == AttemptsExhausted(1)
      && ExitCode(r.end) == 1
      && |r.invocations| == 2
  {
    FlakyScriptReads();
    RetestEnd(2, args, FlakyReadings);
  }

  /** With up to two attempts allowed, a build failure ends the session
      after the first one and reports the build's exit code and output. */
  lemma BrokenSession(maxAttempts: int, args: seq<string>)
    requires maxAttempts <= 2
    ensures WellFormed(BrokenScript)
    ensures var r := Retest(maxAttempts, args, Readings(BrokenScript));
      && r.end == FatalFailure(1, BuildError)
      && |r.invocations| == 1
      && r.invocations[0].args == args
  {
    BrokenScriptReads();
    RetestEnd(maxAttempts, args, BrokenReadings);
    RetestEarlier(maxAttempts, args, BrokenReadings);
    RetestArgs(maxAttempts, args, BrokenReadings);
  }
}
