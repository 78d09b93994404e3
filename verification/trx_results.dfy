/** `GetTestResults`: folds the TRX reports of the results directory into a
    map from a test's full name to whether it failed. Reading and parsing
    the files is left out: each file arrives as its `UnitTestResult` records
    and its `UnitTest` definitions, and the directory arrives as its files
    already ordered newest first. */
module TrxResults {
  import opened Wrappers

  /** A `UnitTestResult` element: its `testId` and `outcome` attributes. */
  datatype UnitTestResult = UnitTestResult(testId: string, outcome: Option<string>)

  /** The `TestMethod` of a `UnitTest` definition: its `className` and `name` attributes. */
  datatype TestMethod = TestMethod(className: Option<string>, name: Option<string>)

  /** One TRX file: its results in document order and its definitions by test id. */
  datatype TrxFile = TrxFile(results: seq<UnitTestResult>, methods: map<string, TestMethod>)

  /** The results directory: `None` when it does not exist, otherwise its
      `*.trx` files in descending last-write order. */
  type ResultsDirectory = Option<seq<TrxFile>>

  /** The outcome literal that marks a failed test. */
  const FailedOutcome: string := "Failed"

  /** A result is a failure iff its outcome attribute is exactly "Failed"
      (a missing attribute is not). */
  predicate IsFailed(r: UnitTestResult) {
    r.outcome == Some(FailedOutcome)
  }

  /** `$"{className}.{name}"`, a missing attribute rendering as empty. */
  function FullName(m: TestMethod): string {
    m.className.GetOr("") + "." + m.name.GetOr("")
  }

  /** Every result's test id has a definition in the same file (the source
      asserts this and would dereference null otherwise). */
  predicate Resolved(f: TrxFile) {
    forall i :: 0 <= i < |f.results| ==> f.results[i].testId in f.methods
  }

  predicate AllResolved(dir: ResultsDirectory) {
    dir.Some? ==> forall k :: 0 <= k < |dir.value| ==> Resolved(dir.value[k])
  }

  /** One result as the fold sees it: its id, its full name, its failure flag. */
  datatype Entry = Entry(testId: string, fullName: string, failed: bool)

  function FileEntries(f: TrxFile): (es: seq<Entry>)
    requires Resolved(f)
    ensures |es| == |f.results|
    ensures forall i :: 0 <= i < |es| ==> es[i].testId == f.results[i].testId
  {
    seq(|f.results|, i requires 0 <= i < |f.results| =>
      var r := f.results[i];
      Entry(r.testId, FullName(f.methods[r.testId]), IsFailed(r)))
  }

  /** All results of all files, in processing order. */
  function Entries(files: seq<TrxFile>): seq<Entry>
    requires forall k :: 0 <= k < |files| ==> Resolved(files[k])
  {
    if |files| == 0 then [] else FileEntries(files[0]) + Entries(files[1..])
  }

  /** The state of the fold: the test ids already seen and the outcomes so far. */
  datatype ScanState = ScanState(seen: set<string>, outcomes: map<string, bool>)

  /** The loop body: a test id is processed only the first time it is seen,
      and an outcome already marked failed is never overwritten. */
  function Visit(st: ScanState, e: Entry): ScanState {
    if e.testId in st.seen then st
    else
      var outcomes :=
        if e.fullName !in st.outcomes || !st.outcomes[e.fullName]
        then st.outcomes[e.fullName := e.failed]
        else st.outcomes;
      ScanState(st.seen + {e.testId}, outcomes)
  }

  /** Entry `i` is the first one carrying its test id. */
  ghost predicate FirstOccurrence(es: seq<Entry>, i: int) {
    0 <= i < |es| && forall j :: 0 <= j < i ==> es[j].testId != es[i].testId
  }

  /** Some first occurrence has full name `k`. */
  ghost predicate Reported(es: seq<Entry>, k: string) {
    exists i :: FirstOccurrence(es, i) && es[i].fullName == k
  }

  /** Some first occurrence with full name `k` failed. */
  ghost predicate ReportedFailed(es: seq<Entry>, k: string) {
    exists i :: FirstOccurrence(es, i) && es[i].fullName == k && es[i].failed
  }

  /** The fold over `es`. Its result keeps one outcome per full name that
      some first occurrence carries, and that outcome is the OR of the
      failure flags of those first occurrences. */
  function Scan(es: seq<Entry>): (st: ScanState)
    ensures st.seen == set i | 0 <= i < |es| :: es[i].testId
    ensures forall k :: k in st.outcomes <==> Reported(es, k)
    ensures forall k :: k in st.outcomes ==> (st.outcomes[k] <==> ReportedFailed(es, k))
  {
    if |es| == 0 then ScanState({}, map[])
    else
      var before := Scan(es[..|es| - 1]);
      var after := Visit(before, es[|es| - 1]);
      VisitStep(es, before, after);
      after
  }

  /** The first occurrences of `es` are those of its prefix plus possibly its last entry. */
  lemma FirstOccurrenceStep(es: seq<Entry>)
    requires |es| > 0
    ensures forall i :: 0 <= i < |es| - 1 ==> (FirstOccurrence(es, i) <==> FirstOccurrence(es[..|es| - 1], i))
    ensures FirstOccurrence(es, |es| - 1) <==> es[|es| - 1].testId !in (set i | 0 <= i < |es| - 1 :: es[i].testId)
  {
    var n := |es| - 1;
    if es[n].testId in (set i | 0 <= i < n :: es[i].testId) {
      var j :| 0 <= j < n && es[j].testId == es[n].testId;
    }
  }

  /** How `Reported` and `ReportedFailed` grow by one entry. */
  lemma ReportedStep(es: seq<Entry>, k: string)
    requires |es| > 0
    ensures Reported(es, k) <==>
      Reported(es[..|es| - 1], k) || (FirstOccurrence(es, |es| - 1) && es[|es| - 1].fullName == k)
    ensures ReportedFailed(es, k) <==>
      ReportedFailed(es[..|es| - 1], k) ||
      (FirstOccurrence(es, |es| - 1) && es[|es| - 1].fullName == k && es[|es| - 1].failed)
  {
    var n := |es| - 1;
    var prefix := es[..n];
    FirstOccurrenceStep(es);
    if Reported(es, k) {
      var i :| FirstOccurrence(es, i) && es[i].fullName == k;
      if i < n { assert FirstOccurrence(prefix, i) && prefix[i].fullName == k; }
    }
    if Reported(prefix, k) {
      var i :| FirstOccurrence(prefix, i) && prefix[i].fullName == k;
      assert FirstOccurrence(es, i) && es[i].fullName == k;
    }
    if ReportedFailed(es, k) {
      var i :| FirstOccurrence(es, i) && es[i].fullName == k && es[i].failed;
      if i < n { assert FirstOccurrence(prefix, i) && prefix[i].fullName == k && prefix[i].failed; }
    }
    if ReportedFailed(prefix, k) {
      var i :| FirstOccurrence(prefix, i) && prefix[i].fullName == k && prefix[i].failed;
      assert FirstOccurrence(es, i) && es[i].fullName == k && es[i].failed;
    }
  }

  /** One step of the fold preserves the meaning stated on `Scan`. */
  lemma VisitStep(es: seq<Entry>, before: ScanState, after: ScanState)
    requires |es| > 0
    requires before.seen == set i | 0 <= i < |es| - 1 :: es[i].testId
    requires forall k :: k in before.outcomes <==> Reported(es[..|es| - 1], k)
    requires forall k :: k in before.outcomes ==> (before.outcomes[k] <==> ReportedFailed(es[..|es| - 1], k))
    requires after == Visit(before, es[|es| - 1])
    ensures after.seen == set i | 0 <= i < |es| :: es[i].testId
    ensures forall k :: k in after.outcomes <==> Reported(es, k)
    ensures forall k :: k in after.outcomes ==> (after.outcomes[k] <==> ReportedFailed(es, k))
  {
    var n := |es| - 1;
    FirstOccurrenceStep(es);
    assert (set i | 0 <= i < |es| :: es[i].testId) == before.seen + {es[n].testId};
    forall k
      ensures k in after.outcomes <==> Reported(es, k)
      ensures k in after.outcomes ==> (after.outcomes[k] <==> ReportedFailed(es, k))
    {
      ReportedStep(es, k);
    }
  }

  /** `GetTestResults(path)`: the outcome of every test full name found in
      the directory; an absent directory yields no outcomes. */
  function GetTestResults(dir: ResultsDirectory): (outcomes: map<string, bool>)
    requires AllResolved(dir)
    ensures dir.None? ==> outcomes == map[]
  {
    match dir
    case None => map[]
    case Some(files) => Scan(Entries(files)).outcomes
  }

  /** A full name has an outcome iff some first occurrence of a test id
      carries it, and the outcome is failed iff one of those failed: a newer
      file's record for a test id hides the older ones, and a failure is
      never overwritten. */
  lemma GetTestResultsMeaning(files: seq<TrxFile>)
    requires AllResolved(Some(files))
    ensures var outcomes := GetTestResults(Some(files));
      && (forall k :: k in outcomes <==> Reported(Entries(files), k))
      && (forall k :: k in outcomes ==> (outcomes[k] <==> ReportedFailed(Entries(files), k)))
  {
  }

  /** The full names whose outcome is failed. */
  function FailedNames(outcomes: map<string, bool>): (s: set<string>)
    ensures forall k :: k in s <==> k in outcomes && outcomes[k]
  {
    set k | k in outcomes && outcomes[k]
  }

  /** The full names whose outcome is not failed. */
  function PassedNames(outcomes: map<string, bool>): (s: set<string>)
    ensures forall k :: k in s <==> k in outcomes && !outcomes[k]
  {
    set k | k in outcomes && !outcomes[k]
  }

  /** The test ids of a file's results. */
  function FileIds(f: TrxFile): set<string> {
    set i | 0 <= i < |f.results| :: f.results[i].testId
  }

  /** The test ids of a run of entries. */
  function EntryIds(es: seq<Entry>): set<string> {
    set i | 0 <= i < |es| :: es[i].testId
  }

  /** Entries placed after `n` whose id `n` already carries never count, so a
      full name all of whose later entries are such is decided by `n` alone. */
  lemma PrefixDecides(n: seq<Entry>, rest: seq<Entry>, k: string)
    requires forall e :: e in rest && e.fullName == k ==> e.testId in EntryIds(n)
    ensures Reported(n + rest, k) <==> Reported(n, k)
    ensures ReportedFailed(n + rest, k) <==> ReportedFailed(n, k)
  {
    var all := n + rest;
    var m := |n|;
    forall i | m <= i < |all| && all[i].fullName == k
      ensures !FirstOccurrence(all, i)
    {
      assert all[i] == rest[i - m];
      var j :| 0 <= j < m && n[j].testId == all[i].testId;
      assert all[j] == n[j];
    }
    forall i | 0 <= i < m
      ensures FirstOccurrence(all, i) <==> FirstOccurrence(n, i)
    {
      assert forall j :: 0 <= j <= i ==> all[j] == n[j];
    }
    if Reported(all, k) {
      var i :| FirstOccurrence(all, i) && all[i].fullName == k;
      assert FirstOccurrence(n, i) && n[i].fullName == k;
    }
    if Reported(n, k) {
      var i :| FirstOccurrence(n, i) && n[i].fullName == k;
      assert FirstOccurrence(all, i) && all[i].fullName == k;
    }
    if ReportedFailed(all, k) {
      var i :| FirstOccurrence(all, i) && all[i].fullName == k && all[i].failed;
      assert FirstOccurrence(n, i) && n[i].fullName == k && n[i].failed;
    }
    if ReportedFailed(n, k) {
      var i :| FirstOccurrence(n, i) && n[i].fullName == k && n[i].failed;
      assert FirstOccurrence(all, i) && all[i].fullName == k && all[i].failed;
    }
  }

  /** Putting a file in front of others puts its entries in front. */
  lemma EntriesCons(newer: TrxFile, older: seq<TrxFile>)
    requires Resolved(newer)
    requires forall j :: 0 <= j < |older| ==> Resolved(older[j])
    ensures AllResolved(Some([newer] + older)) && AllResolved(Some([newer]))
    ensures Entries([newer] + older) == FileEntries(newer) + Entries(older)
    ensures Entries([newer]) == FileEntries(newer)
    ensures FileIds(newer) == EntryIds(FileEntries(newer))
  {
    assert ([newer] + older)[1..] == older;
    assert [newer][1..] == [];
  }

  /** Newest file wins: when every result of the older files that carries
      full name `k` has a test id the newest file also reports, the outcome
      of `k` is decided by the newest file alone, whatever the older files say. */
  lemma NewestFileWins(newer: TrxFile, older: seq<TrxFile>, k: string)
    requires Resolved(newer)
    requires forall j :: 0 <= j < |older| ==> Resolved(older[j])
    requires forall e :: e in Entries(older) && e.fullName == k ==> e.testId in FileIds(newer)
    ensures AllResolved(Some([newer] + older)) && AllResolved(Some([newer]))
    ensures k in GetTestResults(Some([newer] + older)) <==> k in GetTestResults(Some([newer]))
    ensures k in GetTestResults(Some([newer])) ==>
      GetTestResults(Some([newer] + older))[k] == GetTestResults(Some([newer]))[k]
  {
    EntriesCons(newer, older);
    PrefixDecides(FileEntries(newer), Entries(older), k);
    GetTestResultsMeaning([newer] + older);
    GetTestResultsMeaning([newer]);
  }
}
