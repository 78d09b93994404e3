/** The argument list of one `dotnet test` invocation (`RunTestsAsync`).
    Running the process and streaming its output are left out. */
module TestRun {
  import opened Strings

  /** The `dotnet` sub-command every invocation starts with. */
  const TestVerb: string := "test"
  const FilterOption: string := "--filter"
  /** The test-runner filter property matched by substring (`~`). */
  const FilterTermPrefix: string := "FullyQualifiedName~"
  const FilterSeparator: char := '|'

  /** The sub-filter for one failing test; the runner reads `~` as "contains". */
  function FilterTerm(name: string): string {
    FilterTermPrefix + name
  }

  function FilterTerms(failed: seq<string>): (terms: seq<string>)
    ensures |terms| == |failed|
    ensures forall i :: 0 <= i < |failed| ==> terms[i] == FilterTerm(failed[i])
  {
    seq(|failed|, i requires 0 <= i < |failed| => FilterTerm(failed[i]))
  }

  /** The OR of the sub-filters of `failed`, in enumeration order. */
  function Filter(failed: seq<string>): (f: string)
    ensures |f| > 0 <==> |failed| > 0
  {
    var terms := FilterTerms(failed);
    assert |failed| > 0 ==> |terms[0]| > 0 && |Join(FilterSeparator, terms)| >= |terms[0]|;
    Join(FilterSeparator, terms)
  }

  /** `test`, then `--filter <expr>` when there is a non-empty filter, then
      the given arguments unchanged. */
  function TestArguments(args: seq<string>, failed: seq<string>): (argv: seq<string>)
    ensures |failed| == 0 ==> argv == [TestVerb] + args
    ensures |failed| > 0 ==> argv == [TestVerb, FilterOption, Filter(failed)] + args
  {
    var filter := Filter(failed);
    var withFilter := if |filter| > 0 then [FilterOption, filter] + args else args;
    [TestVerb] + withFilter
  }

  /** The filter splits back into exactly one sub-filter per failing test,
      in order, provided no test name contains the separator. */
  lemma FilterRoundTrip(failed: seq<string>)
    requires |failed| > 0
    requires forall i :: 0 <= i < |failed| ==> FilterSeparator !in failed[i]
    ensures Split(Filter(failed), FilterSeparator) == FilterTerms(failed)
  {
    var terms := FilterTerms(failed);
    forall i | 0 <= i < |terms|
      ensures FilterSeparator !in terms[i]
    {
      assert terms[i] == FilterTermPrefix + failed[i];
    }
    SplitJoin(terms, FilterSeparator);
  }

  /** A test's sub-filter is one of the filter's terms iff the test is one of
      the failing tests. (The runner matches each term by substring, so it
      may also select tests whose names contain a failing test's name.) */
  lemma FilterTermsExact(failed: seq<string>, name: string)
    requires |failed| > 0
    requires forall i :: 0 <= i < |failed| ==> FilterSeparator !in failed[i]
    ensures FilterTerm(name) in Split(Filter(failed), FilterSeparator) <==> name in failed
  {
    FilterRoundTrip(failed);
    var terms := FilterTerms(failed);
    if FilterTerm(name) in terms {
      var i :| 0 <= i < |terms| && terms[i] == FilterTerm(name);
      assert FilterTermPrefix + failed[i] == FilterTermPrefix + name;
      assert failed[i] == (FilterTermPrefix + failed[i])[|FilterTermPrefix|..];
      assert name == (FilterTermPrefix + name)[|FilterTermPrefix|..];
    }
    if name in failed {
      var i :| 0 <= i < |failed| && failed[i] == name;
      assert terms[i] == FilterTerm(name);
    }
  }
}
