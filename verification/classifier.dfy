/** The outcome classifier: after a non-zero exit, the captured standard
    output decides whether tests actually ran (retryable) or the runner
    failed before running any (fatal). The source tests two regular
    expressions, `:.*VSTEST.*:` and `Failed:.*Passed:.*Skipped:.*Total:.*`;
    each is a chain of literals joined by `.*`, and `.` does not match a
    newline, so a match is the literals found in order inside one line. */
module Classifier {
  import opened Wrappers
  import opened Strings

  /** The literals of `:.*VSTEST.*:` (a test adapter diagnostic). */
  const AdapterPattern: seq<string> := [":", "VSTEST", ":"]

  /** The literals of `Failed:.*Passed:.*Skipped:.*Total:.*` (the run summary);
      the trailing `.*` matches the empty string and adds nothing. */
  const SummaryPattern: seq<string> := ["Failed:", "Passed:", "Skipped:", "Total:"]

  /** Reference meaning of a `.*`-chain: the literals of `parts` occur in `s`
      in order, without overlapping, anything allowed around and between them. */
  ghost predicate Spans(s: string, parts: seq<string>)
    decreases |parts|
  {
    |parts| == 0 ||
    exists i :: OccursAt(s, parts[0], i) && Spans(s[i + |parts[0]|..], parts[1..])
  }

  /** Reference meaning of `Regex.IsMatch` for such a chain: some stretch of
      `s` that contains no newline spans the literals. */
  ghost predicate MatchesWithinLine(s: string, parts: seq<string>) {
    exists a, b :: 0 <= a <= b <= |s| && '\n' !in s[a..b] && Spans(s[a..b], parts)
  }

  /** Greedy search: take the leftmost occurrence of each literal in turn. */
  function Ordered(s: string, parts: seq<string>): bool
    decreases |parts|
  {
    if |parts| == 0 then true
    else match IndexOf(s, parts[0])
      case None => false
      case Some(i) => Ordered(s[i + |parts[0]|..], parts[1..])
  }

  /** Greedy search applied to each line of `s` in turn. */
  function SomeLineMatches(s: string, parts: seq<string>): bool
    decreases |s|
  {
    var e := FieldEnd(s, '\n');
    Ordered(s[..e], parts) || (e < |s| && SomeLineMatches(s[e + 1..], parts))
  }

  /** Text in front of a spanning string keeps it spanning. */
  lemma SpansPrepend(u: string, t: string, parts: seq<string>)
    requires Spans(t, parts)
    ensures Spans(u + t, parts)
  {
    if |parts| > 0 {
      var p := parts[0];
      var i :| OccursAt(t, p, i) && Spans(t[i + |p|..], parts[1..]);
      assert (u + t)[|u| + i..|u| + i + |p|] == t[i..i + |p|];
      assert (u + t)[|u| + i + |p|..] == t[i + |p|..];
      assert OccursAt(u + t, p, |u| + i);
    }
  }

  /** Text after a spanning string keeps it spanning. */
  lemma {:induction false} SpansAppend(t: string, v: string, parts: seq<string>)
    requires Spans(t, parts)
    ensures Spans(t + v, parts)
    decreases |parts|
  {
    if |parts| > 0 {
      var p := parts[0];
      var i :| OccursAt(t, p, i) && Spans(t[i + |p|..], parts[1..]);
      assert (t + v)[i..i + |p|] == t[i..i + |p|];
      assert (t + v)[i + |p|..] == t[i + |p|..] + v;
      SpansAppend(t[i + |p|..], v, parts[1..]);
      assert OccursAt(t + v, p, i);
    }
  }

  /** The greedy search finds a match exactly when one exists: taking the
      leftmost occurrence of a literal never loses a later match. */
  lemma {:induction false} OrderedIffSpans(s: string, parts: seq<string>)
    ensures Ordered(s, parts) <==> Spans(s, parts)
    decreases |parts|
  {
    if |parts| > 0 {
      var p := parts[0];
      match IndexOf(s, p)
      case None =>
      case Some(j) =>
        OrderedIffSpans(s[j + |p|..], parts[1..]);
        if Spans(s, parts) {
          var i :| OccursAt(s, p, i) && Spans(s[i + |p|..], parts[1..]);
          assert j <= i;
          assert s[j + |p|..] == s[j + |p|..i + |p|] + s[i + |p|..];
          SpansPrepend(s[j + |p|..i + |p|], s[i + |p|..], parts[1..]);
        }
    }
  }

  /** A line the greedy search accepts is a newline-free stretch that spans. */
  lemma {:induction false} SomeLineMatchesSound(s: string, parts: seq<string>)
    requires SomeLineMatches(s, parts)
    ensures MatchesWithinLine(s, parts)
    decreases |s|
  {
    var e := FieldEnd(s, '\n');
    if Ordered(s[..e], parts) {
      OrderedIffSpans(s[..e], parts);
      assert s[0..e] == s[..e];
    } else {
      var t := s[e + 1..];
      SomeLineMatchesSound(t, parts);
      var a, b :| 0 <= a <= b <= |t| && '\n' !in t[a..b] && Spans(t[a..b], parts);
      assert s[e + 1 + a..e + 1 + b] == t[a..b];
    }
  }

  /** Every newline-free spanning stretch lies inside a line that the greedy
      search accepts. */
  lemma {:induction false} SomeLineMatchesComplete(s: string, parts: seq<string>)
    requires MatchesWithinLine(s, parts)
    ensures SomeLineMatches(s, parts)
    decreases |s|
  {
    var e := FieldEnd(s, '\n');
    var a, b :| 0 <= a <= b <= |s| && '\n' !in s[a..b] && Spans(s[a..b], parts);
    if b <= e {
      SpansAppend(s[a..b], s[b..e], parts);
      SpansPrepend(s[..a], s[a..b] + s[b..e], parts);
      assert s[..a] + (s[a..b] + s[b..e]) == s[..e];
      OrderedIffSpans(s[..e], parts);
    } else {
      forall k | a <= k < b
        ensures s[k] != '\n'
      {
        assert s[a..b][k - a] == s[k];
      }
      assert a > e;
      var t := s[e + 1..];
      assert t[a - e - 1..b - e - 1] == s[a..b];
      SomeLineMatchesComplete(t, parts);
    }
  }

  /** Searching line by line is `Regex.IsMatch` with `.` excluding newlines. */
  lemma SomeLineMatchesIff(s: string, parts: seq<string>)
    ensures SomeLineMatches(s, parts) <==> MatchesWithinLine(s, parts)
  {
    if SomeLineMatches(s, parts) { SomeLineMatchesSound(s, parts); }
    if MatchesWithinLine(s, parts) { SomeLineMatchesComplete(s, parts); }
  }

  /** Reference meaning of the classifier: one line of the output holds
      `:`, `VSTEST`, `:` in order, or `Failed:`, `Passed:`, `Skipped:`,
      `Total:` in order. */
  ghost predicate ShowsTestRun(output: string) {
    MatchesWithinLine(output, AdapterPattern) || MatchesWithinLine(output, SummaryPattern)
  }

  /** `HasTestExpr().IsMatch(output) || HasTestSummaryExpr().IsMatch(output)`:
      true when the output shows that tests ran. */
  function IsRetryable(output: string): bool {
    SomeLineMatches(output, AdapterPattern) || SomeLineMatches(output, SummaryPattern)
  }

  /** The output counts as a test run exactly when one of its lines holds
      `:`, `VSTEST`, `:` in order, or `Failed:`, `Passed:`, `Skipped:`,
      `Total:` in order. */
  lemma IsRetryableMeaning(output: string)
    ensures IsRetryable(output) <==>
      MatchesWithinLine(output, AdapterPattern) || MatchesWithinLine(output, SummaryPattern)
    ensures IsRetryable(output) <==> ShowsTestRun(output)
  {
    SomeLineMatchesIff(output, AdapterPattern);
    SomeLineMatchesIff(output, SummaryPattern);
  }
}
