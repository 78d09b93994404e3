/** String helpers shared by the classifier, the filter builder and the
    argument preparation: prefixes, substring search, and splitting and
    joining on a separator character. */
module Strings {
  import opened Wrappers

  /** `s.StartsWith(prefix)`, compared character by character. */
  predicate StartsWith(s: string, prefix: string) {
    |prefix| <= |s| && s[..|prefix|] == prefix
  }

  /** `p` occurs in `s` starting at index `i`. */
  predicate OccursAt(s: string, p: string, i: int) {
    0 <= i && i + |p| <= |s| && s[i..i + |p|] == p
  }

  /** The leftmost occurrence of `p` in `s` at or after index `from`. */
  function IndexFrom(s: string, p: string, from: nat): (r: Option<nat>)
    decreases |s| - from
    ensures r.Some? ==> from <= r.value && OccursAt(s, p, r.value)
    ensures r.Some? ==> forall j :: from <= j < r.value ==> !OccursAt(s, p, j)
    ensures r.None? ==> forall j :: from <= j ==> !OccursAt(s, p, j)
  {
    if from + |p| > |s| then None
    else if s[from..from + |p|] == p then Some(from)
    else IndexFrom(s, p, from + 1)
  }

  /** The leftmost occurrence of `p` in `s`, if any. */
  function IndexOf(s: string, p: string): (r: Option<nat>)
    ensures r.Some? ==> OccursAt(s, p, r.value)
    ensures r.Some? ==> forall j :: 0 <= j < r.value ==> !OccursAt(s, p, j)
    ensures r.None? ==> forall j :: !OccursAt(s, p, j)
  {
    IndexFrom(s, p, 0)
  }

  /** The index of the first `sep` in `s`, or `|s|` when there is none:
      the end of the first field (or line, for `'\n'`). */
  function FieldEnd(s: string, sep: char): (r: nat)
    ensures r <= |s|
    ensures sep !in s[..r]
    ensures r < |s| ==> s[r] == sep
  {
    if |s| == 0 then 0
    else if s[0] == sep then 0
    else
      var rest := FieldEnd(s[1..], sep);
      assert s[..1 + rest] == [s[0]] + s[1..][..rest];
      1 + rest
  }

  /** The elements of `xs` with `sep` between consecutive ones
      (`string.Join(sep, xs)`). */
  function Join(sep: char, xs: seq<string>): string
  {
    if |xs| == 0 then ""
    else if |xs| == 1 then xs[0]
    else xs[0] + [sep] + Join(sep, xs[1..])
  }

  /** The fields of `s` between occurrences of `sep`; always at least one. */
  function Split(s: string, sep: char): (r: seq<string>)
    decreases |s|
    ensures |r| >= 1
  {
    var e := FieldEnd(s, sep);
    if e == |s| then [s] else [s[..e]] + Split(s[e + 1..], sep)
  }

  /** No field produced by `Split` contains the separator. */
  lemma {:induction false} SplitFieldsFree(s: string, sep: char)
    ensures forall i :: 0 <= i < |Split(s, sep)| ==> sep !in Split(s, sep)[i]
    decreases |s|
  {
    var e := FieldEnd(s, sep);
    if e < |s| {
      SplitFieldsFree(s[e + 1..], sep);
    }
  }

  /** Joining the fields of `s` rebuilds `s`. */
  lemma {:induction false} JoinSplit(s: string, sep: char)
    ensures Join(sep, Split(s, sep)) == s
    decreases |s|
  {
    var e := FieldEnd(s, sep);
    if e == |s| {
      assert Split(s, sep) == [s];
    } else {
      var field, tail := s[..e], s[e + 1..];
      var rest := Split(tail, sep);
      assert Split(s, sep) == [field] + rest;
      JoinSplit(tail, sep);
      assert Join(sep, rest) == tail;
      JoinCons(sep, field, rest);
      assert s[e] == sep;
      FieldSepTail(s, e);
    }
  }

  /** A string is its prefix, the character at the cut and the tail. */
  lemma FieldSepTail(s: string, e: nat)
    requires e < |s|
    ensures s == s[..e] + [s[e]] + s[e + 1..]
  {
    assert s == s[..e] + s[e..];
    assert s[e..] == [s[e]] + s[e + 1..];
  }

  /** Joining a first element onto a non-empty list puts one separator between. */
  lemma JoinCons(sep: char, x: string, ys: seq<string>)
    requires |ys| >= 1
    ensures Join(sep, [x] + ys) == x + [sep] + Join(sep, ys)
  {
    assert ([x] + ys)[1..] == ys;
  }

  /** The first field ends at the first separator. */
  lemma FieldEndAt(s: string, sep: char, k: nat)
    requires k <= |s| && sep !in s[..k]
    requires k < |s| ==> s[k] == sep
    ensures FieldEnd(s, sep) == k
  {
    var r := FieldEnd(s, sep);
    assert forall i :: 0 <= i < r ==> s[..r][i] == s[i];
    assert forall i :: 0 <= i < k ==> s[..k][i] == s[i];
  }

  /** Splitting a separator-free field, a separator and anything yields
      that field first. */
  lemma SplitCons(x: string, sep: char, rest: string)
    requires sep !in x
    ensures Split(x + [sep] + rest, sep) == [x] + Split(rest, sep)
  {
    var s := x + [sep] + rest;
    assert s[..|x|] == x;
    FieldEndAt(s, sep, |x|);
    assert s[|x| + 1..] == rest;
  }

  /** Splitting a join of separator-free, non-empty-list fields gives the fields back. */
  lemma {:induction false} SplitJoin(xs: seq<string>, sep: char)
    requires |xs| >= 1
    requires forall i :: 0 <= i < |xs| ==> sep !in xs[i]
    ensures Split(Join(sep, xs), sep) == xs
  {
    if |xs| == 1 {
      FieldEndAt(xs[0], sep, |xs[0]|);
    } else {
      var x, ys := xs[0], xs[1..];
      assert xs == [x] + ys;
      JoinCons(sep, x, ys);
      SplitCons(x, sep, Join(sep, ys));
      SplitJoin(ys, sep);
    }
  }
}
