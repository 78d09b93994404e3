/** Argument preparation at the start of `ExecuteAsync`: recover the
    `dotnet test` arguments, read the logger and results-directory options,
    reject a non-trx logger outside Windows, and prepend the trx logger, the
    console logger and a results directory when they are missing. The
    option parser itself and the environment are inputs. */
module Arguments {
  import opened Wrappers
  import opened Strings

  /** One key of the parsed remaining arguments with its values, in order
      (`null` for a flag given without a value). */
  datatype ParsedOption = ParsedOption(key: string, values: seq<Option<string>>)

  /** The remaining command line: its raw tokens and its parsed form. */
  datatype Remaining = Remaining(raw: seq<string>, parsed: seq<ParsedOption>)

  /** The values the option parser hands to the `l|logger=` and
      `results-directory=` callbacks, in command-line order. */
  datatype RecognisedOptions = RecognisedOptions(loggers: seq<string>, resultsDirectories: seq<string>)

  /** What the process environment provides. */
  datatype Environment = Environment(
    isWindows: bool,
    ciVariable: Option<string>,   // the `CI` environment variable
    freshResultsDirectory: string // a new directory under the temp path
  )

  /** Arguments ready for the retry loop. */
  datatype Prepared = Prepared(args: seq<string>, resultsDirectory: string, ci: bool)

  const LoggerOption: string := "--logger"
  const ResultsDirectoryOption: string := "--results-directory"
  const TrxLogger: string := "trx"
  const ConsoleLogger: string := "console;verbosity=normal"
  /** The exit code for a logger the platform does not support. */
  const LoggerError: int := 1

  /** One key with each of its values: `key value` per value, a bare `key`
      for a null value. */
  function FlattenOption(o: ParsedOption): seq<string>
    decreases |o.values|
  {
    if |o.values| == 0 then []
    else
      var head := match o.values[0]
        case Some(v) => [o.key, v]
        case None => [o.key];
      head + FlattenOption(ParsedOption(o.key, o.values[1..]))
  }

  /** The tokens of one key are the key itself (when it has a value at all)
      and its non-null values. */
  lemma {:induction false} FlattenOptionMembers(o: ParsedOption)
    ensures forall x :: x in FlattenOption(o) <==> (x == o.key && |o.values| > 0) || Some(x) in o.values
    decreases |o.values|
  {
    if |o.values| > 0 {
      var rest := ParsedOption(o.key, o.values[1..]);
      FlattenOptionMembers(rest);
      assert forall v :: v in o.values <==> v == o.values[0] || v in rest.values;
    }
  }

  /** The parsed remaining arguments turned back into tokens, key by key. */
  function FlattenParsed(ps: seq<ParsedOption>): seq<string> {
    if |ps| == 0 then [] else FlattenOption(ps[0]) + FlattenParsed(ps[1..])
  }

  /** The rebuilt arguments hold exactly the keys that have values and every
      non-null value. */
  lemma {:induction false} FlattenParsedMembers(ps: seq<ParsedOption>)
    ensures forall x :: x in FlattenParsed(ps) <==>
      exists j :: 0 <= j < |ps| && ((x == ps[j].key && |ps[j].values| > 0) || Some(x) in ps[j].values)
  {
    if |ps| > 0 {
      FlattenOptionMembers(ps[0]);
      FlattenParsedMembers(ps[1..]);
      assert forall j :: 1 <= j < |ps| ==> ps[j] == ps[1..][j - 1];
    }
  }

  /** Flattening distributes over concatenation of the parsed keys. */
  lemma {:induction false} FlattenParsedAppend(a: seq<ParsedOption>, b: seq<ParsedOption>)
    ensures FlattenParsed(a + b) == FlattenParsed(a) + FlattenParsed(b)
  {
    if |a| == 0 {
      assert a + b == b;
    } else {
      assert (a + b)[0] == a[0];
      assert (a + b)[1..] == a[1..] + b;
      FlattenParsedAppend(a[1..], b);
    }
  }

  /** Reads the values of one key back from its tokens: each group starts
      with the key, and the token after it is the group's value unless it is
      the key again or absent. `None` when a group does not start with the key. */
  function Regroup(key: string, tokens: seq<string>): Option<seq<Option<string>>>
    decreases |tokens|
  {
    if |tokens| == 0 then Some([])
    else if tokens[0] != key then None
    else
      var hasValue := |tokens| >= 2 && tokens[1] != key;
      var n := if hasValue then 2 else 1;
      var v := if hasValue then Some(tokens[1]) else None;
      match Regroup(key, tokens[n..])
      case None => None
      case Some(vs) => Some([v] + vs)
  }

  /** Flattening one key loses nothing: each value becomes a group made of
      the key and then the value (or the key alone for a null value), in
      order, so the values can be read back, provided no value is spelled
      like the key. */
  lemma {:induction false} FlattenOptionRegroup(o: ParsedOption)
    requires forall i :: 0 <= i < |o.values| ==> o.values[i] != Some(o.key)
    ensures Regroup(o.key, FlattenOption(o)) == Some(o.values)
    decreases |o.values|
  {
    if |o.values| > 0 {
      var rest := ParsedOption(o.key, o.values[1..]);
      var head := match o.values[0]
        case Some(v) => [o.key, v]
        case None => [o.key];
      var tail := FlattenOption(rest);
      assert FlattenOption(o) == head + tail;
      FlattenOptionRegroup(rest);
      if |tail| > 0 {
        assert tail[0] == o.key;
      }
      assert (head + tail)[|head|..] == tail;
      assert o.values == [o.values[0]] + o.values[1..];
    }
  }

  /** The tokens of key `j` sit between those of the keys before it and
      those of the keys after it. */
  lemma {:induction false} FlattenParsedGroups(ps: seq<ParsedOption>, j: nat)
    requires j < |ps|
    ensures FlattenParsed(ps) == FlattenParsed(ps[..j]) + FlattenOption(ps[j]) + FlattenParsed(ps[j + 1..])
  {
    var before, at, after := ps[..j], [ps[j]], ps[j + 1..];
    assert ps == before + at + after;
    FlattenParsedAppend(before + at, after);
    FlattenParsedAppend(before, at);
    assert at[1..] == [];
    assert FlattenParsed(at) == FlattenOption(ps[j]) + [];
  }

  /** The arguments for `dotnet test`: the raw remaining tokens, or when
      there are none (the user left out `--`), the flattened parsed ones. */
  function TestArgs(rem: Remaining): (r: seq<string>)
    ensures |rem.raw| > 0 ==> r == rem.raw
    ensures |rem.raw| == 0 ==> r == FlattenParsed(rem.parsed)
  {
    if |rem.raw| == 0 then FlattenParsed(rem.parsed) else rem.raw
  }

  /** What the logger callback has recorded. */
  datatype LoggerFlags = LoggerFlags(hasTrx: bool, hasConsole: bool, hasLogger: bool)

  /** The logger callback for one value: it overwrites the first two flags. */
  function OnLogger(f: LoggerFlags, v: string): LoggerFlags {
    LoggerFlags(StartsWith(v, TrxLogger), StartsWith(v, "console"), true)
  }

  /** The logger callback run on each value in turn, starting from `f`.
      Only the last value decides `hasTrx` and `hasConsole`. */
  function ScanLoggers(f: LoggerFlags, values: seq<string>): (r: LoggerFlags)
    ensures r.hasLogger <==> f.hasLogger || |values| > 0
    ensures |values| == 0 ==> r.hasTrx == f.hasTrx && r.hasConsole == f.hasConsole
    ensures |values| > 0 ==> r.hasTrx == StartsWith(values[|values| - 1], TrxLogger)
    ensures |values| > 0 ==> r.hasConsole == StartsWith(values[|values| - 1], "console")
    decreases |values|
  {
    if |values| == 0 then f else ScanLoggers(OnLogger(f, values[0]), values[1..])
  }

  /** The `results-directory=` callback run on each value: the last one wins. */
  function ScanPath(path: Option<string>, values: seq<string>): (r: Option<string>)
    ensures |values| == 0 ==> r == path
    ensures |values| > 0 ==> r == Some(values[|values| - 1])
    decreases |values|
  {
    if |values| == 0 then path else ScanPath(Some(values[0]), values[1..])
  }

  /** The argument preparation. It fails with exit code 1, before any run,
      exactly when a logger is given, the last one is not trx, and the
      platform is not Windows. Otherwise it puts in front of the user's
      arguments, in this order: `--logger trx` unless the last logger starts
      with "trx"; `--logger console;verbosity=normal` when the last logger
      does not start with "console", `CI` is not "true" and the platform is
      Windows; `--results-directory <fresh>` when none was given. */
  function Prepare(args: seq<string>, opts: RecognisedOptions, env: Environment): (r: Result<Prepared, int>)
    ensures r.Failure? <==>
      |opts.loggers| > 0 && !StartsWith(opts.loggers[|opts.loggers| - 1], TrxLogger) && !env.isWindows
    ensures r.Failure? ==> r.error == LoggerError
    ensures r.Success? ==>
      var lastTrx := |opts.loggers| > 0 && StartsWith(opts.loggers[|opts.loggers| - 1], TrxLogger);
      var lastConsole := |opts.loggers| > 0 && StartsWith(opts.loggers[|opts.loggers| - 1], "console");
      var ci := env.ciVariable == Some("true");
      var noDir := |opts.resultsDirectories| == 0;
      && r.value.args ==
           (if lastTrx then [] else [LoggerOption, TrxLogger])
           + (if !lastConsole && !ci && env.isWindows then [LoggerOption, ConsoleLogger] else [])
           + (if noDir then [ResultsDirectoryOption, env.freshResultsDirectory] else [])
           + args
      && r.value.resultsDirectory ==
           (if noDir then env.freshResultsDirectory
            else opts.resultsDirectories[|opts.resultsDirectories| - 1])
      && r.value.ci == ci
  {
    var flags := ScanLoggers(LoggerFlags(false, false, false), opts.loggers);
    var path := ScanPath(None, opts.resultsDirectories);
    if flags.hasLogger && !flags.hasTrx && !env.isWindows then Failure(LoggerError)
    else
      var withDir :=
        if path.None? then [ResultsDirectoryOption, env.freshResultsDirectory] + args else args;
      var ci := env.ciVariable == Some("true");
      var withConsole :=
        if !flags.hasConsole && !ci && env.isWindows then [LoggerOption, ConsoleLogger] + withDir
        else withDir;
      var withTrx := if !flags.hasTrx then [LoggerOption, TrxLogger] + withConsole else withConsole;
      Success(Prepared(withTrx, path.GetOr(env.freshResultsDirectory), ci))
  }

  /** Preparation only ever adds in front: the user's arguments stay intact
      at the end, and at most six tokens are added. */
  lemma PrepareKeepsUserArgs(args: seq<string>, opts: RecognisedOptions, env: Environment)
    requires Prepare(args, opts, env).Success?
    ensures var p := Prepare(args, opts, env).value.args;
      |args| <= |p| <= |args| + 6 && p[|p| - |args|..] == args
  {
  }
}
