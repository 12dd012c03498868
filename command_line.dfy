/**
 * The part of `main` that turns the positional arguments into subtree
 * configurations, and the usage errors that end the program with status 64.
 */
module CommandLine {
  import opened Wrappers
  import opened RepoAndDir
  import opened SubtreeConfigs

  /** The exit status of every usage error (`exitInvalidUsage`). */
  const INVALID_USAGE_STATUS: int := 64

  /** The message printed when no configuration can be merged. */
  const USAGE_MESSAGE: string := "usage: program <repository_url>:<target_directory>..."

  /** What `exitInvalidUsage` prints on standard error and the status it exits with. */
  datatype UsageError = UsageError(message: string, exitStatus: int)

  /** The message for an argument that does not have the form `<repository_url>:<target_directory>`. */
  function InvalidArgumentMessage(arg: string): string {
    "invalid argument '" + arg + "', expected '<repository_url>:<target_directory>'"
  }

  /** Every argument matches `<repository_url>:<target_directory>`. */
  predicate AllAccepted(args: seq<string>) {
    forall i :: 0 <= i < |args| ==> ParseArg(args[i]).Some?
  }

  /**
   * `configs` holds one configuration per argument, in argument order, each built
   * from the URL and directory groups of its argument.
   */
  predicate BuiltFrom(configs: seq<SubtreeConfig>, args: seq<string>,
                      remoteNameOf: (string, string) -> string)
  {
    |configs| == |args| &&
    forall i :: 0 <= i < |args| ==>
      ParseArg(args[i]) == Some((configs[i].repositoryUrl, configs[i].directory)) &&
      configs[i] == NewSubtreeConfig(configs[i].directory, configs[i].repositoryUrl, remoteNameOf)
  }

  /**
   * `e` is the usage error for the first argument of `args` that does not match:
   * every argument before it matches, and it names that argument.
   */
  predicate RejectsFirstInvalid(args: seq<string>, e: UsageError) {
    exists k :: 0 <= k < |args| && ParseArg(args[k]).None? &&
      (forall j :: 0 <= j < k ==> ParseArg(args[j]).Some?) &&
      e == UsageError(InvalidArgumentMessage(args[k]), INVALID_USAGE_STATUS)
  }

  /**
   * The loop over the positional arguments: appends one configuration per
   * matching argument and stops with a usage error at the first one that does
   * not match.
   */
  method BuildConfigs(args: seq<string>, remoteNameOf: (string, string) -> string)
    returns (r: Result<seq<SubtreeConfig>, UsageError>)
    ensures r.Ok? <==> AllAccepted(args)
    ensures r.Ok? ==> BuiltFrom(r.value, args, remoteNameOf)
    ensures r.Err? ==> RejectsFirstInvalid(args, r.error)
  {
    var configs: seq<SubtreeConfig> := [];
    var i := 0;
    while i < |args|
      invariant 0 <= i <= |args|
      invariant AllAccepted(args[..i])
      invariant BuiltFrom(configs, args[..i], remoteNameOf)
    {
      var matched := ParseArg(args[i]);
      if matched.Some? {
        var (repositoryUrl, directory) := matched.value;
        var config := NewSubtreeConfig(directory, repositoryUrl, remoteNameOf);
        configs := configs + [config];
      } else {
        assert forall j :: 0 <= j < i ==> ParseArg(args[j]).Some? by {
          forall j | 0 <= j < i ensures ParseArg(args[j]).Some? {
            assert args[..i][j] == args[j];
          }
        }
        return Err(UsageError(InvalidArgumentMessage(args[i]), INVALID_USAGE_STATUS));
      }
      i := i + 1;
    }
    assert args[..i] == args;
    return Ok(configs);
  }

  /**
   * Every built configuration reproduces its argument as `url:directory`, and its
   * directory is non-empty and free of colons.
   */
  lemma BuiltConfigsRoundTrip(configs: seq<SubtreeConfig>, args: seq<string>,
                              remoteNameOf: (string, string) -> string, i: int)
    requires BuiltFrom(configs, args, remoteNameOf) && 0 <= i < |args|
    ensures args[i] == configs[i].repositoryUrl + ":" + configs[i].directory
    ensures |configs[i].directory| > 0 && ':' !in configs[i].directory
  {
  }

  /** The arguments determine the configuration list. */
  lemma BuiltFromIsUnique(c1: seq<SubtreeConfig>, c2: seq<SubtreeConfig>, args: seq<string>,
                          remoteNameOf: (string, string) -> string)
    requires BuiltFrom(c1, args, remoteNameOf) && BuiltFrom(c2, args, remoteNameOf)
    ensures c1 == c2
  {
  }

  /**
   * How `main` continues once the arguments are parsed: terminate with a usage
   * error, hand the configurations to the merger, or return without doing
   * anything.
   */
  datatype Outcome = Exit(usage: UsageError) | Merge(configs: seq<SubtreeConfig>) | Return

  /**
   * The test after the argument loop as written: it calls `exitInvalidUsage`
   * when the list is NOT empty, so the merge that follows it is never reached.
   */
  function AfterParsingAsWritten(configs: seq<SubtreeConfig>): (o: Outcome)
    ensures !o.Merge?
    ensures o.Return? <==> configs == []
    ensures o.Exit? ==> o.usage == UsageError(USAGE_MESSAGE, INVALID_USAGE_STATUS)
  {
    if configs != [] then Exit(UsageError(USAGE_MESSAGE, INVALID_USAGE_STATUS)) else Return
  }

  /** The evidently intended test: print the usage when there is nothing to merge. */
  function AfterParsing(configs: seq<SubtreeConfig>): (o: Outcome)
    ensures o.Merge? <==> configs != []
    ensures o.Merge? ==> o.configs == configs
    ensures !o.Merge? ==> o == Exit(UsageError(USAGE_MESSAGE, INVALID_USAGE_STATUS))
  {
    if configs == [] then Exit(UsageError(USAGE_MESSAGE, INVALID_USAGE_STATUS)) else Merge(configs)
  }

  /** Lines 52-68 of `main` as written. */
  method RunAsWritten(args: seq<string>, remoteNameOf: (string, string) -> string)
    returns (o: Outcome)
    ensures !o.Merge?
    ensures !AllAccepted(args) ==> o.Exit? && RejectsFirstInvalid(args, o.usage)
    ensures AllAccepted(args) && args != [] ==> o == Exit(UsageError(USAGE_MESSAGE, INVALID_USAGE_STATUS))
    ensures args == [] ==> o == Return
  {
    var built := BuildConfigs(args, remoteNameOf);
    if built.Err? {
      return Exit(built.error);
    }
    o := AfterParsingAsWritten(built.value);
  }

  /** Lines 52-68 of `main` with the test after the loop corrected. */
  method Run(args: seq<string>, remoteNameOf: (string, string) -> string)
    returns (o: Outcome)
    ensures o.Merge? <==> AllAccepted(args) && args != []
    ensures o.Merge? ==> BuiltFrom(o.configs, args, remoteNameOf)
    ensures !AllAccepted(args) ==> o.Exit? && RejectsFirstInvalid(args, o.usage)
    ensures args == [] ==> o == Exit(UsageError(USAGE_MESSAGE, INVALID_USAGE_STATUS))
  {
    var built := BuildConfigs(args, remoteNameOf);
    if built.Err? {
      return Exit(built.error);
    }
    o := AfterParsing(built.value);
  }

  /**
   * A well-formed command line with one repository is parsed, yet as written it
   * ends with the usage error instead of a merge.
   */
  lemma AsWrittenRefusesValidCommandLine(remoteNameOf: (string, string) -> string)
    ensures var config := NewSubtreeConfig("lib", "https://example.org/lib.git", remoteNameOf);
      BuiltFrom([config], ["https://example.org/lib.git:lib"], remoteNameOf) &&
      AfterParsingAsWritten([config]) == Exit(UsageError(USAGE_MESSAGE, INVALID_USAGE_STATUS)) &&
      AfterParsing([config]) == Merge([config])
  {
    assert "https://example.org/lib.git" + ":" + "lib" == "https://example.org/lib.git:lib";
    ParseMatched("https://example.org/lib.git", "lib");
  }
}
