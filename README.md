# git-merge-repos command-line front end, in Dafny

git-merge-repos merges several Git repositories into one, moving the history of
each into its own subdirectory. This project models the logic of its entry point,
`Main.java`, that is not library plumbing:

- **Argument syntax** (`RepoAndDir`). Each positional argument
  `<repository_url>:<target_directory>` is matched in full against
  `(.*):([^:]+)`. The predicate `Matches` states what that pattern means. The
  function `ParseArg` computes the two groups by splitting at the last colon. The
  lemmas prove that the two agree on every argument and that the groups are
  unique. The URL may hold colons and may be empty. The directory is non-empty
  and colon-free. Java's `.` refuses the five line terminators LF, CR, U+0085,
  U+2028 and U+2029, so the URL part may not hold them. `[^:]` accepts them in
  the directory part.
- **Subtree configuration** (`SubtreeConfigs`). The `SubtreeConfig` record
  (directory, URL, remote name) used by both the argument loop and the report.
- **Configuration list** (`CommandLine`). `BuildConfigs` is the loop over the
  arguments. It appends one `SubtreeConfig` per argument, in order, and stops at
  the first argument that does not match. It then returns the usage error that
  `exitInvalidUsage` would print, with exit status 64. `Run` and `RunAsWritten`
  model what `main` does after the loop (see "## Findings").
- **Incomplete-ref report** (`IncompleteRefs`). `Join` is the `StringBuilder`
  loop of `join`. `IncompleteRefLines` is `printIncompleteRefs`; it returns the
  lines instead of printing them. Each is proved against a reference definition:
  the usual `", "` join `Separated` applied after dropping leading empty names,
  and the filter `Incomplete`. Lemmas then state what those definitions promise.

Printing and `System.exit` become returned values. A usage error is
`UsageError(message, 64)`.

## Model

| member | source | states |
|---|---|---|
| RepoAndDir.IsLineTerminator | src/main/java/org/nibor/git_merge_repos/Main.java:36 | the five characters Java's `.` refuses without `DOTALL` or `UNIX_LINES`: LF, CR, U+0085, U+2028, U+2029 |
| RepoAndDir.NoLineTerminator | src/main/java/org/nibor/git_merge_repos/Main.java:36 | the text can be matched by `.*`: none of its characters is a line terminator |
| RepoAndDir.Matches | src/main/java/org/nibor/git_merge_repos/Main.java:36 | the meaning of a full match of `(.*):([^:]+)`: argument == url + ":" + dir, url matched by `.*`, dir non-empty and colon-free; the reference `ParseArg` is proved against |
| RepoAndDir.LastIndexOf | src/main/java/org/nibor/git_merge_repos/Main.java:36 | the result is -1 or an index holding the character, and no later index holds it |
| RepoAndDir.ParseArg | src/main/java/org/nibor/git_merge_repos/Main.java:55-58 | every accepted split is a full match of `(.*):([^:]+)`: argument == url + ":" + dir, url free of line terminators, dir non-empty and colon-free |
| RepoAndDir.ParseMatched | src/main/java/org/nibor/git_merge_repos/Main.java:36 | round trip: for any such url and dir, parsing `url:dir` gives back exactly (url, dir) |
| RepoAndDir.AcceptedIffMatches | src/main/java/org/nibor/git_merge_repos/Main.java:55-56 | an argument is accepted if and only if the pattern matches it |
| RepoAndDir.MatchIsUnique | src/main/java/org/nibor/git_merge_repos/Main.java:36 | the two groups of a match are determined by the argument |
| RepoAndDir.SplitAtLastColon | src/main/java/org/nibor/git_merge_repos/Main.java:57-58 | on acceptance the URL is the text before the last colon and the directory the text after it |
| RepoAndDir.RejectedWithoutDirectory | src/main/java/org/nibor/git_merge_repos/Main.java:36 | an argument with no colon, or ending in a colon, is refused |
| RepoAndDir.RejectedWithLineTerminator | src/main/java/org/nibor/git_merge_repos/Main.java:36 | a line terminator before the last colon makes the argument fail to match |
| RepoAndDir.AcceptedExamples | src/main/java/org/nibor/git_merge_repos/Main.java:36 | `ssh://host:22/repo.git:lib` splits into `ssh://host:22/repo.git` and `lib`; `repo.git:a\nb` is accepted with directory `a\nb` |
| RepoAndDir.EmptyGroups | src/main/java/org/nibor/git_merge_repos/Main.java:36 | `:lib` is accepted with an empty URL; `repo.git:` and `repo.git` are refused |
| RepoAndDir.LineTerminatorInUrl | src/main/java/org/nibor/git_merge_repos/Main.java:36 | `a\nb:lib` is refused |
| SubtreeConfigs.NewSubtreeConfig | src/main/java/org/nibor/git_merge_repos/Main.java:59 | the configuration keeps the given directory and URL; its remote name comes from the derivation parameter |
| CommandLine.InvalidArgumentMessage | src/main/java/org/nibor/git_merge_repos/Main.java:62-63 | the message `invalid argument '<arg>', expected '<repository_url>:<target_directory>'` |
| CommandLine.AllAccepted | src/main/java/org/nibor/git_merge_repos/Main.java:54-56 | every argument matches the pattern |
| CommandLine.BuiltFrom | src/main/java/org/nibor/git_merge_repos/Main.java:52-60 | one configuration per argument, in argument order, each from its argument's URL and directory groups |
| CommandLine.RejectsFirstInvalid | src/main/java/org/nibor/git_merge_repos/Main.java:61-63 | the error names the first non-matching argument, every argument before it matches, and the status is 64 |
| CommandLine.BuildConfigs | src/main/java/org/nibor/git_merge_repos/Main.java:52-65 | succeeds if and only if every argument matches; then one configuration per argument in argument order, each built from its argument's groups; otherwise the status-64 error naming the first non-matching argument, all arguments before it matching |
| CommandLine.BuiltConfigsRoundTrip | src/main/java/org/nibor/git_merge_repos/Main.java:57-60 | every built configuration reproduces its argument as url + ":" + directory, with a non-empty, colon-free directory |
| CommandLine.BuiltFromIsUnique | src/main/java/org/nibor/git_merge_repos/Main.java:52-60 | the arguments determine the configuration list |
| CommandLine.AfterParsingAsWritten | src/main/java/org/nibor/git_merge_repos/Main.java:67-68 | the test as written never leads to a merge; it returns quietly only for an empty list |
| CommandLine.AfterParsing | src/main/java/org/nibor/git_merge_repos/Main.java:67-68 | corrected test: merge exactly the given list when it is non-empty, otherwise the status-64 usage error |
| CommandLine.RunAsWritten | src/main/java/org/nibor/git_merge_repos/Main.java:52-68 | as written: no merge ever; first-invalid argument error; usage error for any valid non-empty command line; quiet return for no arguments |
| CommandLine.Run | src/main/java/org/nibor/git_merge_repos/Main.java:52-68 | corrected: merge if and only if the arguments are all valid and non-empty, with the configurations built from them; first-invalid argument error; usage error for no arguments |
| CommandLine.AsWrittenRefusesValidCommandLine | src/main/java/org/nibor/git_merge_repos/Main.java:67-68 | `https://example.org/lib.git:lib` parses, yet as written ends in the usage error while the corrected test merges it |
| IncompleteRefs.RemoteNames | src/main/java/org/nibor/git_merge_repos/Main.java:133 | the names are the configurations' `getRemoteName()` values, one each, in iteration order |
| IncompleteRefs.Joined | src/main/java/org/nibor/git_merge_repos/Main.java:127-136 | what `join` returns: the usual `", "` join of the remote names after the leading empty names are dropped |
| IncompleteRefs.DropLeadingEmpty | src/main/java/org/nibor/git_merge_repos/Main.java:130-133 | the remaining names are empty or start with a non-empty name |
| IncompleteRefs.SeparatedOfNonEmpty | src/main/java/org/nibor/git_merge_repos/Main.java:130 | the join of names starting with a non-empty name is non-empty |
| IncompleteRefs.Join | src/main/java/org/nibor/git_merge_repos/Main.java:127-136 | the result is the usual `", "` join of the remote names in iteration order, after the leading empty names are dropped |
| IncompleteRefs.JoinedEmpty | src/main/java/org/nibor/git_merge_repos/Main.java:127-136 | `join` of no configurations is `""` |
| IncompleteRefs.JoinedFirstNonEmpty | src/main/java/org/nibor/git_merge_repos/Main.java:129-134 | with a non-empty first name, `join` is the usual join of all names |
| IncompleteRefs.JoinedSkipsLeadingEmpty | src/main/java/org/nibor/git_merge_repos/Main.java:130-133 | a leading run of empty remote names adds neither text nor separators |
| IncompleteRefs.JoinedIsEmptyIff | src/main/java/org/nibor/git_merge_repos/Main.java:130-135 | `join` is empty if and only if every remote name is empty |
| IncompleteRefs.SeparatedShape | src/main/java/org/nibor/git_merge_repos/Main.java:129-134 | the join's length is the names' total length plus one separator per neighbouring pair; it starts with the first name and ends with the last |
| IncompleteRefs.ReportLine | src/main/java/org/nibor/git_merge_repos/Main.java:121-122 | the line `refType + " '" + refName + "' was not in: " + join(configsWithoutRef)` |
| IncompleteRefs.Incomplete | src/main/java/org/nibor/git_merge_repos/Main.java:119-120 | the refs whose configsWithoutRef is non-empty, in list order |
| IncompleteRefs.IncompleteRefLines | src/main/java/org/nibor/git_merge_repos/Main.java:118-124 | line k is `refType + " '" + refName + "' was not in: " + join(configsWithoutRef)` for the k-th ref with a non-empty configsWithoutRef, and there are no other lines |
| IncompleteRefs.IncompleteMembers | src/main/java/org/nibor/git_merge_repos/Main.java:120-121 | a ref is reported if and only if it is in the list and its configsWithoutRef is non-empty |
| IncompleteRefs.IncompleteAppend | src/main/java/org/nibor/git_merge_repos/Main.java:119 | the report keeps list order: the report of a + b is the report of a followed by that of b |
| IncompleteRefs.IncompleteSingle | src/main/java/org/nibor/git_merge_repos/Main.java:120-123 | one ref yields one line when some configuration lacked it and none otherwise |

## Findings

| source | as written | input that shows it | evidently intended | confidence | as-written member | corrected member |
|---|---|---|---|---|---|---|
| src/main/java/org/nibor/git_merge_repos/Main.java:67-68 | `if (!subtreeConfigs.isEmpty()) exitInvalidUsage(usage)`, followed by the merge | `https://example.org/lib.git:lib`: one valid argument ends with the usage error and exit status 64, and the merge is never reached | print the usage only when the list is empty, and merge otherwise | not executed; high, since the merge code after the exit cannot run for any input | CommandLine.AfterParsingAsWritten, CommandLine.RunAsWritten, CommandLine.AsWrittenRefusesValidCommandLine | CommandLine.AfterParsing, CommandLine.Run |

## Left out

- JCommander parsing, `--help` and `usage()` (lines 40-46): a foreign library and console output. The model starts from the list of positional arguments.
- The `-pass` passphrase (lines 48-50) and `enableSshPassphrase` (lines 88-116): credential callbacks of JSch and JGit installed into a global SSH session factory. Line 48 also dereferences `passphrase`, which is null when `-pass` is absent. That is library configuration, not modelled.
- `new URIish(repositoryUrl)` (line 59) and its `URISyntaxException`: foreign URL parsing. The URL is an opaque string, and every matched argument becomes a configuration.
- The `SubtreeConfig` constructor is not part of this model. How it derives the remote name is the parameter `remoteNameOf` of `BuildConfigs`, `Run` and `RunAsWritten`.
- The merge itself (lines 71-84): the output directory, wall-clock timing, progress printing and `RepoMerger.run()`. `RepoMerger`, `SubtreeConfig` and `MergedRef` are not part of this model, so ref reconciliation, tree composition and commit synthesis are not modelled. `Run` stops at the decision to merge.
- `MergedRef.getRefType()` is modelled as a string. `getConfigsWithoutRef()` is a collection of configurations in iteration order, modelled as a sequence.
- Printing to `System.out` and `System.err` and `System.exit`: modelled as returned lines, `UsageError` values and an `Outcome`.
- Java strings are UTF-16 and the model's strings are sequences of Unicode scalar values. This changes neither the colon split, the line-terminator test nor the emptiness test of `sb.length()`.
