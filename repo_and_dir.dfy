/**
 * The `<repository_url>:<target_directory>` argument syntax, i.e. a full match
 * (`Matcher.matches`) of the pattern `(.*):([^:]+)`.
 *
 * `Matches` states the regular expression's meaning directly: the argument is
 * some URL text, a colon and some directory text, where `.*` admits no line
 * terminator and `[^:]+` admits at least one character and no colon.
 * `ParseArg` computes the two groups by locating the last colon, and the lemmas
 * show that the two agree on every argument.
 */
module RepoAndDir {
  import opened Wrappers

  /**
   * The characters that `.` refuses in a `java.util.regex.Pattern` compiled
   * without `DOTALL` or `UNIX_LINES`: LF, CR, NEL, LINE SEPARATOR and
   * PARAGRAPH SEPARATOR.
   */
  predicate IsLineTerminator(c: char) {
    c == '\n' || c == '\r' || c == '\U{85}' || c == '\U{2028}' || c == '\U{2029}'
  }

  /** `s` can be matched by `.*`. */
  predicate NoLineTerminator(s: string) {
    forall i :: 0 <= i < |s| ==> !IsLineTerminator(s[i])
  }

  /** `arg` is fully matched by `(.*):([^:]+)` with group 1 `url` and group 2 `dir`. */
  predicate Matches(arg: string, url: string, dir: string) {
    arg == url + ":" + dir && NoLineTerminator(url) && |dir| > 0 && ':' !in dir
  }

  /** The index of the last occurrence of `c` in `s`, or -1 when there is none. */
  function LastIndexOf(s: string, c: char): (r: int)
    ensures -1 <= r < |s|
    ensures r >= 0 ==> s[r] == c
    ensures forall j :: r < j < |s| ==> s[j] != c
  {
    if |s| == 0 then -1
    else if s[|s| - 1] == c then |s| - 1
    else LastIndexOf(s[..|s| - 1], c)
  }

  /**
   * Groups 1 and 2 of the match of `arg` against `(.*):([^:]+)`, or `None` when
   * the argument does not match. Since `[^:]+` cannot contain a colon and must
   * reach the end, the only candidate split is at the last colon.
   */
  function ParseArg(arg: string): (r: Option<(string, string)>)
    ensures r.Some? ==> Matches(arg, r.value.0, r.value.1)
  {
    var k := LastIndexOf(arg, ':');
    if k < 0 then None
    else
      var url, dir := arg[..k], arg[k + 1..];
      assert arg == url + ":" + dir;
      if |dir| > 0 && NoLineTerminator(url) then Some((url, dir)) else None
  }

  /**
   * Every way of matching the pattern is the one `ParseArg` finds: the round trip
   * from a URL and a directory to the argument `url:dir` and back.
   */
  lemma {:induction false} ParseMatched(url: string, dir: string)
    requires NoLineTerminator(url) && |dir| > 0 && ':' !in dir
    ensures ParseArg(url + ":" + dir) == Some((url, dir))
  {
    var arg := url + ":" + dir;
    var k := LastIndexOf(arg, ':');
    assert arg[|url|] == ':';
    assert k == |url|;
    assert arg[..k] == url;
    assert arg[k + 1..] == dir;
  }

  /** An argument is accepted exactly when the pattern matches it. */
  lemma AcceptedIffMatches(arg: string)
    ensures ParseArg(arg).Some? <==> exists url, dir :: Matches(arg, url, dir)
  {
    if ParseArg(arg).Some? {
      var (url, dir) := ParseArg(arg).value;
      assert Matches(arg, url, dir);
    }
    if exists url, dir :: Matches(arg, url, dir) {
      var url, dir :| Matches(arg, url, dir);
      ParseMatched(url, dir);
    }
  }

  /** The groups of a match are determined by the argument. */
  lemma MatchIsUnique(arg: string, url1: string, dir1: string, url2: string, dir2: string)
    requires Matches(arg, url1, dir1) && Matches(arg, url2, dir2)
    ensures url1 == url2 && dir1 == dir2
  {
    ParseMatched(url1, dir1);
    ParseMatched(url2, dir2);
  }

  /**
   * On acceptance the directory is the text after the last colon and the URL the
   * text before it.
   */
  lemma SplitAtLastColon(arg: string)
    requires ParseArg(arg).Some?
    ensures LastIndexOf(arg, ':') == |ParseArg(arg).value.0|
    ensures ParseArg(arg).value.0 == arg[..LastIndexOf(arg, ':')]
    ensures ParseArg(arg).value.1 == arg[LastIndexOf(arg, ':') + 1..]
  {
  }

  /**
   * An argument without a colon, or one that ends in a colon, has no directory
   * group and is refused.
   */
  lemma RejectedWithoutDirectory(arg: string)
    requires ':' !in arg || (|arg| > 0 && arg[|arg| - 1] == ':')
    ensures ParseArg(arg).None?
  {
  }

  /**
   * A URL may itself contain colons, as in `ssh://host:22/repo.git:lib`, and
   * `[^:]` admits a line terminator, so one in the directory part is accepted.
   */
  lemma AcceptedExamples()
    ensures ParseArg("ssh://host:22/repo.git:lib") == Some(("ssh://host:22/repo.git", "lib"))
    ensures ParseArg("repo.git:a\nb") == Some(("repo.git", "a\nb"))
  {
    assert "ssh://host:22/repo.git" + ":" + "lib" == "ssh://host:22/repo.git:lib";
    ParseMatched("ssh://host:22/repo.git", "lib");
    assert "repo.git" + ":" + "a\nb" == "repo.git:a\nb";
    ParseMatched("repo.git", "a\nb");
  }

  /** The URL group may be empty, the directory group may not. */
  lemma EmptyGroups()
    ensures ParseArg(":lib") == Some(("", "lib"))
    ensures ParseArg("repo.git:") == None
    ensures ParseArg("repo.git") == None
  {
    assert "" + ":" + "lib" == ":lib";
    ParseMatched("", "lib");
    RejectedWithoutDirectory("repo.git:");
    RejectedWithoutDirectory("repo.git");
  }

  /**
   * `.` does not match a line terminator, so a line terminator anywhere before the
   * last colon makes the argument fail to match.
   */
  lemma RejectedWithLineTerminator(url: string, dir: string)
    requires !NoLineTerminator(url) && ':' !in dir
    ensures ParseArg(url + ":" + dir).None?
  {
    var arg := url + ":" + dir;
    assert arg[|url|] == ':';
    assert LastIndexOf(arg, ':') == |url|;
    assert arg[..|url|] == url;
  }

  /** A newline in the URL part, as in `a\nb:lib`, is refused. */
  lemma LineTerminatorInUrl()
    ensures ParseArg("a\nb:lib").None?
  {
    assert "a\nb" + ":" + "lib" == "a\nb:lib";
    assert IsLineTerminator("a\nb"[1]);
    RejectedWithLineTerminator("a\nb", "lib");
  }
}
