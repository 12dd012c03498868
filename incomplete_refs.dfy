/**
 * The end-of-run report of refs that some repositories did not have: `join`
 * and `printIncompleteRefs`, with the printed lines returned as a sequence.
 */
module IncompleteRefs {
  import opened SubtreeConfigs

  /** The separator `join` puts between remote names. */
  const SEPARATOR: string := ", "

  /** A branch or tag of the merged repository and the configurations that lacked it. */
  datatype MergedRef = MergedRef(refType: string, refName: string, configsWithoutRef: seq<SubtreeConfig>)

  /** The remote names of `configs`, in iteration order. */
  function RemoteNames(configs: seq<SubtreeConfig>): (names: seq<string>)
    ensures |names| == |configs|
    ensures forall i :: 0 <= i < |configs| ==> names[i] == configs[i].remoteName
  {
    if configs == [] then [] else [configs[0].remoteName] + RemoteNames(configs[1..])
  }

  /** The usual join: the names in order with one separator between neighbours. */
  function Separated(names: seq<string>): string {
    if |names| == 0 then ""
    else if |names| == 1 then names[0]
    else Separated(names[..|names| - 1]) + SEPARATOR + names[|names| - 1]
  }

  /** `names` without its leading run of empty names. */
  function DropLeadingEmpty(names: seq<string>): (r: seq<string>)
    ensures r == [] || r[0] != ""
  {
    if names == [] then []
    else if names[0] == "" then DropLeadingEmpty(names[1..])
    else names
  }

  /**
   * What `join` returns. Since the separator is written only once the text is
   * non-empty, the leading empty names contribute nothing.
   */
  function Joined(configs: seq<SubtreeConfig>): string {
    Separated(DropLeadingEmpty(RemoteNames(configs)))
  }

  lemma {:induction false} DropLeadingEmptyAppend(names: seq<string>, name: string)
    ensures DropLeadingEmpty(names + [name]) ==
      if DropLeadingEmpty(names) == [] then (if name == "" then [] else [name])
      else DropLeadingEmpty(names) + [name]
  {
    if names == [] {
      assert names + [name] == [name];
      assert [name][1..] == [];
    } else {
      assert (names + [name])[1..] == names[1..] + [name];
      if names[0] == "" {
        DropLeadingEmptyAppend(names[1..], name);
      }
    }
  }

  /** A list whose first name is non-empty joins to a non-empty string. */
  lemma SeparatedOfNonEmpty(names: seq<string>)
    requires names != [] && names[0] != ""
    ensures Separated(names) != ""
  {
  }

  /** `join`: a `StringBuilder` that gets `", "` before a name whenever it is not empty. */
  method Join(configs: seq<SubtreeConfig>) returns (s: string)
    ensures s == Joined(configs)
  {
    s := "";
    var i := 0;
    while i < |configs|
      invariant 0 <= i <= |configs|
      invariant s == Separated(DropLeadingEmpty(RemoteNames(configs[..i])))
    {
      ghost var done := DropLeadingEmpty(RemoteNames(configs[..i]));
      if done != [] {
        SeparatedOfNonEmpty(done);
      }
      if |s| != 0 {
        s := s + SEPARATOR;
      }
      s := s + configs[i].remoteName;
      assert RemoteNames(configs[..i + 1]) == RemoteNames(configs[..i]) + [configs[i].remoteName];
      DropLeadingEmptyAppend(RemoteNames(configs[..i]), configs[i].remoteName);
      i := i + 1;
    }
    assert configs[..i] == configs;
  }

  /** `join` of no configurations is the empty string. */
  lemma JoinedEmpty()
    ensures Joined([]) == ""
  {
  }

  /** When the first remote name is not empty, `join` is the usual join of all names. */
  lemma JoinedFirstNonEmpty(configs: seq<SubtreeConfig>)
    requires configs != [] && configs[0].remoteName != ""
    ensures Joined(configs) == Separated(RemoteNames(configs))
  {
  }

  /** A leading run of empty remote names contributes neither text nor separators. */
  lemma {:induction false} JoinedSkipsLeadingEmpty(configs: seq<SubtreeConfig>, k: int)
    requires 0 <= k <= |configs|
    requires forall i :: 0 <= i < k ==> configs[i].remoteName == ""
    ensures Joined(configs) == Joined(configs[k..])
  {
    if k > 0 {
      assert RemoteNames(configs)[1..] == RemoteNames(configs[1..]);
      assert configs[1..][k - 1..] == configs[k..];
      JoinedSkipsLeadingEmpty(configs[1..], k - 1);
    }
  }

  /** `join` is empty exactly when every remote name is empty. */
  lemma JoinedIsEmptyIff(configs: seq<SubtreeConfig>)
    ensures Joined(configs) == "" <==> forall i :: 0 <= i < |configs| ==> configs[i].remoteName == ""
  {
    var k := 0;
    while k < |configs| && configs[k].remoteName == ""
      invariant 0 <= k <= |configs|
      invariant forall i :: 0 <= i < k ==> configs[i].remoteName == ""
    {
      k := k + 1;
    }
    JoinedSkipsLeadingEmpty(configs, k);
    if k < |configs| {
      SeparatedOfNonEmpty(RemoteNames(configs[k..]));
    }
  }

  /** Total length of the names. */
  function TotalLength(names: seq<string>): nat {
    if names == [] then 0 else TotalLength(names[..|names| - 1]) + |names[|names| - 1]|
  }

  /**
   * The usual join holds the names and exactly one separator between each two
   * neighbours: none before the first name, none after the last.
   */
  lemma {:induction false} SeparatedShape(names: seq<string>)
    requires names != []
    ensures |Separated(names)| == TotalLength(names) + |SEPARATOR| * (|names| - 1)
    ensures names[0] <= Separated(names)
    ensures Separated(names)[|Separated(names)| - |names[|names| - 1]|..] == names[|names| - 1]
  {
    if |names| > 1 {
      var init := names[..|names| - 1];
      SeparatedShape(init);
      assert init[0] == names[0];
      assert init[..|init| - 1] == names[..|names| - 2];
      assert TotalLength(names) == TotalLength(init) + |names[|names| - 1]|;
    } else {
      assert names[..0] == [];
    }
  }

  /** The line `printIncompleteRefs` prints for one ref. */
  function ReportLine(ref: MergedRef): string {
    ref.refType + " '" + ref.refName + "' was not in: " + Joined(ref.configsWithoutRef)
  }

  /** The refs that some configuration lacked, in list order. */
  function Incomplete(refs: seq<MergedRef>): seq<MergedRef> {
    if refs == [] then []
    else
      var last := refs[|refs| - 1];
      Incomplete(refs[..|refs| - 1]) + (if last.configsWithoutRef != [] then [last] else [])
  }

  /**
   * `printIncompleteRefs`: one line per merged ref that has configurations
   * without it, in list order.
   */
  method IncompleteRefLines(refs: seq<MergedRef>) returns (lines: seq<string>)
    ensures |lines| == |Incomplete(refs)|
    ensures forall k :: 0 <= k < |lines| ==> lines[k] == ReportLine(Incomplete(refs)[k])
  {
    lines := [];
    var i := 0;
    while i < |refs|
      invariant 0 <= i <= |refs|
      invariant |lines| == |Incomplete(refs[..i])|
      invariant forall k :: 0 <= k < |lines| ==> lines[k] == ReportLine(Incomplete(refs[..i])[k])
    {
      var ref := refs[i];
      assert refs[..i + 1][..i] == refs[..i];
      if ref.configsWithoutRef != [] {
        var missing := Join(ref.configsWithoutRef);
        lines := lines + [ref.refType + " '" + ref.refName + "' was not in: " + missing];
      }
      i := i + 1;
    }
    assert refs[..i] == refs;
  }

  /** A ref is reported exactly when it is in the list and some configuration lacked it. */
  lemma {:induction false} IncompleteMembers(refs: seq<MergedRef>, ref: MergedRef)
    ensures ref in Incomplete(refs) <==> ref in refs && ref.configsWithoutRef != []
  {
    if refs != [] {
      var init := refs[..|refs| - 1];
      IncompleteMembers(init, ref);
      assert refs == init + [refs[|refs| - 1]];
    }
  }

  /** Reporting keeps list order: the report of two lists is the two reports in turn. */
  lemma {:induction false} IncompleteAppend(a: seq<MergedRef>, b: seq<MergedRef>)
    ensures Incomplete(a + b) == Incomplete(a) + Incomplete(b)
  {
    if b == [] {
      assert a + b == a;
    } else {
      var init := b[..|b| - 1];
      IncompleteAppend(a, init);
      assert (a + b)[..|a + b| - 1] == a + init;
    }
  }

  /** A single ref yields one line when some configuration lacked it and none otherwise. */
  lemma IncompleteSingle(ref: MergedRef)
    ensures Incomplete([ref]) == if ref.configsWithoutRef != [] then [ref] else []
  {
  }
}
