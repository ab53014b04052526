/** The request half of `GetPodSizeImpact` (measure_cocoapod_size.py): which
    sample app to use, which spec repositories to list, and the ordered
    pod-name to version map built from the `--cocoapods` arguments. */
module PodArgs {
  import opened Wrappers
  import opened Text
  import opened Pairs

  const MODE_SWIFT := "swift"
  const MODE_OBJC := "objc"

  const OBJC_APP_DIR := "sizetestproject"
  const OBJC_APP_NAME := "SizeTest"
  const SWIFT_APP_DIR := "SwiftApp"
  const SWIFT_APP_NAME := "SwiftApp"

  /** `GetSampleApp(mode)`: the sample app's directory and target name. Every
      mode other than `swift` selects the Objective-C app. */
  function GetSampleApp(mode: string): (app: (string, string))
    ensures mode == MODE_SWIFT ==> app == ("SwiftApp", "SwiftApp")
    ensures mode != MODE_SWIFT ==> app == ("sizetestproject", "SizeTest")
  {
    if mode == MODE_SWIFT then (SWIFT_APP_DIR, SWIFT_APP_NAME) else (OBJC_APP_DIR, OBJC_APP_NAME)
  }

  // ---------------------------------------------------------------------
  // Spec repositories

  const CDN := "https://cdn.cocoapods.org/"
  const DEFAULT_SPEC_REPOS: seq<string> := [CDN]

  /** The well-known repository aliases and the locators they stand for. */
  const SPEC_REPO_ALIASES: map<string, string> := map[
    "cpdc-internal" := "sso://cpdc-internal/spec",
    "cpdc-eap" := "sso://cpdc-eap/spec",
    "master" := CDN
  ]

  /** One `--spec_repos` argument: an alias is replaced by its locator, any
      other string is a locator already. No locator is itself an alias. */
  function ResolveAlias(repo: string): (url: string)
    ensures url !in SPEC_REPO_ALIASES
    ensures repo !in SPEC_REPO_ALIASES ==> url == repo
    ensures repo in SPEC_REPO_ALIASES ==> url == SPEC_REPO_ALIASES[repo]
  {
    if repo in SPEC_REPO_ALIASES then SPEC_REPO_ALIASES[repo] else repo
  }

  /** The spec repositories written into the Podfile. Absent or empty input
      means the default list; otherwise every argument is resolved in place,
      with no deduplication and no reordering. */
  function ResolveSpecRepos(repos: seq<string>): (urls: seq<string>)
    ensures |repos| == 0 ==> urls == DEFAULT_SPEC_REPOS
    ensures |repos| > 0 ==> |urls| == |repos|
    ensures forall i :: 0 <= i < |urls| ==> urls[i] !in SPEC_REPO_ALIASES
    ensures forall i :: 0 <= i < |repos| ==> urls[i] == ResolveAlias(repos[i])
  {
    if |repos| == 0 then DEFAULT_SPEC_REPOS
    else seq(|repos|, i requires 0 <= i < |repos| => ResolveAlias(repos[i]))
  }

  /** Resolving an already-resolved list changes nothing. */
  lemma ResolveSpecReposIdempotent(repos: seq<string>)
    ensures ResolveSpecRepos(ResolveSpecRepos(repos)) == ResolveSpecRepos(repos)
  {
    var once := ResolveSpecRepos(repos);
    assert |once| > 0;
    var twice := ResolveSpecRepos(once);
    assert forall i :: 0 <= i < |once| ==> twice[i] == once[i];
  }

  /** `master` is expanded where it stands and repeated aliases stay
      repeated: the list is neither reordered nor deduplicated. */
  lemma MasterKeepsItsPlace(other: string)
    requires other !in SPEC_REPO_ALIASES
    ensures ResolveSpecRepos(["master", other, "master"]) == [CDN, other, CDN]
  {
  }

  // ---------------------------------------------------------------------
  // Pod arguments

  /** One `--cocoapods` argument, `name[:version[:ignored...]]`: the name is
      the stripped text before the first ':', the version the stripped text
      between the first and the second ':', or "" when there is no ':'. */
  function ParsePodArg(arg: string): (pod: (string, string))
    ensures |pod.0| > 0 ==> !IsSpace(pod.0[0]) && !IsSpace(pod.0[|pod.0| - 1])
    ensures |pod.1| > 0 ==> !IsSpace(pod.1[0]) && !IsSpace(pod.1[|pod.1| - 1])
    ensures ':' !in pod.0 && ':' !in pod.1
  {
    var parts := Split(arg, ':');
    var name := Strip(parts[0]);
    var version := if |parts| > 1 then Strip(parts[1]) else "";
    StripInfix(parts[0], ':');
    if |parts| > 1 then StripInfix(parts[1], ':'); (name, version) else (name, version)
  }

  /** Stripping never introduces a character: it only removes from the ends. */
  lemma StripInfix(s: string, c: char)
    requires c !in s
    ensures c !in Strip(s)
  {
    var l := LStrip(s);
    assert forall k :: 0 <= k < |l| ==> l[k] == s[|s| - |l| + k];
    var r := RStrip(l);
    assert forall k :: 0 <= k < |r| ==> r[k] == l[k];
  }

  /** `name:version` parses to the stripped text before the ':' and the
      stripped text after it. */
  lemma ParsePodArgSegments(name: string, version: string)
    requires ':' !in name && ':' !in version
    ensures ParsePodArg(name + ":" + version) == (Strip(name), Strip(version))
  {
    assert Split(name + ":" + version, ':') == [name, version] by {
      assert name + ":" + version == name + [':'] + version;
      SplitConcat(name, ':', version);
      SplitNoSep(name, ':');
      SplitNoSep(version, ':');
    }
  }

  /** The argument `name:version` of a stripped, colon-free name and version
      parses back to exactly that pair. */
  lemma ParsePodArgRoundTrip(name: string, version: string)
    requires ':' !in name && ':' !in version
    requires |name| > 0 ==> !IsSpace(name[0]) && !IsSpace(name[|name| - 1])
    requires |version| > 0 ==> !IsSpace(version[0]) && !IsSpace(version[|version| - 1])
    ensures ParsePodArg(name + ":" + version) == (name, version)
  {
    ParsePodArgSegments(name, version);
    StripStripped(name);
    StripStripped(version);
  }

  /** Without a ':' the whole (stripped) argument is the name and the
      version is empty. */
  lemma ParsePodArgNameOnly(arg: string)
    requires ':' !in arg
    ensures ParsePodArg(arg) == (Strip(arg), "")
  {
    SplitNoSep(arg, ':');
  }

  /** Everything after a second ':' is ignored. */
  lemma ParsePodArgIgnoresExtraSegments(name: string, version: string, rest: string)
    requires ':' !in name && ':' !in version
    ensures ParsePodArg(name + ":" + version + ":" + rest) == ParsePodArg(name + ":" + version)
  {
    var s := name + ":" + version + ":" + rest;
    assert s == name + [':'] + (version + [':'] + rest);
    SplitConcat(name, ':', version + [':'] + rest);
    SplitConcat(version, ':', rest);
    SplitNoSep(name, ':');
    SplitNoSep(version, ':');
    assert name + ":" + version == name + [':'] + version;
    SplitConcat(name, ':', version);
  }

  /** The `cocoapods` dict: pod name to version in insertion order. */
  type PodMap = KeyValues

  /** The pairs parsed from each argument, in argument order. */
  function ParseArgs(args: seq<string>): (pairs: KeyValues)
    ensures |pairs| == |args|
    ensures forall i :: 0 <= i < |args| ==> pairs[i] == ParsePodArg(args[i])
  {
    seq(|args|, i requires 0 <= i < |args| => ParsePodArg(args[i]))
  }

  /** The `for pod in parsed_args.cocoapods` loop: each argument is parsed
      and assigned into the dict in turn. */
  function ParsePods(args: seq<string>): PodMap {
    FromPairs(ParseArgs(args))
  }

  /** The map has one entry per distinct name among the arguments, and no
      other entries. */
  lemma ParsePodsNames(args: seq<string>)
    ensures DistinctKeys(ParsePods(args))
    ensures forall name :: name in Keys(ParsePods(args)) <==>
              exists i :: 0 <= i < |args| && ParsePodArg(args[i]).0 == name
  {
    var pairs := ParseArgs(args);
    FromPairsKeys(pairs);
    forall name | name in Keys(pairs)
      ensures exists i :: 0 <= i < |args| && ParsePodArg(args[i]).0 == name
    {
      var i :| 0 <= i < |pairs| && Keys(pairs)[i] == name;
      assert ParsePodArg(args[i]).0 == name;
    }
    forall name | exists i :: 0 <= i < |args| && ParsePodArg(args[i]).0 == name
      ensures name in Keys(pairs)
    {
      var i :| 0 <= i < |args| && ParsePodArg(args[i]).0 == name;
      assert Keys(pairs)[i] == name;
    }
  }

  /** The last argument naming a pod decides its version: a repeated name
      overwrites the earlier version. */
  lemma ParsePodsLastWins(args: seq<string>)
    ensures forall i :: 0 <= i < |args| &&
                        (forall j :: i < j < |args| ==> ParsePodArg(args[j]).0 != ParsePodArg(args[i]).0) ==>
              Get(ParsePods(args), ParsePodArg(args[i]).0) == Some(ParsePodArg(args[i]).1)
  {
    FromPairsLastWins(ParseArgs(args));
  }

  /** Entries appear in the order in which their names first occur among
      the arguments: a repeated name keeps its first position. */
  lemma ParsePodsFirstOccurrenceOrder(args: seq<string>)
    ensures InFirstOccurrenceOrder(Keys(ParsePods(args)), Keys(ParseArgs(args)))
  {
    FromPairsFirstOccurrenceOrder(ParseArgs(args));
  }
}
