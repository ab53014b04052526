/** The Podfile text that `InstallPods` (measure_cocoapod_size.py) writes
    before running the dependency manager, as a pure function of the pod
    map, the spec repositories, the target name, the mode and the optional
    source document. */
module Podfile {
  import opened Wrappers
  import opened Text
  import opened Pairs
  import opened SourceConfig
  import opened PodArgs

  /** The KeyErrors writing the Podfile can raise. They are reachable only
      with a source document that skipped validation (an empty JSON object,
      which is falsy). */
  datatype EmitError =
    | NoPodsKey        // `pod_sources['pods']` on a document without it
    | EntryWithoutSdk  // `pod_config['sdk']` on an entry without it

  /** An entry the search passes over: it names some other pod. */
  predicate SkipsOver(c: PodConfig, pod: string) {
    Get(c, SDK).Some? && Get(c, SDK).value != pod
  }

  /** The `for pod_config in pod_sources['pods']` search: the index of the
      first entry whose `sdk` is the pod, `None` when no entry matches, or
      the KeyError of the first entry without `sdk` met before a match. */
  function FindSource(pods: seq<PodConfig>, pod: string): (r: Result<Option<nat>, EmitError>)
    ensures r.Success? && r.value.Some? ==>
              r.value.value < |pods| && Get(pods[r.value.value], SDK) == Some(pod)
              && forall j :: 0 <= j < r.value.value ==> SkipsOver(pods[j], pod)
    ensures r == Success(None) ==> forall j :: 0 <= j < |pods| ==> SkipsOver(pods[j], pod)
    ensures r.Failure? ==> (r.error == EntryWithoutSdk &&
              exists i :: 0 <= i < |pods| && Get(pods[i], SDK).None?
                          && forall j :: 0 <= j < i ==> SkipsOver(pods[j], pod))
  {
    if |pods| == 0 then Success(None)
    else match Get(pods[0], SDK)
      case None => Failure(EntryWithoutSdk)
      case Some(sdk) =>
        if sdk == pod then Success(Some(0))
        else
          assert forall j :: 1 <= j < |pods| ==> pods[j] == pods[1..][j - 1];
          match FindSource(pods[1..], pod)
          case Failure(e) =>
            var i :| 0 <= i < |pods[1..]| && Get(pods[1..][i], SDK).None?
                     && forall j :: 0 <= j < i ==> SkipsOver(pods[1..][j], pod);
            assert Get(pods[i + 1], SDK).None?;
            Failure(e)
          case Success(None) => Success(None)
          case Success(Some(i)) => Success(Some(i + 1))
  }

  /** One source option, `:key => 'value'`. */
  function OptionText(key: string, value: string): string {
    ":" + key + " => '" + value + "'"
  }

  /** The options of every pair except `sdk`, in the entry's order. */
  function OptionTexts(c: PodConfig): (opts: seq<string>)
    ensures |opts| <= |c|
  {
    if |c| == 0 then []
    else if c[0].0 == SDK then OptionTexts(c[1..])
    else [OptionText(c[0].0, c[0].1)] + OptionTexts(c[1..])
  }

  /** The options joined with "," (no space). */
  function SourceOptions(c: PodConfig): string {
    Join(OptionTexts(c), ",")
  }

  /** The Podfile line of one pod, or `None` when the pod is written not at
      all (unversioned, with a source document that has no entry for it). */
  function PodLine(name: string, version: string, sources: Option<SourceDoc>): (r: Result<Option<string>, EmitError>)
    ensures version != "" ==> r == Success(Some(" pod '" + name + "', '" + version + "'"))
    ensures version == "" && sources.None? ==> r == Success(Some(" pod '" + name + "'"))
    ensures version == "" && sources.Some? && sources.value.pods.None? ==> r == Failure(NoPodsKey)
    ensures version == "" && sources.Some? && sources.value.pods.Some? ==>
              var pods := sources.value.pods.value;
              match FindSource(pods, name)
              case Failure(e) => r == Failure(e)
              case Success(None) => r == Success(None)
              case Success(Some(i)) => r == Success(Some(" pod '" + name + "', " + SourceOptions(pods[i])))
  {
    if version != "" then Success(Some(" pod '" + name + "', '" + version + "'"))
    else match sources
      case None => Success(Some(" pod '" + name + "'"))
      case Some(doc) =>
        match doc.pods
        case None => Failure(NoPodsKey)
        case Some(pods) =>
          match FindSource(pods, name)
          case Failure(e) => Failure(e)
          case Success(None) => Success(None)
          case Success(Some(i)) => Success(Some(" pod '" + name + "', " + SourceOptions(pods[i])))
  }

  /** The lines of the target block, pod by pod in map order; the first
      KeyError aborts. */
  function PodLines(pods: PodMap, sources: Option<SourceDoc>): (r: Result<seq<string>, EmitError>)
    ensures r.Success? ==> |r.value| <= |pods|
  {
    if |pods| == 0 then Success([])
    else
      var line :- PodLine(pods[0].0, pods[0].1, sources);
      var rest :- PodLines(pods[1..], sources);
      match line
      case None => Success(rest)
      case Some(l) => Success([l] + rest)
  }

  /** Each pod's line (or its omission), in map order, when no pod's line
      raises. */
  function PodLineValues(pods: PodMap, sources: Option<SourceDoc>): (vs: seq<Option<string>>)
    requires forall i :: 0 <= i < |pods| ==> PodLine(pods[i].0, pods[i].1, sources).Success?
    ensures |vs| == |pods|
    ensures forall i :: 0 <= i < |pods| ==> vs[i] == PodLine(pods[i].0, pods[i].1, sources).value
  {
    seq(|pods|, i requires 0 <= i < |pods| && PodLine(pods[i].0, pods[i].1, sources).Success? =>
                  PodLine(pods[i].0, pods[i].1, sources).value)
  }

  /** When no pod's line raises, the target block holds the lines of the
      pods in map order, leaving out the pods that get no line. */
  lemma {:induction false} PodLinesAllSucceed(pods: PodMap, sources: Option<SourceDoc>)
    requires forall i :: 0 <= i < |pods| ==> PodLine(pods[i].0, pods[i].1, sources).Success?
    ensures PodLines(pods, sources) == Success(Somes(PodLineValues(pods, sources)))
  {
    var vs := PodLineValues(pods, sources);
    if |pods| > 0 {
      var rest := pods[1..];
      assert forall i :: 0 <= i < |rest| ==> rest[i] == pods[i + 1];
      PodLinesAllSucceed(rest, sources);
      var ws := PodLineValues(rest, sources);
      assert vs[1..] == ws;
      assert PodLine(pods[0].0, pods[0].1, sources) == Success(vs[0]);
      assert PodLines(rest, sources) == Success(Somes(ws));
      if vs[0].Some? {
        assert Somes(vs) == [vs[0].value] + Somes(ws);
        assert PodLines(pods, sources) == Success([vs[0].value] + Somes(ws));
      } else {
        assert Somes(vs) == [] + Somes(ws) == Somes(ws);
        assert PodLines(pods, sources) == Success(Somes(ws));
      }
    }
  }

  /** Otherwise writing stops at the first pod whose line raises, with its
      error. */
  lemma {:induction false} PodLinesFirstFailure(pods: PodMap, sources: Option<SourceDoc>, k: nat)
    requires k < |pods|
    requires forall i :: 0 <= i < k ==> PodLine(pods[i].0, pods[i].1, sources).Success?
    requires PodLine(pods[k].0, pods[k].1, sources).Failure?
    ensures PodLines(pods, sources) == Failure(PodLine(pods[k].0, pods[k].1, sources).error)
  {
    if k > 0 {
      var rest := pods[1..];
      assert forall i :: 0 <= i < |rest| ==> rest[i] == pods[i + 1];
      PodLinesFirstFailure(rest, sources, k - 1);
    }
  }

  function SourceLines(repos: seq<string>): (ls: seq<string>)
    ensures |ls| == |repos|
    ensures forall i :: 0 <= i < |repos| ==> ls[i] == "source \"" + repos[i] + "\""
  {
    seq(|repos|, i requires 0 <= i < |repos| => "source \"" + repos[i] + "\"")
  }

  /** The body of the `with open('Podfile', 'w')` block: every write, in
      order. Each source line and the target block's lines end in a
      newline; the closing `end` does not. */
  function PodfileText(pods: PodMap, repos: seq<string>, target: string, mode: string,
                       sources: Option<SourceDoc>): Result<string, EmitError>
  {
    var entries :- PodLines(pods, sources);
    Success(Terminated(SourceLines(repos)) + "\n"
            + (if mode == MODE_SWIFT then "use_frameworks!\n" else "")
            + "target '" + target + "' do\n"
            + Terminated(entries)
            + "end")
  }

  /** The Podfile as a list of lines: the source lines, a blank line,
      `use_frameworks!` in swift mode only, the target line, the pod lines,
      and `end`. No platform directive appears. */
  function PodfileLines(repos: seq<string>, target: string, mode: string, entries: seq<string>): (ls: seq<string>)
    ensures var h := |repos| + (if mode == MODE_SWIFT then 1 else 0) + 1;
            && |ls| == h + |entries| + 2
            && ls[..|repos|] == SourceLines(repos)
            && ls[|repos|] == ""
            && (mode == MODE_SWIFT ==> ls[|repos| + 1] == "use_frameworks!")
            && ls[h] == "target '" + target + "' do"
            && ls[h + 1..h + 1 + |entries|] == entries
            && ls[|ls| - 1] == "end"
  {
    var header := SourceLines(repos) + [""] + (if mode == MODE_SWIFT then ["use_frameworks!"] else []);
    var ls := header + ["target '" + target + "' do"] + entries + ["end"];
    assert ls[..|repos|] == SourceLines(repos);
    assert ls[|header| + 1..|header| + 1 + |entries|] == entries;
    ls
  }

  /** The written text is the newline-join of the Podfile's lines. */
  lemma PodfileTextJoinsLines(pods: PodMap, repos: seq<string>, target: string, mode: string,
                              sources: Option<SourceDoc>)
    requires PodLines(pods, sources).Success?
    ensures PodfileText(pods, repos, target, mode, sources)
            == Success(Join(PodfileLines(repos, target, mode, PodLines(pods, sources).value), "\n"))
  {
    var entries := PodLines(pods, sources).value;
    var a := SourceLines(repos);
    var c: seq<string> := if mode == MODE_SWIFT then ["use_frameworks!"] else [];
    var d := ["target '" + target + "' do"];
    var lines := a + [""] + c + d + entries;
    var swift := if mode == MODE_SWIFT then "use_frameworks!\n" else "";
    assert Terminated([""]) == "\n";
    assert Terminated(d) == "target '" + target + "' do\n";
    assert Terminated(c) == swift;
    calc {
      Join(PodfileLines(repos, target, mode, entries), "\n");
      { assert lines + ["end"] == PodfileLines(repos, target, mode, entries);
        TerminatedJoin(lines, "end"); }
      Terminated(lines) + "end";
      { TerminatedConcat(a + [""] + c + d, entries); }
      Terminated(a + [""] + c + d) + Terminated(entries) + "end";
      { TerminatedConcat(a + [""] + c, d); }
      Terminated(a + [""] + c) + Terminated(d) + Terminated(entries) + "end";
      { TerminatedConcat(a + [""], c); }
      Terminated(a + [""]) + swift + Terminated(d) + Terminated(entries) + "end";
      { TerminatedConcat(a, [""]); }
      Terminated(a) + "\n" + swift + Terminated(d) + Terminated(entries) + "end";
      Terminated(a) + "\n" + swift + "target '" + target + "' do\n" + Terminated(entries) + "end";
    }
  }

  predicate NoNewline(s: string) {
    '\n' !in s
  }

  /** No input string carries a line break. */
  predicate SingleLineInputs(pods: PodMap, repos: seq<string>, target: string, sources: Option<SourceDoc>) {
    && (forall i :: 0 <= i < |pods| ==> NoNewline(pods[i].0) && NoNewline(pods[i].1))
    && (forall i :: 0 <= i < |repos| ==> NoNewline(repos[i]))
    && NoNewline(target)
    && (sources.Some? && sources.value.pods.Some? ==>
          forall i, j :: 0 <= i < |sources.value.pods.value| && 0 <= j < |sources.value.pods.value[i]| ==>
            NoNewline(sources.value.pods.value[i][j].0) && NoNewline(sources.value.pods.value[i][j].1))
  }

  lemma OptionTextsSingleLine(c: PodConfig)
    requires forall j :: 0 <= j < |c| ==> NoNewline(c[j].0) && NoNewline(c[j].1)
    ensures NoNewline(SourceOptions(c))
  {
    OptionTextsNoNewline(c);
    JoinNoNewline(OptionTexts(c), ",");
  }

  lemma {:induction false} OptionTextsNoNewline(c: PodConfig)
    requires forall j :: 0 <= j < |c| ==> NoNewline(c[j].0) && NoNewline(c[j].1)
    ensures forall k :: 0 <= k < |OptionTexts(c)| ==> NoNewline(OptionTexts(c)[k])
  {
    if |c| > 0 {
      assert forall j :: 0 <= j < |c[1..]| ==> c[1..][j] == c[j + 1];
      OptionTextsNoNewline(c[1..]);
    }
  }

  lemma {:induction false} JoinNoNewline(parts: seq<string>, sep: string)
    requires NoNewline(sep)
    requires forall k :: 0 <= k < |parts| ==> NoNewline(parts[k])
    ensures NoNewline(Join(parts, sep))
  {
    if |parts| > 1 {
      JoinNoNewline(parts[1..], sep);
    }
  }

  lemma {:induction false} PodLinesSingleLine(pods: PodMap, repos: seq<string>, target: string, sources: Option<SourceDoc>)
    requires SingleLineInputs(pods, repos, target, sources)
    requires PodLines(pods, sources).Success?
    ensures forall k :: 0 <= k < |PodLines(pods, sources).value| ==> NoNewline(PodLines(pods, sources).value[k])
  {
    if |pods| > 0 {
      var line := PodLine(pods[0].0, pods[0].1, sources);
      assert SingleLineInputs(pods[1..], repos, target, sources) by {
        assert forall i :: 0 <= i < |pods[1..]| ==> pods[1..][i] == pods[i + 1];
      }
      PodLinesSingleLine(pods[1..], repos, target, sources);
      if line.value.Some? && pods[0].1 == "" && sources.Some? {
        var ps := sources.value.pods.value;
        var i := FindSource(ps, pods[0].0).value.value;
        OptionTextsSingleLine(ps[i]);
      }
    }
  }

  /** Reading the written Podfile back line by line gives exactly the
      layout of `PodfileLines`, provided no input contains a line break. */
  lemma PodfileLayout(pods: PodMap, repos: seq<string>, target: string, mode: string, sources: Option<SourceDoc>)
    requires SingleLineInputs(pods, repos, target, sources)
    requires PodLines(pods, sources).Success?
    ensures PodfileText(pods, repos, target, mode, sources).Success?
    ensures Split(PodfileText(pods, repos, target, mode, sources).value, '\n')
            == PodfileLines(repos, target, mode, PodLines(pods, sources).value)
  {
    var entries := PodLines(pods, sources).value;
    PodfileTextJoinsLines(pods, repos, target, mode, sources);
    PodLinesSingleLine(pods, repos, target, sources);
    var ls := PodfileLines(repos, target, mode, entries);
    var h := |repos| + (if mode == MODE_SWIFT then 1 else 0) + 1;
    forall k | 0 <= k < |ls| ensures '\n' !in ls[k] {
      if k < |repos| {
        assert ls[k] == ls[..|repos|][k];
      } else if h < k < |ls| - 1 {
        assert ls[k] == ls[h + 1..h + 1 + |entries|][k - h - 1];
      }
    }
    SplitJoin(ls, '\n');
  }

  /** Without a source document, every pod gets exactly one line, in map
      order: with its literal version, or bare when the version is empty. */
  lemma {:induction false} OneLinePerPodWithoutSources(pods: PodMap)
    ensures PodLines(pods, None).Success?
    ensures |PodLines(pods, None).value| == |pods|
    ensures forall i :: 0 <= i < |pods| ==>
              (PodLines(pods, None).value[i]
               == if pods[i].1 != "" then " pod '" + pods[i].0 + "', '" + pods[i].1 + "'"
                  else " pod '" + pods[i].0 + "'")
  {
    if |pods| > 0 {
      OneLinePerPodWithoutSources(pods[1..]);
      assert forall i :: 1 <= i < |pods| ==> pods[i] == pods[1..][i - 1];
      var line := PodLine(pods[0].0, pods[0].1, None).value.value;
      assert PodLines(pods, None) == Success([line] + PodLines(pods[1..], None).value);
    }
  }

  /** Writing the Podfile never fails once the source document has passed
      validation. */
  lemma {:induction false} ValidatedSourcesNeverFail(pods: PodMap, doc: SourceDoc)
    requires Validate(doc).Pass?
    ensures PodLines(pods, Some(doc)).Success?
  {
    if |pods| > 0 {
      ValidatedSourcesNeverFail(pods[1..], doc);
    }
  }

  /** An accepted entry renders as `:git => 'u'`, `:path => 'p'` or
      `:git => 'u',:branch => 'b'` (likewise `tag`/`commit`): its pairs after
      `sdk`, in document order. */
  lemma AcceptedEntryOptions(c: PodConfig)
    requires CheckEntry(c).Pass?
    ensures |c| == 2 ==> SourceOptions(c) == OptionText(c[1].0, c[1].1)
    ensures |c| == 3 ==> SourceOptions(c) == OptionText(c[1].0, c[1].1) + "," + OptionText(c[2].0, c[2].1)
  {
    EntryAcceptedIff(c);
    assert c[0].0 == SDK && c[1].0 != SDK;
    assert OptionTexts(c) == OptionTexts(c[1..]);
    assert c[1..][0] == c[1] && c[1..][1..] == c[2..];
    assert OptionTexts(c[1..]) == [OptionText(c[1].0, c[1].1)] + OptionTexts(c[2..]);
    if |c| == 3 {
      assert c[2].0 != SDK;
      assert c[2..][0] == c[2] && c[2..][1..] == [];
      assert OptionTexts(c[2..]) == [OptionText(c[2].0, c[2].1)];
      var opts := OptionTexts(c);
      assert opts[1..] == [OptionText(c[2].0, c[2].1)];
      assert Join(opts, ",") == opts[0] + "," + Join(opts[1..], ",");
    } else {
      assert c[2..] == [];
    }
  }

  /** A pod with an empty version and a source document that has no entry
      for it is left out of the Podfile altogether. */
  lemma UnmatchedPodOmitted(name: string, pods: seq<PodConfig>, other: seq<string>)
    requires forall j :: 0 <= j < |pods| ==> SkipsOver(pods[j], name)
    ensures PodLine(name, "", Some(SourceDoc(Some(pods), other))) == Success(None)
  {
  }

  /** An empty source document is not validated, and writing the Podfile
      then fails on the first unversioned pod. */
  lemma EmptyDocumentFailsOnUnversionedPod(name: string)
    ensures PodLines([(name, "")], Some(SourceDoc(None, []))) == Failure(NoPodsKey)
    ensures !IsTruthy(SourceDoc(None, []))
  {
  }

  /** The end-to-end request `{"LibA": "2.0", "LibB": ""}` without a source
      document, with the default spec repository, in Objective-C mode, read
      back line by line. */
  lemma ExamplePodfile()
    ensures var text := PodfileText([("LibA", "2.0"), ("LibB", "")], DEFAULT_SPEC_REPOS, "SizeTest", MODE_OBJC, None);
            text.Success? &&
            Split(text.value, '\n') == ["source \"https://cdn.cocoapods.org/\"", "", "target 'SizeTest' do",
                                         " pod 'LibA', '2.0'", " pod 'LibB'", "end"]
  {
    var pods := [("LibA", "2.0"), ("LibB", "")];
    ExampleEntries();
    assert SingleLineInputs(pods, DEFAULT_SPEC_REPOS, "SizeTest", None);
    PodfileLayout(pods, DEFAULT_SPEC_REPOS, "SizeTest", MODE_OBJC, None);
    ExampleLines();
  }

  lemma ExampleEntries()
    ensures PodLines([("LibA", "2.0"), ("LibB", "")], None) == Success([" pod 'LibA', '2.0'", " pod 'LibB'"])
  {
    var pods := [("LibA", "2.0"), ("LibB", "")];
    OneLinePerPodWithoutSources(pods);
    var entries := [" pod 'LibA', '2.0'", " pod 'LibB'"];
    var lines := PodLines(pods, None).value;
    assert pods[0].1 != "" && pods[1].1 == "";
    assert lines[0] == entries[0] && lines[1] == entries[1];
    assert lines == entries;
  }

  lemma ExampleLines()
    ensures PodfileLines(DEFAULT_SPEC_REPOS, "SizeTest", MODE_OBJC, [" pod 'LibA', '2.0'", " pod 'LibB'"])
            == ["source \"https://cdn.cocoapods.org/\"", "", "target 'SizeTest' do",
                " pod 'LibA', '2.0'", " pod 'LibB'", "end"]
  {
    assert "target '" + "SizeTest" + "' do" == "target 'SizeTest' do";
    var entries := [" pod 'LibA', '2.0'", " pod 'LibB'"];
    CdnSourceLine();
    assert MODE_OBJC != MODE_SWIFT by {
      assert |MODE_OBJC| != |MODE_SWIFT|;
    }
    assert PodfileLines(DEFAULT_SPEC_REPOS, "SizeTest", MODE_OBJC, entries)
           == SourceLines(DEFAULT_SPEC_REPOS) + [""] + [] + ["target '" + "SizeTest" + "' do"] + entries + ["end"];
  }

  /** The default spec repository gives the one line naming the CDN. */
  lemma CdnSourceLine()
    ensures SourceLines(DEFAULT_SPEC_REPOS) == ["source \"https://cdn.cocoapods.org/\""]
  {
    assert "source \"" + CDN + "\"" == "source \"https://cdn.cocoapods.org/\"";
    assert DEFAULT_SPEC_REPOS == [CDN];
  }
}
