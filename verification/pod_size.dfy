/** `GetPodSizeImpact` (measure_cocoapod_size.py): the whole measurement of
    a set of pods. The sample app is chosen, the spec repositories and pods
    are read from the request, the source document is validated when it is
    non-empty, the Podfile is written into a copy of the app, and the plain
    copy and the copy with pods are built and measured. The extra size is
    the second size minus the first. */
module PodSize {
  import opened Wrappers
  import opened Text
  import opened Pairs
  import opened Paths
  import opened SourceConfig
  import opened PodArgs
  import opened Podfile
  import opened Archive
  import opened BuildCommand
  import opened SizeDifference

  /** The parsed command line: `--cocoapods`, `--mode`, `--spec_repos`
      (empty when absent) and the `--cocoapods_source_config` document as
      written. */
  datatype Request = Request(cocoapods: seq<string>, mode: string, specRepos: seq<string>,
                             sourceConfig: Option<WrittenDoc>)

  /** `pod_sources`: the decoded document, `None` without a file. */
  function Sources(req: Request): (sources: Option<SourceDoc>)
    ensures sources.Some? <==> req.sourceConfig.Some?
    ensures sources.Some? ==> sources.value == DecodeDoc(req.sourceConfig.value)
  {
    match req.sourceConfig
    case None => None
    case Some(w) => Some(DecodeDoc(w))
  }

  /** What the run reads from outside the script: the result of
      `GetSwiftVersion`, the `compilerFlags` pairs as the build configuration
      file writes them (decoding merges a repeated flag), the current
      directory, the two fresh temporary directories, and the archives
      already on disk. */
  datatype Environment = Environment(swiftVersion: Option<string>, compilerFlags: seq<(string, string)>,
                                     cwd: string, baseTmp: string, targetTmp: string,
                                     archives: map<string, Node>)

  /** `os.getcwd()` and `tempfile.mkdtemp()` return absolute paths. */
  predicate AbsolutePaths(env: Environment) {
    Absolute(env.cwd) && Absolute(env.baseTmp) && Absolute(env.targetTmp)
  }

  /** The ways the run stops early. */
  datatype ImpactError =
    | InvalidConfig(configError: ConfigError)
    | PodfileFailed(emitError: EmitError)
    | BuildFailed(sizeError: SizeError)

  /** The Podfile written, the workspace measured, the two sizes and the
      reported extra size with its message. */
  datatype Impact = Impact(podfile: string, workspace: string, sourceSize: nat, targetSize: nat,
                           extraSize: int, message: string)

  /** `if pod_sources: ValidateSourceConfig(pod_sources)`: a missing or empty
      document is not validated. */
  function CheckSources(sources: Option<SourceDoc>): (r: Outcome<ConfigError>)
    ensures sources.None? ==> r.Pass?
    ensures sources.Some? && !IsTruthy(sources.value) ==> r.Pass?
    ensures sources.Some? && IsTruthy(sources.value) ==> r == Validate(sources.value)
  {
    match sources
    case None => Pass
    case Some(doc) => if IsTruthy(doc) then Validate(doc) else Pass
  }

  /** The unmodified app's project inside the first temporary directory. */
  function SourceProjectPath(baseTmp: string, appDir: string, appName: string): string {
    PathJoin(baseTmp, appDir + "/" + appName + ".xcodeproj")
  }

  /** The workspace `pod install` creates next to the copied app. */
  function WorkspacePath(targetDir: string, appName: string): string {
    PathJoin(targetDir, appName + ".xcworkspace")
  }

  /** `target_size - source_size`: what the pods add, negative when the app
      with pods is the smaller one. */
  function ExtraSize(sourceSize: nat, targetSize: nat): (extra: int)
    ensures sourceSize + extra == targetSize
  {
    targetSize - sourceSize
  }

  function ExtraSizeMessage(extra: int): string {
    "The pods combined add an extra size of " + IntToString(extra) + " bytes"
  }

  function GetPodSizeImpact(req: Request, env: Environment, toolchain: Toolchain): (r: Result<Impact, ImpactError>)
    requires AbsolutePaths(env)
    ensures r.Failure? && r.error.InvalidConfig? <==> CheckSources(Sources(req)).Fail?
    ensures r.Success? ==> r.value.sourceSize + r.value.extraSize == r.value.targetSize
  {
    var app := GetSampleApp(req.mode);
    var repos := ResolveSpecRepos(req.specRepos);
    var pods := ParsePods(req.cocoapods);
    var sources := Sources(req);
    match CheckSources(sources)
    case Fail(e) => Failure(InvalidConfig(e))
    case Pass =>
      var targetDir := PathJoin(env.targetTmp, app.0);
      match PodfileText(pods, repos, app.1, req.mode, sources)
      case Failure(e) => Failure(PodfileFailed(e))
      case Success(podfile) =>
        var workspace := WorkspacePath(targetDir, app.1);
        var sourceProject := SourceProjectPath(env.baseTmp, app.0, app.1);
        var basicArgs := CreateBasicCommandArgs(FromPairs(env.compilerFlags), ARCHIVE_PATH, env.swiftVersion);
        match GenerateSizeDifference(sourceProject, app.1, workspace, app.1, basicArgs,
                                     World(env.cwd, env.archives), toolchain)
        case Failure(e) => Failure(BuildFailed(e))
        case Success(sizes) =>
          var extra := ExtraSize(sizes.source, sizes.target);
          Success(Impact(podfile, workspace, sizes.source, sizes.target, extra, ExtraSizeMessage(extra)))
  }

  /** The sample app's directory and name are plain, non-empty names. */
  lemma SampleAppNamesPlain(mode: string)
    ensures var app := GetSampleApp(mode);
            && |app.0| > 0 && |app.1| > 0
            && app.0[0] != '/' && app.0[|app.0| - 1] != '/'
            && '/' !in app.1
  {
  }

  /** Both project paths have a directory part and no trailing slash, so
      the builds always get a directory to run in. */
  lemma ProjectPathsHaveDirectories(env: Environment, mode: string)
    requires AbsolutePaths(env)
    ensures var app := GetSampleApp(mode);
            && ProjectDir(SourceProjectPath(env.baseTmp, app.0, app.1)) != ""
            && ProjectDir(WorkspacePath(PathJoin(env.targetTmp, app.0), app.1)) != ""
  {
    var app := GetSampleApp(mode);
    SampleAppNamesPlain(mode);
    assert ProjectDir(SourceProjectPath(env.baseTmp, app.0, app.1)) != "" by {
      var rel := app.0 + "/" + app.1 + ".xcodeproj";
      assert rel[0] == app.0[0] && rel[|rel| - 1] == 'j';
      JoinedPathHasDirectory(env.baseTmp, rel);
    }
    assert ProjectDir(WorkspacePath(PathJoin(env.targetTmp, app.0), app.1)) != "" by {
      var targetDir := PathJoin(env.targetTmp, app.0);
      var file := app.1 + ".xcworkspace";
      assert app.1[0] in app.1;
      assert file[0] == app.1[0] && file[|file| - 1] == 'e';
      assert targetDir != "" by {
        assert EndsWith(targetDir, app.0);
      }
      JoinedPathHasDirectory(targetDir, file);
    }
  }

  /** Once the Podfile is written the run always completes and reports a
      size, whatever the two builds produce: a failed build, or an empty
      application directory measuring 0, raises nothing. */
  lemma CompletesOncePodfileWritten(req: Request, env: Environment, toolchain: Toolchain)
    requires AbsolutePaths(env)
    requires CheckSources(Sources(req)).Pass?
    requires var app := GetSampleApp(req.mode);
             PodfileText(ParsePods(req.cocoapods), ResolveSpecRepos(req.specRepos), app.1, req.mode,
                         Sources(req)).Success?
    ensures GetPodSizeImpact(req, env, toolchain).Success?
  {
    ProjectPathsHaveDirectories(env, req.mode);
  }

  /** A run without a source document, or with one that passes validation,
      always completes. */
  lemma ValidRequestCompletes(req: Request, env: Environment, toolchain: Toolchain)
    requires AbsolutePaths(env)
    requires req.sourceConfig.Some? ==> Validate(DecodeDoc(req.sourceConfig.value)).Pass?
    ensures GetPodSizeImpact(req, env, toolchain).Success?
  {
    var app := GetSampleApp(req.mode);
    var pods := ParsePods(req.cocoapods);
    assert PodLines(pods, Sources(req)).Success? by {
      match Sources(req)
      case None =>
        OneLinePerPodWithoutSources(pods);
      case Some(doc) =>
        ValidatedSourcesNeverFail(pods, doc);
    }
    assert PodfileText(pods, ResolveSpecRepos(req.specRepos), app.1, req.mode, Sources(req)).Success?;
    CompletesOncePodfileWritten(req, env, toolchain);
  }

  /** An empty source document `{}` is not validated; a non-empty one without
      `pods` is rejected before anything is written or built. */
  lemma EmptyDocumentSkipsValidation(req: Request, env: Environment, toolchain: Toolchain)
    requires AbsolutePaths(env)
    ensures req.sourceConfig == Some(WrittenDoc(None, [])) ==>
              !(GetPodSizeImpact(req, env, toolchain).Failure? && GetPodSizeImpact(req, env, toolchain).error.InvalidConfig?)
    ensures (req.sourceConfig.Some? && req.sourceConfig.value.pods.None? && |req.sourceConfig.value.otherKeys| > 0) ==>
              GetPodSizeImpact(req, env, toolchain) == Failure(InvalidConfig(MissingPods))
  {
  }

  /** The app without pods is built from its `.xcodeproj` with `-project`;
      the app with pods from the generated `.xcworkspace` with `-workspace`. */
  lemma SourceIsProjectTargetIsWorkspace(env: Environment, mode: string)
    requires AbsolutePaths(env)
    ensures var app := GetSampleApp(mode);
            var source := SourceProjectPath(env.baseTmp, app.0, app.1);
            var target := WorkspacePath(PathJoin(env.targetTmp, app.0), app.1);
            && ProjectKind(Basename(TrimTrailingSlash(source))) == "-project"
            && ProjectKind(Basename(TrimTrailingSlash(target))) == "-workspace"
  {
    var app := GetSampleApp(mode);
    SampleAppNamesPlain(mode);
    SourceIsProject(env.baseTmp, app.0, app.1);
    TargetIsWorkspace(env.targetTmp, app.0, app.1);
  }

  lemma SourceIsProject(baseTmp: string, appDir: string, appName: string)
    requires Absolute(baseTmp) && |appDir| > 0 && appDir[0] != '/' && '/' !in appName
    ensures ProjectKind(Basename(TrimTrailingSlash(SourceProjectPath(baseTmp, appDir, appName)))) == "-project"
  {
    var file := appName + ".xcodeproj";
    var rel := appDir + "/" + file;
    assert appDir + "/" + appName + ".xcodeproj" == rel;
    assert rel[0] == appDir[0];
    var head := if EndsWith(baseTmp, "/") then baseTmp else baseTmp + "/";
    var p := SourceProjectPath(baseTmp, appDir, appName);
    assert p == head + rel;
    assert p == head + appDir + "/" + file by {
      assert head + (appDir + "/" + file) == head + appDir + "/" + file;
    }
    assert '/' !in file by {
      assert forall k :: 0 <= k < |appName| ==> file[k] == appName[k];
    }
    FileUnder(head + appDir, file);
    ProjectFileKind(appName);
  }

  lemma TargetIsWorkspace(targetTmp: string, appDir: string, appName: string)
    requires Absolute(targetTmp) && '/' !in appName
    ensures ProjectKind(Basename(TrimTrailingSlash(WorkspacePath(PathJoin(targetTmp, appDir), appName)))) == "-workspace"
  {
    var targetDir := PathJoin(targetTmp, appDir);
    assert |targetDir| > 0 by {
      JoinNonEmpty(targetTmp, appDir);
    }
    var file := Basename(TrimTrailingSlash(WorkspacePath(targetDir, appName)));
    assert file == appName + ".xcworkspace" by {
      WorkspaceFilePart(targetDir, appName);
    }
    WorkspaceFileKind(appName);
  }

  lemma JoinNonEmpty(a: string, b: string)
    requires |a| > 0
    ensures |PathJoin(a, b)| > 0
  {
  }

  /** The file part of the workspace path is the workspace's name. */
  lemma WorkspaceFilePart(targetDir: string, appName: string)
    requires |targetDir| > 0 && '/' !in appName
    ensures Basename(TrimTrailingSlash(WorkspacePath(targetDir, appName))) == appName + ".xcworkspace"
  {
    var ws := appName + ".xcworkspace";
    var path := WorkspacePath(targetDir, appName);
    if EndsWith(targetDir, "/") {
      var d := targetDir[..|targetDir| - 1];
      assert targetDir == d + "/";
      assert path == d + "/" + ws;
      FileUnder(d, ws);
    } else {
      assert path == targetDir + "/" + ws;
      FileUnder(targetDir, ws);
    }
  }

  /** `<name>.xcodeproj` is built with `-project`. */
  lemma ProjectFileKind(name: string)
    ensures ProjectKind(name + ".xcodeproj") == "-project"
  {
    var f := name + ".xcodeproj";
    assert f[|f| - 9..] == ".xcodeproj"[1..];
    assert f[|f| - 9] == 'x';
  }

  /** `<name>.xcworkspace` is built with `-workspace`. */
  lemma WorkspaceFileKind(name: string)
    ensures ProjectKind(name + ".xcworkspace") == "-workspace"
  {
    var f := name + ".xcworkspace";
    assert f[|f| - 9..] == ".xcworkspace"[3..];
  }

  /** The file part of `dir/file` is `file`, trailing-slash trim or not. */
  lemma FileUnder(dir: string, file: string)
    requires '/' !in file && |file| > 0
    ensures Basename(TrimTrailingSlash(dir + "/" + file)) == file
  {
    var p := dir + "/" + file;
    assert p[|p| - 1] == file[|file| - 1];
    assert TrimTrailingSlash(p) == p;
    BasenameAfterSlash(dir, file);
  }

  /** The reported extra size is the comparison of the two sizes seen from
      the other side: the amount by which the source is smaller, negated
      when it is larger. */
  lemma ExtraSizeMirrorsComparison(sourceSize: nat, targetSize: nat)
    ensures match Compare(sourceSize, targetSize)
            case Larger(amount) => ExtraSize(sourceSize, targetSize) + amount == 0
            case Same => ExtraSize(sourceSize, targetSize) == 0
            case Smaller(amount) => ExtraSize(sourceSize, targetSize) == amount
  {
  }

  /** The closing line names the size the pods add: the gap with a minus
      sign when the plain app is the larger one, `0` when both are equal,
      and the plain gap otherwise. */
  lemma ExtraSizeMessageStatesGap(sourceSize: nat, targetSize: nat)
    ensures ExtraSizeMessage(ExtraSize(sourceSize, targetSize))
            == "The pods combined add an extra size of "
               + (match Compare(sourceSize, targetSize)
                  case Larger(amount) => "-" + NatToString(amount)
                  case Same => "0"
                  case Smaller(amount) => NatToString(amount))
               + " bytes"
  {
  }
}
