/** `GenerateSizeDifference` and the report of `Main` in
    xcode_project_diff.py. The file system and the build tool are
    abstracted: the world is the working directory plus the archive each
    directory holds, and the build tool is a parameter that, given a
    directory and a command, yields the archive the build leaves there or
    nothing when the build fails (the failure is printed and swallowed, so
    the run goes on). */
module SizeDifference {
  import opened Wrappers
  import opened Text
  import opened Paths
  import opened Archive
  import opened BuildCommand

  /** The working directory and, per directory, the `out.xcarchive` the
      last successful build there left behind. */
  datatype World = World(cwd: string, archives: map<string, Node>)

  /** `os.getcwd()` always names an absolute directory. */
  predicate Absolute(path: string) {
    |path| > 0 && path[0] == '/'
  }

  /** The build tool: the archive a command produces in a directory, or
      `None` when it fails. */
  type Toolchain = (string, string) -> Option<Node>

  /** `os.chdir('')` raises: a project path without a directory part
      cannot be built. */
  datatype SizeError = NoSuchDirectory(path: string)

  /** `os.chdir(dir)`, relative to the current directory. */
  function ChangeDir(w: World, dir: string): (r: Result<World, SizeError>)
    ensures r.Failure? <==> dir == ""
    ensures r.Success? ==> r.value.archives == w.archives && EndsWith(r.value.cwd, dir)
    ensures r.Success? && Absolute(dir) ==> r.value.cwd == dir
  {
    if dir == "" then Failure(NoSuchDirectory(dir)) else Success(w.(cwd := PathJoin(w.cwd, dir)))
  }

  /** `shell(cmd)` in the current directory: a successful build replaces
      the archive there; a failed one leaves everything as it was. */
  function RunBuild(w: World, cmd: string, toolchain: Toolchain): (r: World)
    ensures r.cwd == w.cwd
    ensures forall d :: d != w.cwd ==> (d in r.archives <==> d in w.archives)
    ensures forall d :: d != w.cwd && d in w.archives ==> r.archives[d] == w.archives[d]
    ensures toolchain(w.cwd, cmd).None? ==> r == w
    ensures toolchain(w.cwd, cmd).Some? ==> w.cwd in r.archives && r.archives[w.cwd] == toolchain(w.cwd, cmd).value
  {
    match toolchain(w.cwd, cmd)
    case None => w
    case Some(archive) => w.(archives := w.archives[w.cwd := archive])
  }

  /** `GetFinalBinarySize(ARCHIVE_PATH)` in the current directory. */
  function MeasureHere(w: World): nat {
    GetFinalBinarySize(if w.cwd in w.archives then Some(w.archives[w.cwd]) else None)
  }

  /** The command that builds a project: the file part of the trimmed path. */
  function ProjectCommand(project: string, scheme: string, basicArgs: seq<string>): string {
    GenerateBuildCommand(Basename(TrimTrailingSlash(project)), scheme, basicArgs)
  }

  /** The directory a project is built in: the directory part of the
      trimmed path. */
  function ProjectDir(project: string): string {
    Dirname(TrimTrailingSlash(project))
  }

  /** The source and target sizes, and the world after the run. */
  datatype Sizes = Sizes(source: nat, target: nat, final: World)

  /** `GenerateSizeDifference` with the basic arguments already made: change
      into the source's directory, build, measure, change back; then the
      same for the target; return the two sizes in that order. */
  function GenerateSizeDifference(sourceProject: string, sourceScheme: string,
                                  targetProject: string, targetScheme: string,
                                  basicArgs: seq<string>, w: World, toolchain: Toolchain)
    : (r: Result<Sizes, SizeError>)
    requires Absolute(w.cwd)
    ensures r.Failure? <==> ProjectDir(sourceProject) == "" || ProjectDir(targetProject) == ""
    ensures r.Success? ==> r.value.final.cwd == w.cwd
  {
    var sourceCmd := ProjectCommand(sourceProject, sourceScheme, basicArgs);
    var targetCmd := ProjectCommand(targetProject, targetScheme, basicArgs);
    var curDir := w.cwd;
    var w1 :- ChangeDir(w, ProjectDir(sourceProject));
    var w2 := RunBuild(w1, sourceCmd, toolchain);
    var sourceSize := MeasureHere(w2);
    // Changing back into the absolute start directory cannot fail.
    var w3 := w2.(cwd := curDir);
    var w4 :- ChangeDir(w3, ProjectDir(targetProject));
    var w5 := RunBuild(w4, targetCmd, toolchain);
    var targetSize := MeasureHere(w5);
    Success(Sizes(sourceSize, targetSize, w5.(cwd := curDir)))
  }

  /** The directory a build of `project` runs in, from `w`. */
  function BuildDir(w: World, project: string): string {
    PathJoin(w.cwd, ProjectDir(project))
  }

  /** Each size is measured from its own build, even when both projects
      live in the same directory: the source is measured before the target
      is built. */
  lemma SizesFromOwnBuilds(sourceProject: string, sourceScheme: string,
                           targetProject: string, targetScheme: string,
                           basicArgs: seq<string>, w: World, toolchain: Toolchain,
                           sourceArchive: Node, targetArchive: Node)
    requires Absolute(w.cwd)
    requires ProjectDir(sourceProject) != "" && ProjectDir(targetProject) != ""
    requires toolchain(BuildDir(w, sourceProject), ProjectCommand(sourceProject, sourceScheme, basicArgs)) == Some(sourceArchive)
    requires toolchain(BuildDir(w, targetProject), ProjectCommand(targetProject, targetScheme, basicArgs)) == Some(targetArchive)
    ensures var r := GenerateSizeDifference(sourceProject, sourceScheme, targetProject, targetScheme, basicArgs, w, toolchain);
            && r.Success?
            && r.value.source == GetFinalBinarySize(Some(sourceArchive))
            && r.value.target == GetFinalBinarySize(Some(targetArchive))
  {
  }

  /** When the target shares the source's directory and its build fails,
      the target is measured from the archive the source build left: the
      two sizes are then equal. */
  lemma FailedTargetReusesSourceArchive(sourceProject: string, sourceScheme: string,
                                        targetProject: string, targetScheme: string,
                                        basicArgs: seq<string>, w: World, toolchain: Toolchain)
    requires Absolute(w.cwd)
    requires ProjectDir(sourceProject) != "" && ProjectDir(targetProject) != ""
    requires BuildDir(w, sourceProject) == BuildDir(w, targetProject)
    requires toolchain(BuildDir(w, sourceProject), ProjectCommand(sourceProject, sourceScheme, basicArgs)).Some?
    requires toolchain(BuildDir(w, targetProject), ProjectCommand(targetProject, targetScheme, basicArgs)).None?
    ensures var r := GenerateSizeDifference(sourceProject, sourceScheme, targetProject, targetScheme, basicArgs, w, toolchain);
            r.Success? && r.value.source == r.value.target
  {
  }

  /** A failed build in a directory that holds no archive measures 0. */
  lemma FailedBuildWithoutArchiveMeasuresZero(sourceProject: string, sourceScheme: string,
                                              targetProject: string, targetScheme: string,
                                              basicArgs: seq<string>, w: World, toolchain: Toolchain)
    requires Absolute(w.cwd)
    requires ProjectDir(sourceProject) != "" && ProjectDir(targetProject) != ""
    requires BuildDir(w, sourceProject) !in w.archives
    requires toolchain(BuildDir(w, sourceProject), ProjectCommand(sourceProject, sourceScheme, basicArgs)).None?
    ensures var r := GenerateSizeDifference(sourceProject, sourceScheme, targetProject, targetScheme, basicArgs, w, toolchain);
            r.Success? && r.value.source == 0
  {
  }

  /** A bare file name, with no directory part, cannot be built. */
  lemma BareProjectNameFails(sourceProject: string, sourceScheme: string,
                             targetProject: string, targetScheme: string,
                             basicArgs: seq<string>, w: World, toolchain: Toolchain)
    requires Absolute(w.cwd)
    requires '/' !in TrimTrailingSlash(sourceProject)
    ensures GenerateSizeDifference(sourceProject, sourceScheme, targetProject, targetScheme, basicArgs, w, toolchain).Failure?
  {
    DirnameEmptyIff(TrimTrailingSlash(sourceProject));
  }

  /** Both commands end in the same basic arguments, so the two builds use
      the same configuration, Swift version, flags and archive path. */
  lemma CommandsShareBasicArgs(sourceProject: string, sourceScheme: string,
                               targetProject: string, targetScheme: string, basicArgs: seq<string>)
    ensures var tail := " " + Join(basicArgs, " ");
            && EndsWith(ProjectCommand(sourceProject, sourceScheme, basicArgs), tail)
            && EndsWith(ProjectCommand(targetProject, targetScheme, basicArgs), tail)
  {
  }

  /** The command names the project by its file part, and the directory it
      runs in is the directory part: together they give back the trimmed
      path. */
  lemma CommandNamesFilePart(project: string, scheme: string, basicArgs: seq<string>)
    requires ' ' !in project && ' ' !in scheme
    requires SingleSlashes(TrimTrailingSlash(project))
    ensures var words := Split(ProjectCommand(project, scheme, basicArgs), ' ');
            && |words| >= 5
            && PathJoin(ProjectDir(project), words[2]) == TrimTrailingSlash(project)
  {
    var p := TrimTrailingSlash(project);
    assert ' ' !in Basename(p) by {
      assert forall k :: 0 <= k < |Basename(p)| ==> Basename(p)[k] == p[|p| - |Basename(p)| + k];
    }
    BuildCommandWords(Basename(p), scheme, basicArgs);
    JoinDirnameBasename(p);
  }

  /** The three outcomes `Main` reports. */
  datatype Comparison = Larger(amount: nat) | Same | Smaller(amount: nat)

  /** Classifies a source size against a target size. */
  function Compare(source: nat, target: nat): (c: Comparison)
    ensures c.Larger? <==> source > target
    ensures c.Same? <==> source == target
    ensures c.Larger? ==> c.amount > 0 && source == target + c.amount
    ensures c.Smaller? ==> c.amount > 0 && target == source + c.amount
  {
    if source > target then Larger(source - target)
    else if source == target then Same
    else Smaller(target - source)
  }

  /** Swapping the two sizes swaps larger and smaller and keeps the amount. */
  lemma CompareSwap(source: nat, target: nat)
    ensures match Compare(source, target)
            case Larger(amount) => Compare(target, source) == Smaller(amount)
            case Same => Compare(target, source) == Same
            case Smaller(amount) => Compare(target, source) == Larger(amount)
  {
  }

  /** The line `Main` prints, computed as it does, from the signed
      difference `source - target`. */
  function Report(sourceProject: string, targetProject: string, source: nat, target: nat): string {
    var diff: int := source - target;
    if source > target then sourceProject + " is " + IntToString(diff) + " larger than " + targetProject
    else if source == target then sourceProject + " and " + targetProject + " are the same size"
    else sourceProject + " is " + IntToString(-1 * diff) + " smaller than " + targetProject
  }

  /** The printed amount is the positive size gap of the comparison, never
      a negative number. */
  lemma ReportStatesComparison(sourceProject: string, targetProject: string, source: nat, target: nat)
    ensures Report(sourceProject, targetProject, source, target)
            == match Compare(source, target)
               case Larger(amount) => sourceProject + " is " + NatToString(amount) + " larger than " + targetProject
               case Same => sourceProject + " and " + targetProject + " are the same size"
               case Smaller(amount) => sourceProject + " is " + NatToString(amount) + " smaller than " + targetProject
  {
  }
}
