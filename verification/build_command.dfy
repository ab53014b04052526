/** Assembly of the `xcodebuild` command line (`CreateBasicCommandArgs` and
    `GenerateBuildCommand` in xcode_project_diff.py). The Swift version the
    toolchain reports and the compiler flags of the build configuration file
    are inputs. */
module BuildCommand {
  import opened Wrappers
  import opened Text

  /** The archive location, relative to the project's directory. */
  const ARCHIVE_PATH := "out.xcarchive"

  /** `if swift_version:` -- a version is pinned only when one was found and
      it is not the empty string. */
  predicate HasVersion(swiftVersion: Option<string>) {
    swiftVersion.Some? && swiftVersion.value != ""
  }

  /** One build setting argument, `NAME=value`. */
  function FlagArg(flag: (string, string)): string {
    flag.0 + "=" + flag.1
  }

  /** `CreateBasicCommandArgs(config_info, archive_path)` with the detected
      Swift version as a parameter and `config_info['compilerFlags']` as an
      ordered list of name/value pairs. */
  function CreateBasicCommandArgs(flags: seq<(string, string)>, archivePath: string,
                                  swiftVersion: Option<string>): (args: seq<string>)
    ensures var pin := if HasVersion(swiftVersion) then 1 else 0;
            && |args| == 3 + pin + |flags|
            && args[..3] == ["-configuration Release", "archive", "-archivePath " + archivePath]
            && (HasVersion(swiftVersion) ==> args[3] == "SWIFT_VERSION=" + swiftVersion.value)
            && forall i :: 0 <= i < |flags| ==> args[3 + pin + i] == flags[i].0 + "=" + flags[i].1
  {
    var base := ["-configuration Release", "archive", "-archivePath " + archivePath];
    var pinned := if HasVersion(swiftVersion) then base + ["SWIFT_VERSION=" + swiftVersion.value] else base;
    pinned + seq(|flags|, i requires 0 <= i < |flags| => FlagArg(flags[i]))
  }

  /** How the build tool reads a `NAME=value` argument: the name is the text
      before the first '=' and the value everything after it. */
  function ParseSetting(arg: string): (setting: (string, string))
    ensures '=' !in setting.0
  {
    var parts := Split(arg, '=');
    (parts[0], Join(parts[1..], "="))
  }

  /** Every flag argument reads back as the flag it was made from, provided
      the flag's name has no '='. */
  lemma FlagArgReadsBack(flag: (string, string))
    requires '=' !in flag.0
    ensures ParseSetting(FlagArg(flag)) == flag
  {
    assert FlagArg(flag) == flag.0 + ['='] + flag.1;
    SplitConcat(flag.0, '=', flag.1);
    SplitNoSep(flag.0, '=');
    JoinSplit(flag.1, '=');
    assert Split(FlagArg(flag), '=')[1..] == Split(flag.1, '=');
  }

  /** The compiler flags can be recovered, in order, from the tail of the
      argument list. */
  lemma FlagsRecoverable(flags: seq<(string, string)>, archivePath: string, swiftVersion: Option<string>)
    requires forall i :: 0 <= i < |flags| ==> '=' !in flags[i].0
    ensures var args := CreateBasicCommandArgs(flags, archivePath, swiftVersion);
            forall i :: 0 <= i < |flags| ==> ParseSetting(args[|args| - |flags| + i]) == flags[i]
  {
    forall i | 0 <= i < |flags| {
      FlagArgReadsBack(flags[i]);
    }
  }

  /** `-workspace` when the path ends with `workspace` (as an
      `.xcworkspace` does), `-project` otherwise. */
  function ProjectKind(project: string): (kind: string)
    ensures kind == "-workspace" <==> EndsWith(project, "workspace")
    ensures kind == "-workspace" || kind == "-project"
  {
    if EndsWith(project, "workspace") then "-workspace" else "-project"
  }

  /** `GenerateBuildCommand(project, scheme, basic_args)`: `xcodebuild`, the
      project arguments joined by spaces, a space, and the basic arguments
      joined by spaces. */
  function GenerateBuildCommand(project: string, scheme: string, basicArgs: seq<string>): (cmd: string)
    ensures EndsWith(cmd, " " + Join(basicArgs, " "))
  {
    var projectArgs := [ProjectKind(project) + " " + project, "-scheme " + scheme];
    "xcodebuild " + Join(projectArgs, " ") + " " + Join(basicArgs, " ")
  }

  lemma BuildCommandShape(project: string, scheme: string, basicArgs: seq<string>)
    ensures GenerateBuildCommand(project, scheme, basicArgs)
            == "xcodebuild" + [' '] + (ProjectKind(project) + [' '] + (project + [' '] + ("-scheme" + [' ']
               + (scheme + [' '] + Join(basicArgs, " ")))))
  {
    var kind := ProjectKind(project);
    var rest := Join(basicArgs, " ");
    var projectArgs := [kind + " " + project, "-scheme " + scheme];
    assert projectArgs[1..] == ["-scheme " + scheme];
    assert Join(projectArgs, " ") == projectArgs[0] + " " + projectArgs[1];
    var tail := scheme + [' '] + rest;
    assert "-scheme " + scheme + " " + rest == "-scheme" + [' '] + tail;
    var middle := project + [' '] + ("-scheme" + [' '] + tail);
    assert kind + " " + project + " " + ("-scheme " + scheme) + " " + rest == kind + [' '] + middle;
  }

  /** With a space-free project path and scheme, the command's words are
      `xcodebuild`, `-workspace` or `-project`, the path, `-scheme`, the
      scheme, and then the words of the basic arguments. */
  lemma BuildCommandWords(project: string, scheme: string, basicArgs: seq<string>)
    requires ' ' !in project && ' ' !in scheme
    ensures Split(GenerateBuildCommand(project, scheme, basicArgs), ' ')
            == ["xcodebuild", ProjectKind(project), project, "-scheme", scheme] + Split(Join(basicArgs, " "), ' ')
  {
    var kind := ProjectKind(project);
    var rest := Join(basicArgs, " ");
    BuildCommandShape(project, scheme, basicArgs);
    var r4 := scheme + [' '] + rest;
    var r3 := "-scheme" + [' '] + r4;
    var r2 := project + [' '] + r3;
    var r1 := kind + [' '] + r2;
    assert Split(r4, ' ') == [scheme] + Split(rest, ' ') by {
      SplitNoSep(scheme, ' ');
      SplitConcat(scheme, ' ', rest);
    }
    assert Split(r3, ' ') == ["-scheme"] + Split(r4, ' ') by {
      SplitNoSep("-scheme", ' ');
      SplitConcat("-scheme", ' ', r4);
    }
    assert Split(r2, ' ') == [project] + Split(r3, ' ') by {
      SplitNoSep(project, ' ');
      SplitConcat(project, ' ', r3);
    }
    assert Split(r1, ' ') == [kind] + Split(r2, ' ') by {
      SplitNoSep(kind, ' ');
      SplitConcat(kind, ' ', r2);
    }
    assert Split("xcodebuild" + [' '] + r1, ' ') == ["xcodebuild"] + Split(r1, ' ') by {
      SplitNoSep("xcodebuild", ' ');
      SplitConcat("xcodebuild", ' ', r1);
    }
    var words := Split(rest, ' ');
    Prepend5("xcodebuild", kind, project, "-scheme", scheme, words);
  }

  /** Five words in front of a list, one at a time, are the five-word list
      in front of it. */
  lemma Prepend5<T>(a: T, b: T, c: T, d: T, e: T, xs: seq<T>)
    ensures [a] + ([b] + ([c] + ([d] + ([e] + xs)))) == [a, b, c, d, e] + xs
  {
  }
}
