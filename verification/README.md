# cocoapods-size, modelled in Dafny

cocoapods-size measures how many bytes a set of CocoaPods adds to an iOS app.
`measure_cocoapod_size.py` makes two copies of a sample app. Into the second copy it writes a
Podfile naming the requested pods and installs them. `xcode_project_diff.py` then builds both
copies with `xcodebuild archive` and sums the sizes of the files in each archive's application
directory. The reported extra size is the second size minus the first.

This project models the deterministic core of both scripts as pure Dafny functions over strings,
ordered key/value sequences, natural numbers and an abstract directory tree. It proves what the
code promises about them.

| file | module | what it models |
|---|---|---|
| `wrappers.dfy` | `Wrappers` | `Option`, `Result`, `Outcome`: how a Python exception becomes an error value |
| `pairs.dfy` | `Pairs` | a dict or decoded JSON object as its key/value pairs in insertion order |
| `text.dfy` | `Text` | Python's `str.strip`, `str.split`, `str.join`, `str.endswith` and `str(int)` |
| `source_config.dfy` | `SourceConfig` | the source-override document and `ValidateSourceConfig` |
| `pod_args.dfy` | `PodArgs` | `GetSampleApp`; spec-repository alias resolution; parsing of `--cocoapods` into the ordered `cocoapods` dict |
| `podfile.dfy` | `Podfile` | the Podfile text `InstallPods` writes |
| `build_command.dfy` | `BuildCommand` | `CreateBasicCommandArgs` and `GenerateBuildCommand` |
| `archive.dfy` | `Archive` | `GetFinalBinarySize` over a file tree |
| `paths.dfy` | `Paths` | trailing-slash trimming and POSIX `basename`, `dirname` and `join` |
| `size_difference.dfy` | `SizeDifference` | `GenerateSizeDifference` as a run over an abstract world, and the three-way report of `Main` |
| `pod_size.dfy` | `PodSize` | `GetPodSizeImpact`, composed from all of the above |

## How the environment is represented

- **Decoded JSON.** The source document is a `SourceDoc`. It holds the value of `pods`, if present, plus the names of the other top-level keys, which matter only for the document's truthiness. Each pod entry is a `seq<(string, string)>` of the `OrderedDict` the decoder builds. The pairs written in the file become that dict one assignment at a time, and `SourceConfig.DecodeEntries` models this step (`Pairs.FromPairs`). A key written twice keeps its first position and takes its last value, so a decoded entry never repeats a key (`SourceConfig.DecodedEntriesDistinct`, `SourceConfig.RepeatedKeyMerged`). The request carries the document as written (`SourceConfig.WrittenDoc`). `PodSize.Sources` decodes it with `SourceConfig.DecodeDoc` before the validator and the Podfile writer see it.
- **Swift version.** The result of `GetSwiftVersion` is an `Option<string>` input. A version is pinned only when it is present and non-empty, as `if swift_version:` decides. As written, the function always returns `None` (see "## Left out").
- **Compiler flags.** The `compilerFlags` of the build configuration file are an input, as the pairs the file writes. `GetPodSizeImpact` turns them into the decoded dict with `Pairs.FromPairs`, so a repeated flag is merged.
- **Archive directory.** A directory is a `Node` tree of named directories and files with byte sizes. The sum that `os.walk` plus `wc -c` computes becomes a fold over that tree.
- **Builds and the world.** A build is a `Toolchain` parameter. Given a directory and a command, it yields the archive the build leaves there, or `None` when the build fails. The failure is printed and swallowed by `shell`, so the run goes on. The world holds the current directory and the archive each directory contains. A failed build leaves an existing archive in place.
- **Fixed inputs.** `os.getcwd()` and the two `tempfile.mkdtemp()` results are inputs. They are absolute paths.

## Behaviour worth noting

- **Spec repositories.** Each repository is resolved in place. Repeats are kept, and `master` expands where it stands to the CDN locator (`PodArgs.MasterKeepsItsPlace`).
- **Podfile layout.** The Podfile is exactly: source lines, a blank line, `use_frameworks!` in swift mode, the target line, the pod lines, and `end` (`Podfile.PodfileLayout`).
- **Every size is accepted.** In the model, once the Podfile is written the run always completes and reports `target - source`, whatever the builds produce, a target size of 0 included (`PodSize.CompletesOncePodfileWritten`). This holds without `--json` and without `--build_timeout`, and with the build configuration file readable. Each of those can still abort a run; see "## Left out".
- **The two builds run one after the other.** They may share a directory. When they do and the target build fails, the target is measured from the archive the source build left there (`SizeDifference.FailedTargetReusesSourceArchive`).
- **An unversioned pod with no matching entry is omitted.** When a source document is given but has no entry for the pod, no line is written at all (`Podfile.UnmatchedPodOmitted`).
- **Key positions are absolute.** The validator looks at positions 1 and 2 of the key order, wherever `sdk` stands. Together with the lookup of `sdk`, this forces `sdk` to come first (`SourceConfig.EntryAcceptedIff`, `SourceConfig.SdkSecondRejected`).

## Model

| member | source | states |
|---|---|---|
| `Text.Strip` | measure_cocoapod_size.py:128 | the result is no longer than the input and has no Python whitespace at either end |
| `Text.StripEmptyIff` | measure_cocoapod_size.py:128 | stripping gives the empty string exactly when every character is whitespace: the blank-`sdk` test |
| `Text.StripStripped` | measure_cocoapod_size.py:166-168 | a string with non-whitespace ends strips to itself |
| `Text.Split` | measure_cocoapod_size.py:165 | `split` returns at least one piece, and no piece contains the separator |
| `Text.SplitConcat` | measure_cocoapod_size.py:165 | splitting `a + sep + b` gives the pieces of `a` followed by the pieces of `b` |
| `Text.SplitNoSep` | measure_cocoapod_size.py:165-170 | a string without the separator splits into itself alone, so a pod argument without `:` is all name |
| `Text.Join` | measure_cocoapod_size.py:96 | computes `sep.join(parts)`, used for the `,` of the source options and the spaces of the build command; `Text.JoinSplit` and `Text.SplitJoin` state it as the inverse of `split` |
| `Text.JoinSplit` | measure_cocoapod_size.py:165 | joining the pieces of a split with the separator gives the string back |
| `Text.SplitJoin` | measure_cocoapod_size.py:75-100 | splitting a join of separator-free pieces gives the pieces back; this reads a written file back line by line |
| `Text.ParseNatToString` | measure_cocoapod_size.py:207-208 | the decimal rendering of a size reads back as the same number |
| `Text.IntToString` | xcode_project_diff.py:187-194 | `str(i)` has a leading `-` exactly when `i` is negative |
| `Pairs.GetSomeIff` | measure_cocoapod_size.py:122-127 | a lookup such as `pod_config['sdk']` finds a value exactly when the key is among the keys, and the value found is paired with that key |
| `Pairs.Get` | measure_cocoapod_size.py:124 | computes the value of the first pair with the key; its meaning is stated by `Pairs.GetSomeIff` and `Pairs.PutGet` |
| `Pairs.FindKey` | measure_cocoapod_size.py:124 | the position found holds the key and no earlier pair does; the length of the entry means the key is absent |
| `SourceConfig.CheckEntry` | measure_cocoapod_size.py:122-145 | computes the verdict on one entry, check by check in the order of the source; which entries pass is stated by `SourceConfig.EntryAcceptedIff` |
| `SourceConfig.CheckEntries` | measure_cocoapod_size.py:121-145 | the pods pass exactly when every entry passes; a failure is the error of an entry all of whose predecessors pass |
| `SourceConfig.Validate` | measure_cocoapod_size.py:116-121 | a document without `pods` is rejected with `MissingPods`; a document passes exactly when it has `pods` and every entry passes |
| `SourceConfig.EntryAcceptedIff` | measure_cocoapod_size.py:122-145 | an entry passes exactly when it is `sdk` (non-blank) then `path` or `git`, or `sdk`, `git`, then `branch`/`tag`/`commit` |
| `SourceConfig.AcceptedIsWellShaped` | measure_cocoapod_size.py:122-145 | every accepted entry has `sdk` first, with one of the allowed shapes after it |
| `SourceConfig.WellShapedIsAccepted` | measure_cocoapod_size.py:122-145 | every entry of an allowed shape is accepted |
| `SourceConfig.SdkSecondRejected` | measure_cocoapod_size.py:130-132 | `git` before `sdk` is rejected as a bad source kind, because position 1 is checked by index |
| `SourceConfig.GitBranchAccepted` | measure_cocoapod_size.py:133-139 | `sdk`, `git`, `branch` passes |
| `SourceConfig.PathBranchRejected` | measure_cocoapod_size.py:133-136 | `sdk`, `path`, `branch` fails: a reference needs `git` |
| `SourceConfig.FourKeysRejected` | measure_cocoapod_size.py:140-145 | four keys fail even when the first three are a valid entry |
| `SourceConfig.BlankSdkRejected` | measure_cocoapod_size.py:128-129 | a whitespace-only `sdk` fails before any position is checked |
| `SourceConfig.SdkOnlyRejected` | measure_cocoapod_size.py:130 | an entry with `sdk` alone fails on the missing second key |
| `SourceConfig.DecodeEntries` | measure_cocoapod_size.py:180-181 | each entry is the `OrderedDict` of the pairs written for it |
| `SourceConfig.DecodedEntriesDistinct` | measure_cocoapod_size.py:180-181 | no decoded entry repeats a key |
| `SourceConfig.DecodeDoc` | measure_cocoapod_size.py:180-181 | the decoded document keeps the other keys and the presence and number of entries, and no decoded entry repeats a key |
| `SourceConfig.DecodeDocOfDistinct` | measure_cocoapod_size.py:180-181 | a document whose entries repeat no key decodes to exactly what it writes |
| `SourceConfig.RepeatedKeyMerged` | measure_cocoapod_size.py:122-145 | `sdk`, `git`, `sdk` decodes to `sdk` (last value) then `git`, which validates |
| `PodArgs.GetSampleApp` | measure_cocoapod_size.py:49-53 | `swift` selects `SwiftApp`/`SwiftApp`; every other mode selects `sizetestproject`/`SizeTest` |
| `PodArgs.ResolveAlias` | measure_cocoapod_size.py:158-161 | an alias becomes its locator, any other string is kept, and the result is never an alias |
| `PodArgs.ResolveSpecRepos` | measure_cocoapod_size.py:155-163 | no repositories give the default list; otherwise the length is kept and each position is resolved in place |
| `PodArgs.ResolveSpecReposIdempotent` | measure_cocoapod_size.py:155-163 | resolving an already resolved list changes nothing |
| `PodArgs.MasterKeepsItsPlace` | measure_cocoapod_size.py:155-163 | `master, x, master` resolves to `CDN, x, CDN`: no reordering and no deduplication |
| `PodArgs.ParsePodArg` | measure_cocoapod_size.py:165-170 | the name and version are stripped and contain no `:` |
| `PodArgs.ParsePodArgRoundTrip` | measure_cocoapod_size.py:165-170 | `name:version` of a stripped, colon-free pair parses back to that pair |
| `PodArgs.ParsePodArgNameOnly` | measure_cocoapod_size.py:167-170 | without `:` the stripped argument is the name and the version is empty |
| `PodArgs.ParsePodArgIgnoresExtraSegments` | measure_cocoapod_size.py:165-168 | text after a second `:` does not change the result |
| `PodArgs.ParsePodArgSegments` | measure_cocoapod_size.py:165-170 | for any colon-free name and version, `name:version` parses to the stripped name and the stripped version |
| `Pairs.Put` | measure_cocoapod_size.py:171 | an assignment adds at most one pair; its effect is stated by `Pairs.PutKeys` and `Pairs.PutGet` |
| `Pairs.PutKeys` | measure_cocoapod_size.py:171 | assigning an existing key keeps every position; a new key is appended |
| `Pairs.PutNew` | measure_cocoapod_size.py:171 | assigning a new key appends exactly that pair |
| `Pairs.PutGet` | measure_cocoapod_size.py:171 | after the assignment the key maps to the new value and every other key is unchanged |
| `Pairs.PutDistinct` | measure_cocoapod_size.py:171 | assignment keeps keys unique |
| `Pairs.FromPairs` | measure_cocoapod_size.py:164-171 | computes the dict built by assigning the pairs in turn, as `OrderedDict(pairs)` does too; its content is stated by `Pairs.FromPairsKeys`, `Pairs.FromPairsLastWins` and `Pairs.FromPairsFirstOccurrenceOrder` |
| `Pairs.FromPairsKeys` | measure_cocoapod_size.py:164-171 | a dict built by assigning pairs in turn has each of their keys exactly once and no other key |
| `Pairs.FromPairsLastWins` | measure_cocoapod_size.py:164-171 | in such a dict a key's value comes from the last pair with that key |
| `Pairs.FromPairsFirstOccurrenceOrder` | measure_cocoapod_size.py:164-171 | its keys are in the order of their first occurrence among the pairs |
| `Pairs.FromPairsOfDistinct` | measure_cocoapod_size.py:164-171 | pairs with distinct keys build a dict holding exactly them, in order |
| `PodArgs.ParseArgs` | measure_cocoapod_size.py:164-170 | one parsed pair per argument, in argument order |
| `PodArgs.ParsePods` | measure_cocoapod_size.py:164-171 | computes the `cocoapods` dict by assigning each parsed argument in turn; its content is stated by `PodArgs.ParsePodsNames`, `PodArgs.ParsePodsLastWins` and `PodArgs.ParsePodsFirstOccurrenceOrder` |
| `PodArgs.ParsePodsNames` | measure_cocoapod_size.py:164-171 | the dict holds each argument's name exactly once and nothing else |
| `PodArgs.ParsePodsLastWins` | measure_cocoapod_size.py:164-171 | a name's version comes from the last argument that names it |
| `Pairs.LastWinsAt` | measure_cocoapod_size.py:164-171 | the pair at a given position decides its key's value when no later pair has that key |
| `PodArgs.ParsePodsFirstOccurrenceOrder` | measure_cocoapod_size.py:164-171 | names appear in the order of their first occurrence among the arguments |
| `Podfile.FindSource` | measure_cocoapod_size.py:90-97 | finds the first entry whose `sdk` is the pod, after passing over entries for other pods; `None` when every entry is for another pod; `EntryWithoutSdk` when an entry without `sdk` comes first |
| `Podfile.PodLine` | measure_cocoapod_size.py:82-99 | the three line forms, by case: versioned; source options of the first matching entry; bare without a document. Also: no line when nothing matches, and `NoPodsKey` for a document without `pods` |
| `Podfile.PodLines` | measure_cocoapod_size.py:82-99 | at most one line per pod |
| `Podfile.PodLinesAllSucceed` | measure_cocoapod_size.py:82-99 | when no pod's line raises, the lines are the pods' lines in map order, with the pods that get no line left out |
| `Podfile.PodLinesFirstFailure` | measure_cocoapod_size.py:82-99 | otherwise writing stops with the error of the first pod whose line raises |
| `Podfile.OptionText` | measure_cocoapod_size.py:95 | computes one `:key => 'value'` option; `Podfile.AcceptedEntryOptions` states the options of an entry |
| `Podfile.OptionTexts` | measure_cocoapod_size.py:92-95 | at most one option per pair; the options are stated by `Podfile.AcceptedEntryOptions` |
| `Podfile.SourceOptions` | measure_cocoapod_size.py:96 | computes the options joined by `,`; for an accepted entry `Podfile.AcceptedEntryOptions` states the text |
| `Podfile.SourceLines` | measure_cocoapod_size.py:76-77 | one `source "<repo>"` line per repository, in order |
| `Podfile.PodfileText` | measure_cocoapod_size.py:75-100 | computes the written text; `Podfile.PodfileTextJoinsLines` and `Podfile.PodfileLayout` state it line by line |
| `Podfile.PodfileLines` | measure_cocoapod_size.py:75-100 | the layout by index: sources, blank line, `use_frameworks!` exactly in swift mode, target line, pod lines, `end` |
| `Podfile.PodfileTextJoinsLines` | measure_cocoapod_size.py:75-100 | the written text is those lines joined by newlines, so `end` has no trailing newline |
| `Podfile.PodfileLayout` | measure_cocoapod_size.py:75-100 | reading the Podfile back line by line gives exactly that layout, when no input holds a line break |
| `Podfile.OneLinePerPodWithoutSources` | measure_cocoapod_size.py:82-99 | without a document every pod gets one line, in order: with its version, or bare |
| `Podfile.ValidatedSourcesNeverFail` | measure_cocoapod_size.py:85-97 | a document that passed validation never makes the writing fail |
| `Podfile.AcceptedEntryOptions` | measure_cocoapod_size.py:92-96 | an accepted entry renders as its non-`sdk` pairs `:k => 'v'` in order, joined by `,` |
| `Podfile.UnmatchedPodOmitted` | measure_cocoapod_size.py:85-97 | an unversioned pod with no matching entry gets no line |
| `Podfile.EmptyDocumentFailsOnUnversionedPod` | measure_cocoapod_size.py:85-90 | the falsy document `{}` is not validated, and writing then fails on an unversioned pod |
| `Podfile.ExamplePodfile` | measure_cocoapod_size.py:75-100 | a concrete request in Objective-C mode yields the expected six lines |
| `BuildCommand.CreateBasicCommandArgs` | xcode_project_diff.py:61-80 | the argument list is configuration, `archive`, archive path, then `SWIFT_VERSION` only with a version, then one `name=value` per flag in order; length is 3 + pin + flags |
| `BuildCommand.HasVersion` | xcode_project_diff.py:76-77 | decides `if swift_version:`; `BuildCommand.CreateBasicCommandArgs` states what a pinned version adds |
| `BuildCommand.FlagArg` | xcode_project_diff.py:78-79 | computes one `name=value` argument; `BuildCommand.FlagArgReadsBack` states that it splits back into the flag |
| `BuildCommand.FlagArgReadsBack` | xcode_project_diff.py:78-79 | a `name=value` argument splits back into its flag at the first `=` |
| `BuildCommand.FlagsRecoverable` | xcode_project_diff.py:71-80 | every compiler flag can be read back, in order, from the tail of the argument list |
| `BuildCommand.ProjectKind` | xcode_project_diff.py:95-98 | `-workspace` exactly when the path ends with `workspace`, otherwise `-project` |
| `BuildCommand.GenerateBuildCommand` | xcode_project_diff.py:83-101 | the command ends with a space and the basic arguments joined by spaces |
| `BuildCommand.BuildCommandShape` | xcode_project_diff.py:94-100 | the command is `xcodebuild`, kind, path, `-scheme`, scheme, then the basic arguments, single spaces between |
| `BuildCommand.BuildCommandWords` | xcode_project_diff.py:94-101 | with a space-free path and scheme, the words of the command are those five, then the words of the basic arguments |
| `Archive.WalkSize` | xcode_project_diff.py:113-120 | a walk with a work list, adding each file's size, returns the tree's total |
| `Archive.TreeSizeAdditive` | xcode_project_diff.py:113-120 | the size of a directory is the sum of the sizes of two disjoint parts of it |
| `Archive.SumConcat` | xcode_project_diff.py:118 | the running total over two runs of files is the sum of both totals |
| `Archive.Child` | xcode_project_diff.py:114 | the entry found has the name asked for; none found means no entry has it |
| `Archive.GetFinalBinarySize` | xcode_project_diff.py:104-120 | 0 without an archive, without `Products/Applications`, or with a file there; otherwise the total of every file below it |
| `Archive.MeasureExamples` | xcode_project_diff.py:113-120 | files of 100, 250 and 0 bytes, one nested, measure 350; an archive without `Products` measures 0 |
| `Paths.TrimTrailingSlash` | xcode_project_diff.py:139-142 | at most one character is removed, exactly when the path ends with `/`, and the result is a prefix |
| `Paths.Basename` | xcode_project_diff.py:143-144 | the longest suffix of the path without `/` |
| `Paths.Dirname` | xcode_project_diff.py:149-150 | the directory part is a prefix of the path |
| `Paths.DirnameEmptyIff` | xcode_project_diff.py:149-152 | the directory part is empty exactly when the path has no `/` |
| `Paths.PathJoin` | measure_cocoapod_size.py:195-196 | the join ends with the second component, and an absolute second component replaces the first |
| `Paths.JoinDirnameBasename` | xcode_project_diff.py:143-150 | directory part joined with file part gives the path back, when it has no doubled slash |
| `Paths.TrailingSlashIgnored` | xcode_project_diff.py:139-150 | one trailing slash changes neither the file part nor the directory part |
| `Paths.DoubleTrailingSlashEmptyBasename` | xcode_project_diff.py:139-144 | with two trailing slashes only one is trimmed and the file part is empty |
| `Paths.BasenameAfterSlash` | xcode_project_diff.py:143-144 | the file part of `x/n` is `n` when `n` has no slash |
| `Paths.JoinedPathHasDirectory` | measure_cocoapod_size.py:195-196 | joining a directory and a relative path gives a path with a directory part and no trailing slash |
| `SizeDifference.ChangeDir` | xcode_project_diff.py:152 | changing into `''` fails; otherwise the archives are untouched, and an absolute directory becomes the current one |
| `SizeDifference.RunBuild` | xcode_project_diff.py:153 | a build touches at most the archive of the current directory: a successful one stores its archive there, a failed one changes nothing |
| `SizeDifference.MeasureHere` | xcode_project_diff.py:154 | computes the size of the archive in the current directory; `SizeDifference.SizesFromOwnBuilds` and `SizeDifference.FailedBuildWithoutArchiveMeasuresZero` state which archive is measured |
| `SizeDifference.ProjectCommand` | xcode_project_diff.py:139-148 | computes the build command for the file part of the trimmed path; `SizeDifference.CommandNamesFilePart` and `SizeDifference.CommandsShareBasicArgs` state it |
| `SizeDifference.ProjectDir` | xcode_project_diff.py:139-150 | computes the directory part of the trimmed path; `SizeDifference.BareProjectNameFails` and `SizeDifference.CommandNamesFilePart` state it |
| `SizeDifference.GenerateSizeDifference` | xcode_project_diff.py:123-160 | the run fails exactly when a trimmed project path has no directory part; on success the start directory is current again |
| `SizeDifference.SizesFromOwnBuilds` | xcode_project_diff.py:151-160 | when both builds succeed each size comes from its own archive, even in a shared directory: the source is measured before the target is built |
| `SizeDifference.FailedTargetReusesSourceArchive` | xcode_project_diff.py:151-158 | in a shared directory a failed target build is measured from the source's archive, so both sizes are equal |
| `SizeDifference.FailedBuildWithoutArchiveMeasuresZero` | xcode_project_diff.py:152-154 | a failed build in a directory without an archive measures 0 |
| `SizeDifference.BareProjectNameFails` | xcode_project_diff.py:149-152 | a project path without a directory part cannot be built |
| `SizeDifference.CommandsShareBasicArgs` | xcode_project_diff.py:138-148 | both build commands end with the same basic arguments |
| `SizeDifference.CommandNamesFilePart` | xcode_project_diff.py:143-150 | the command's project word, joined to the build directory, gives the trimmed project path back |
| `SizeDifference.Compare` | xcode_project_diff.py:185-194 | exactly one of larger, same or smaller, by the sign of `source - target`, with a positive amount that closes the gap |
| `SizeDifference.CompareSwap` | xcode_project_diff.py:185-194 | swapping the sizes swaps larger and smaller and keeps the amount |
| `SizeDifference.Report` | xcode_project_diff.py:185-194 | computes the printed comparison line; `SizeDifference.ReportStatesComparison` states it |
| `SizeDifference.ReportStatesComparison` | xcode_project_diff.py:185-194 | the printed line names the comparison's case and its positive amount, never a negative number |
| `PodSize.Sources` | measure_cocoapod_size.py:180-181 | `pod_sources` is present exactly when a document was given, and is that document decoded |
| `PodSize.SourceProjectPath` | measure_cocoapod_size.py:195-196 | computes the plain copy's project path; `PodSize.SourceIsProject` and `PodSize.ProjectPathsHaveDirectories` state it |
| `PodSize.WorkspacePath` | measure_cocoapod_size.py:104 | computes the workspace path `InstallPods` returns; `PodSize.WorkspaceFilePart` and `PodSize.TargetIsWorkspace` state it |
| `PodSize.CheckSources` | measure_cocoapod_size.py:180-182 | an absent or empty document is not validated; a non-empty one is |
| `PodSize.ExtraSize` | measure_cocoapod_size.py:207-208 | the source size plus the extra size is the target size |
| `PodSize.GetPodSizeImpact` | measure_cocoapod_size.py:147-208 | the run stops on the configuration exactly when the validator rejects the document; a completed run reports `target - source` |
| `PodSize.SampleAppNamesPlain` | measure_cocoapod_size.py:31-34 | the sample app's directory and name are non-empty; the directory has no slash at either end and the name none at all |
| `PodSize.ProjectPathsHaveDirectories` | measure_cocoapod_size.py:185-199 | both project paths handed to the size comparison have a directory part |
| `PodSize.CompletesOncePodfileWritten` | measure_cocoapod_size.py:191-208 | once the Podfile is written the run always completes, whatever the builds produce, 0 bytes included |
| `PodSize.ValidRequestCompletes` | measure_cocoapod_size.py:180-208 | without a document, or with one that validates, the run always completes |
| `PodSize.EmptyDocumentSkipsValidation` | measure_cocoapod_size.py:180-182 | `{}` is not rejected by validation; a non-empty document without `pods` is rejected with `MissingPods` |
| `PodSize.SourceIsProjectTargetIsWorkspace` | measure_cocoapod_size.py:191-199 | the plain copy is built with `-project` and the copy with pods with `-workspace` |
| `PodSize.SourceIsProject` | measure_cocoapod_size.py:195-196 | the plain copy's path ends in the `.xcodeproj` file, built with `-project` |
| `PodSize.TargetIsWorkspace` | measure_cocoapod_size.py:104 | the workspace path `InstallPods` returns is built with `-workspace` |
| `PodSize.WorkspaceFilePart` | measure_cocoapod_size.py:104 | the file part of the workspace path is `<name>.xcworkspace` |
| `PodSize.ExtraSizeMessage` | measure_cocoapod_size.py:207-208 | computes the closing line; `PodSize.ExtraSizeMessageStatesGap` states it |
| `PodSize.ExtraSizeMessageStatesGap` | measure_cocoapod_size.py:207-208 | the closing line names the extra size: the gap with a minus sign when the plain app is larger, `0` when equal, the plain gap otherwise |
| `PodSize.ExtraSizeMirrorsComparison` | measure_cocoapod_size.py:207-208 | the extra size is the comparison's amount, negated when the plain app is larger |

## Left out

- **Process execution.** `utils.shell` and every process it runs are left out: `pod init`, `pod install`, `pod ipc`, `cat`, `cp -r`, `touch`, `xcodebuild` and `xcrun`. A build is the `Toolchain` parameter. A failed or timed-out command is a build that yields nothing, as `shell` swallows the error.
- **Installing the pods.** The effect of `pod install` on the later build is folded into that same parameter.
- **File-system side effects.** `os.chdir` inside `InstallPods`, `tempfile.mkdtemp` and `CopyProject` are left out. The temporary directories and the current directory are inputs.
- **Directory changes.** Only the failure on an empty path is modelled; changing into a directory that does not exist is not. Directories are compared as strings, without normalising `.` or `..`.
- **`GetSwiftVersion`.** It is a subprocess call, and its result is the `Option<string>` input. As written it never returns a version under Python 3: `check_output` returns bytes, `out.split(' ')` raises `TypeError`, and the bare `except` turns that into `None`. So `SWIFT_VERSION=` is never appended. The `Some` case of `BuildCommand.CreateBasicCommandArgs` covers a version the code as written never delivers.
- **`GetConfigDict` and JSON decoding.** Reading and parsing the files is left out. The model assumes the build configuration file is readable; when it is not, `open` raises after the Podfile is written and the run aborts. Of the decoding, only the merging of repeated keys is modelled. JSON values that are not strings are not modelled.
- **Command-line parsing.** argparse in both `Main` functions is left out.
- **Timeouts.** The model covers runs without `--build_timeout`. `measure_cocoapod_size.py` declares the option without a `type`, so a given timeout arrives as a string. `subprocess.run` then raises `TypeError` when it adds the timeout to the clock. `shell` catches only `CalledProcessError` and `TimeoutExpired`, so the first build aborts the run.
- **`xcode_project_diff.py`'s `Main`.** It passes the undefined name `build_timeout` to `GenerateSizeDifference` and so raises `NameError` before any build. `SizeDifference.Report` and `SizeDifference.Compare` model its report lines as if it passed `args.build_timeout`.
- **The JSON report.** The branch taken with `--json` is left out, and the model covers runs without it. That branch can abort the run: when `pod ipc` fails, `shell` returns `None`, and `json.loads(None)` raises `TypeError` before the closing line is printed.
- **The advisory print.** It is output only. It appears when a configuration file is given and the last `--cocoapods` argument carries a version, since it tests the loop variable left over from the parsing loop.
- **The `ValueError` re-wrap.** Only the message changes, so the model keeps the validator's error.
- **Reading `wc -c` output.** A file's size is its `size` field. Symbolic links followed or skipped by `os.walk` are not modelled.
- Paths.Dirname: Its contract states only that the result is a prefix. Its meaning is stated by `Paths.DirnameEmptyIff` and `Paths.JoinDirnameBasename`.
- Podfile.PodLines: Its contract bounds only the number of lines. Their content is stated by `Podfile.PodLinesAllSucceed` and `Podfile.PodLinesFirstFailure`.
- BuildCommand.GenerateBuildCommand: Its contract states only the suffix. The full shape is in `BuildCommand.BuildCommandShape` and `BuildCommand.BuildCommandWords`.
- PodSize.GetPodSizeImpact: Its contract covers the validation outcome and the extra size. Completion is stated by `PodSize.CompletesOncePodfileWritten` and `PodSize.ValidRequestCompletes`.
- SizeDifference.Report and PodSize.ExtraSizeMessage: These printed lines carry no contract of their own. `SizeDifference.ReportStatesComparison` and `PodSize.ExtraSizeMessageStatesGap` state what they print.
