# file-lister: a verified model of the listing engine

`file-lister` writes a recursive listing of one or more root directories. The listing has a
header per directory, a line per file, optional per-directory subtotals (in "legacy" mode, which
imitates `dir /s`) and statistics per root. It writes to the console or into a time-stamped
output directory. In that directory, every root, and every subdirectory matching a *separate*
pattern, gets a data file of its own. Errors, warnings, statistics and the effective
configuration go to one log file per kind (`_ERRORS.txt`, `_WARNINGS.txt`, `_STATS.txt`,
`_CONFIG.json`). Subdirectories matching a *skip* pattern, junction points and the output
directory itself are not listed.

The project models the class `Lister` of `file-lister/Program.cs` and its helper
`LegacyStringComparer`:

- `legacy_comparer.dfy`: `LegacyComparer`, the priority-table string comparison, with the
  `Compare` loop as a method proved against a reference function.
- `paths.dfy`: `Paths`, the string helpers (`PathToFilename`, `HasInvalidFilenameChars`, the
  `Path.Combine`, `Trim` and `Replace` they use).
- `filesystem.dfy`, `settings.dfy`, `wrappers.dfy`: the directory tree with the exceptions its
  reads can raise, the platform services, the `Config` record, and `Option`/`Result`.
- `output.dfy`: `Output`, the output router. It holds the data-file stack with its cached
  current writer, the log registry, the console streams, the two counters, and the invariant
  they keep (`Output.Valid`).
- `traversal.dfy`: `Traversal`, `ListHelper` as a function over the tree, plus reference
  definitions for what a directory writes about itself (`OwnLines`) and what the counters
  gain (`DirTally`).
- `decisions.dfy`: `Decisions`, the order of the subdirectory decisions.
- `listing.dfy`: `Listing`, `ListRoot` and `List`.
- `lister.dfy`: `Listers.Lister`, a class with the fields of `Lister`. Its methods update
  those fields step by step, as the source does. Each method is proved to leave the fields
  exactly as the corresponding function says, so every lemma about the functions holds of
  the object.

The file system, the clock, the regular-expression engine and the console are parameters:
- the directory tree, its faults (the exceptions raised while reading it), `NormalizePath`,
  `Path.GetInvalidFileNameChars()`, the formatted start time, the current directory, the
  serialized configuration, and the paths where `Directory.CreateDirectory` or `File.Open`
  throw are fields of `FileSystem.Platform`;
- the compiled patterns are a function `isMatch(pattern, path)`;
- standard output and standard error are sequences of lines.

## Model

| member | source | states |
|---|---|---|
| LegacyComparer.Lower | file-lister/Program.cs:624-625 | no result is an ASCII upper-case letter, and every ASCII letter lands on a character of the priority table |
| LegacyComparer.LowerIdempotent | file-lister/Program.cs:624-625 | lower-casing twice is lower-casing once |
| LegacyComparer.PositionSpec | file-lister/Program.cs:596-604 | the table lookup finds the first occurrence of a character and fails (-1) exactly for characters not in the table |
| LegacyComparer.Compare | file-lister/Program.cs:606-620 | the early-exit loop over the common prefix returns the reference comparison of the two strings |
| LegacyComparer.CompareCharsZero | file-lister/Program.cs:622-641 | two characters compare as 0 iff they are equal after lower-casing |
| LegacyComparer.LettersCompareByTable | file-lister/Program.cs:622-641 | two ASCII letters that differ after lower-casing are both in the table and compare by their table positions, -1 or 1 |
| LegacyComparer.CompareCharsAntisymmetric | file-lister/Program.cs:622-641 | swapping the characters negates the comparison exactly |
| LegacyComparer.LegacyCompareAntisymmetric | file-lister/Program.cs:606-641 | swapping the strings negates the result, so its sign flips |
| LegacyComparer.LegacyCompareZero | file-lister/Program.cs:606-641 | two strings compare as 0 iff they have equal length and agree at every index after lower-casing |
| LegacyComparer.LegacyCompareReflexive | file-lister/Program.cs:606-641 | every string compares as 0 with itself |
| LegacyComparer.LegacyCompareAtFirstDifference | file-lister/Program.cs:606-641 | at the first index where the strings differ after lower-casing, the result is non-zero; it is the table order when both characters are in the table, and the order of Unicode scalar values otherwise |
| LegacyComparer.LegacyCompareOnPrefix | file-lister/Program.cs:606-620 | with no differing index up to the shorter length, the shorter string is less (-1) and equal lengths give 0 |
| Paths.IndexOfAnySpec | file-lister/Program.cs:395-398 | `IndexOfAny` finds an index iff some character of the string is in the set |
| Paths.HasInvalidFilenameCharsSpec | file-lister/Program.cs:395-398 | a listing name is refused iff one of its characters is invalid in file names |
| Paths.PathToFilenameShape | file-lister/Program.cs:466-469 | the file name always ends in ".txt", and no ':' or '\\' occurs before that suffix |
| Paths.PathToFilenameIgnoresTrailingSeparators | file-lister/Program.cs:466-469 | trailing directory separators after a trimmed path do not change its file name |
| Paths.PathToFilenameCollision | file-lister/Program.cs:466-469 | the distinct paths `x\y` and `x - y` map to the same data-file name |
| Output.ValidUniqueLogKinds | file-lister/Program.cs:535-551 | under the router invariant, no two files were ever opened for one log kind |
| Output.LogIsNotCurrent | file-lister/Program.cs:471-511 | a registered log file is never the current data writer |
| Output.WriteDataSpec | file-lister/Program.cs:454-464 | a data line is appended to exactly the current writer; the stack, the registry, stderr, the counters and every other file stay as they were, and the invariant holds |
| Output.LogToFileSpec | file-lister/Program.cs:535-551 | on the console no file changes; in file mode the kind's file is created on its first message (one new file, registered under the kind) and appended to afterwards, and every other file is untouched |
| Output.WriteLogSpec | file-lister/Program.cs:535-551 | `WriteLogOutput` logs as above and mirrors the message to standard error or standard output exactly when asked, never to both; stack, writer and counters are unchanged |
| Output.WriteErrorSpec | file-lister/Program.cs:513-516 | an error always reaches standard error exactly once and never standard output; the stack and the writer are unchanged |
| Output.PushSpec | file-lister/Program.cs:471-490 | the push succeeds iff the data file can be opened; on success exactly one open data file for the directory is added, on top of the stack, and made current; on failure the stack and writer are unchanged and one error is reported |
| Output.PopSpec | file-lister/Program.cs:492-511 | the pop reports false and changes nothing on an empty stack; otherwise it closes the top file, removes it, makes the new top (or the console) current, and no line written through a handle is lost from its record |
| Output.PushedValid | file-lister/Program.cs:471-490 | a successful push keeps the router invariant and only appends to the files list |
| Output.PopAllSpec | file-lister/Program.cs:571-576 | popping until the pop fails empties the stack, leaves the console current, keeps every line and kind, and leaves log files open |
| Output.CleanupSpec | file-lister/Program.cs:567-590 | after `Cleanup` every file is closed, the stack and registry are empty, at most one log file per kind exists, no line written through a handle is lost from its record, and on the console nothing changes |
| Output.CloseLogsSpec | file-lister/Program.cs:580-589 | with the stack empty, closing the registered log files leaves no file open |
| Traversal.OwnLinesShape | file-lister/Program.cs:242-310 | a header is written iff the directory has files or empty directories are printed outside legacy mode; it comes first; `[NO FILES]` appears only as the line right under a header, iff the header is written for a directory without files; a subtotal appears only in legacy mode, as the last line, for a directory with files, and holds the directory's own tally |
| Traversal.WriteLogPreserved | file-lister/Program.cs:535-551 | a message logged without standard output touches no data file, no current-writer line and no counter |
| Traversal.ReportSpec | file-lister/Program.cs:280-295 | a caught exception is logged without touching the current writer's lines, the stack or the counters |
| Traversal.FileStepSpec | file-lister/Program.cs:255-295 | one file adds its line (when its metadata is readable) and its tally; a file whose length fails is counted without bytes, because the count is raised before `Length` is read |
| Traversal.FilesLoopSpec | file-lister/Program.cs:253-296 | the file loop writes exactly the file lines of the directory's files and returns their count and bytes, without touching the listing counters |
| Traversal.CountersFree | file-lister/Program.cs:202-203 | resetting the counters keeps the router invariant and the written lines |
| Traversal.TotalsSpec | file-lister/Program.cs:298-304 | the directory's counts are added to the listing counters, and a subtotal line is written only in legacy mode |
| Traversal.SubtotalSpec | file-lister/Program.cs:298-304 | the legacy subtotal line carries the directory's own count and bytes and adds exactly them to the counters |
| Traversal.AfterFilesSpec | file-lister/Program.cs:253-304 | the file loop followed by the totals writes the file lines, then the subtotal in legacy mode, and counts the loop's tally |
| Traversal.BelowHeaderSpec | file-lister/Program.cs:246-309 | below the header come the file lines and the legacy subtotal, or `[NO FILES]`, and the counters gain the directory's own tally |
| Traversal.OwnListingSpec | file-lister/Program.cs:242-310 | a directory's own part writes exactly its reference lines to the current writer and counts its reference tally |
| Traversal.ListDirSpec | file-lister/Program.cs:233-393 | `ListHelper` keeps the router invariant, returns with the stack and current writer it started with, leaves the data files below the top untouched, and adds to the counters exactly the files and bytes of the directories it enters |
| Traversal.SubdirsSpec | file-lister/Program.cs:321-379 | the subdirectory loop keeps what `ListHelper` keeps and counts the tallies of the subdirectories entered |
| Traversal.VisitSpec | file-lister/Program.cs:323-378 | one subdirectory adds its tally iff it is entered (not the output directory, attributes readable, not a junction, not skipped, and its data file opens when separated) |
| Traversal.EnterSpec | file-lister/Program.cs:327-364 | the same for a subdirectory already known not to be the output directory |
| Traversal.WarnIfLinkSpec | file-lister/Program.cs:340-343 | the warning about a followed symbolic link changes no data line and no counter |
| Traversal.MarkedSpec | file-lister/Program.cs:335-348 | a header and a marker line go to the current writer; every other file, the registry, stderr and the number of files are unchanged, and so is stdout when the writer is a file |
| Traversal.ListOrSeparateSpec | file-lister/Program.cs:345-363 | the last branch keeps what `ListHelper` keeps and counts the subtree unless its separate data file cannot be opened |
| Traversal.SeparateSpec | file-lister/Program.cs:350-358 | a separated subtree leaves the stack as it was, with every data file on it untouched, and counts the subtree iff its file opens |
| Traversal.PushFailedSpec | file-lister/Program.cs:350-358 | a failed push of a separated subdirectory sends exactly two errors to standard error, the open failure with its message and then the skipped listing, nothing to standard output, and leaves the stack, the data files on it and the counters unchanged |
| Traversal.TwoErrorsKept | file-lister/Program.cs:513-516 | two errors in a row reach standard error in order and touch no data file, no standard output and no counter |
| Traversal.ListDirWritesOwnLinesFirst | file-lister/Program.cs:233-393 | into a data file, `ListHelper` appends the directory's own lines first, before anything its subdirectories add |
| Traversal.SeparatedFileSpec | file-lister/Program.cs:345-358 | a separated subdirectory whose file opens is listed into a new closed data file of its own kind and path, which begins with the subdirectory's own lines |
| Traversal.PushedSpec | file-lister/Program.cs:350-354 | push, list into the new file and pop leave the parent's stack and data files unchanged and count the subtree |
| Decisions.OwnOutputIgnored | file-lister/Program.cs:323-325 | the listing's own output directory is passed over and changes nothing |
| Decisions.JunctionNotListed | file-lister/Program.cs:329-332 | a junction point gets only a warning, whatever the skip and separate patterns say: no line in the current writer, no count, nothing on standard output or standard error, and every file other than the warnings log keeps its lines; at most one file (that log) is opened; on the console no file or log changes; in file mode the warning is the last line of the warnings log |
| Decisions.SymlinkFollowed | file-lister/Program.cs:400-405 | a reparse point that is not both hidden and system is no junction (`IsJunctionPoint`); unless skipped it is warned about and then listed or separated |
| Decisions.SkippedMarked | file-lister/Program.cs:333-337 | a skipped directory, even one that also matches a separate pattern, adds exactly its header and `[SKIPPED]` to the current writer; no file is opened, every other file keeps its lines, the registry and standard error are unchanged, and when writing to a file standard output is too; no count |
| Decisions.SeparatedMarked | file-lister/Program.cs:345-358 | in file mode a separated directory adds exactly its header and `[SEPARATED]` to the parent's data file, and afterwards the stack and writer are those of before |
| Decisions.SeparateKeepsParent | file-lister/Program.cs:345-358 | the separate branch writes only the header and marker into the parent's file |
| Decisions.SeparateAddsNothing | file-lister/Program.cs:350-358 | the separated subtree writes nothing into the parent's file and restores the stack |
| Decisions.FilesLoopIgnoresSeparate | file-lister/Program.cs:253-296 | the file loop does not depend on the separate patterns |
| Decisions.ConsoleIgnoresSeparate | file-lister/Program.cs:345 | on the console, a listing equals the same listing with no separate patterns at all |
| Decisions.SubdirsIgnoreSeparate | file-lister/Program.cs:321-379 | the same for the subdirectory loop |
| Decisions.VisitIgnoresSeparate | file-lister/Program.cs:323-365 | the same for one subdirectory |
| Listing.OutputPathSpec | file-lister/Program.cs:110-113 | `OutputPath` is empty iff the configured output is null or white space; otherwise it is the output combined with the time stamp, a space when there is a listing name, and the name |
| Listing.FileModeIffOutput | file-lister/Program.cs:553-556 | `IsOutputToFile` holds iff the configured output is not null or white space |
| Listing.PrepareSpec | file-lister/Program.cs:102-138 | the listing goes on iff the listing name has no invalid character and either no output is configured or the output directory is created and normalizes; each way of stopping reports exactly one error; `Output target` is announced for a created directory; only the console streams change |
| Listing.RootStatsSpec | file-lister/Program.cs:209-225 | legacy mode appends the heading and the root's total to the current writer; otherwise the statistics go to standard output and, in file mode, end the stats log; the counters are unchanged |
| Listing.WriteLogPreservedOut | file-lister/Program.cs:528-531 | a statistics message reaches standard output and ends its log, touching no data file |
| Listing.ListTreeSpec | file-lister/Program.cs:200-225 | counters start at zero for each root, so its statistics report exactly the files and bytes of the directories entered in that root |
| Listing.StatsTail | file-lister/Program.cs:209-225 | the statistics are the last thing the root's writer (or, outside legacy mode, standard output) holds |
| Listing.ListRootSpec | file-lister/Program.cs:186-231 | `ListRoot` keeps the invariant and returns to the console with an empty stack; a missing root is reported as a configuration error and writes nothing to standard output |
| Listing.RootPushFailedSpec | file-lister/Program.cs:194-198 | a root data file that cannot be opened is reported twice, last as the root error, and the root is skipped |
| Listing.RootFileSpec | file-lister/Program.cs:194-230 | in file mode the root is listed into a new data file of the root's kind and path, closed when the root is done, that begins with the root's own lines and ends (legacy mode) with the root's totals; the counters hold the root's tally |
| Listing.RootOwnLinesFirst | file-lister/Program.cs:200-205 | a root listed into an empty data file begins it with its own lines |
| Listing.RootConsoleSpec | file-lister/Program.cs:186-225 | on the console a root opens no file and standard output ends with its statistics, which hold the root's tally |
| Listing.RootsSelection | file-lister/Program.cs:160-174 | `Roots` lists the root, or the current directory when it is empty, if no roots array is given; otherwise each array entry in order, an empty one replaced by the current directory, and nothing for an empty array |
| Listing.EmptyRootsListNothing | file-lister/Program.cs:160-174 | an empty roots array lists nothing: after the configuration messages, standard output, standard error and the counters are unchanged |
| Listing.RootsSpec | file-lister/Program.cs:160-174 | the root loop keeps the invariant and leaves the console current with an empty stack |
| Listing.ListAllSpec | file-lister/Program.cs:140-175 | from a fresh lister, the listing up to the cleanup keeps the invariant, empties the stack, and no log file is empty |
| Listing.ListSpec | file-lister/Program.cs:100-184 | a listing that gets past its preparation ends with every file closed, at most one log file per kind, no empty log file, and, on the console, no file at all |
| Listers.Lister.constructor | file-lister/Program.cs:80-94 | a new lister has no writer, no output path, no stack, no registry and zero counters |
| Listers.Lister.MatchesAny | file-lister/Program.cs:438-452 | the answer is true iff the pattern array is non-null and some pattern matches |
| Listers.Lister.SkipDir | file-lister/Program.cs:428-431 | true iff some skip pattern matches |
| Listers.Lister.SeparateDir | file-lister/Program.cs:433-436 | true iff some separate pattern matches |
| Listers.Lister.WriteLine | file-lister/Program.cs:256-308 | the fields become those of writing the line to the current writer |
| Listers.Lister.WriteDirHeader | file-lister/Program.cs:454-464 | the fields become those of writing the mode's header to the current writer |
| Listers.Lister.WriteLogOutput | file-lister/Program.cs:535-551 | the fields become those `Output.WriteLog` gives, whose properties `Output.WriteLogSpec` states |
| Listers.Lister.WriteError | file-lister/Program.cs:513-516 | as `WriteLogOutput` into the errors log with standard error |
| Listers.Lister.WriteWarning | file-lister/Program.cs:518-521 | as `WriteLogOutput` into the warnings log only |
| Listers.Lister.WriteConfig | file-lister/Program.cs:523-526 | as `WriteLogOutput` into the configuration log only |
| Listers.Lister.WriteStats | file-lister/Program.cs:528-531 | as `WriteLogOutput` into the statistics log with standard output |
| Listers.Lister.Report | file-lister/Program.cs:280-295 | a caught exception is logged as a warning or an error by its class and site |
| Listers.Lister.PushDataFileOutput | file-lister/Program.cs:471-490 | result and fields are those of `Output.Push`, whose properties `Output.PushSpec` states |
| Listers.Lister.PopDataFileOutput | file-lister/Program.cs:492-511 | result and fields are those of `Output.Pop`, whose properties `Output.PopSpec` states |
| Listers.Lister.Cleanup | file-lister/Program.cs:567-590 | the fields become those of `Output.Cleanup`, whose properties `Output.CleanupSpec` states |
| Listers.Lister.CloseLogFiles | file-lister/Program.cs:580-589 | exactly the registered log files are closed |
| Listers.Lister.ListHelper | file-lister/Program.cs:233-393 | the fields become those of `Traversal.ListDir`, whose properties `Traversal.ListDirSpec` states |
| Listers.Lister.ListOwnFiles | file-lister/Program.cs:242-310 | the fields become those of the directory's own part, whose lines `Traversal.OwnListingSpec` states |
| Listers.Lister.ListFiles | file-lister/Program.cs:248-296 | the returned counts and the fields are those of the file loop, which `Traversal.FilesLoopSpec` ties to the reference lines and tally |
| Listers.Lister.ListFile | file-lister/Program.cs:255-295 | the counts and fields are those of one file step, including the count raised before the length is read |
| Listers.Lister.ListSubdir | file-lister/Program.cs:323-378 | the fields become those of one subdirectory step, in the decision order of `Decisions` |
| Listers.Lister.ListOrSeparateSubdir | file-lister/Program.cs:345-363 | the fields become those of the separate-or-recurse branch |
| Listers.Lister.ListRoot | file-lister/Program.cs:186-231 | the fields become those of `Listing.ListRoot`, whose properties `Listing.ListRootSpec` states |
| Listers.Lister.WriteRootStats | file-lister/Program.cs:209-225 | the fields become those of the statistics step |
| Listers.Lister.List | file-lister/Program.cs:100-184 | the fields and the output paths become those of `Listing.List`, whose properties `Listing.ListSpec` states |
| Listers.Lister.PrepareListing | file-lister/Program.cs:102-138 | the outcome, output path and normalized path are those of `Listing.Prepare`, whose properties `Listing.PrepareSpec` states |
| Listers.Lister.ListRoots | file-lister/Program.cs:140-175 | the fields become those of the writer reset, the two configuration messages and the root loop |
| Listers.Lister.ListEachRoot | file-lister/Program.cs:160-174 | the fields become those of listing each root in order, with a dashed line between roots on the console |

## Left out

- `Array.Sort` of files and subdirectories: the tree supplies entries in listing order. Outside legacy mode the order depends on the culture. In legacy mode the subdirectories are sorted with `LegacyStringComparer`, but `LegacyComparer.LegacyCompare` is never tied to the traversal order; since no transitivity is claimed for it, the sorted order could depend on the sort algorithm.
- `Paths.Trim` and `Paths.IsNullOrWhiteSpace` treat only the Latin-1 white-space characters as white space; `char.IsWhiteSpace` also accepts U+1680, U+2000 to U+200A, U+2028, U+2029, U+202F, U+205F and U+3000. An output of "\u3000" therefore means the console in the source (file-lister/Program.cs:111) but file mode in the model.
- `Output.Push`: the open faults are a fixed map from paths to messages, so a data file that collides with one still open is not modelled. This covers a sharing violation (a relative root `_ERRORS` while `_ERRORS.txt` is open) and the truncation when one path is opened twice (the same root listed twice; the `x\y` and `x - y` pair of `Paths.PathToFilenameCollision`). Each file record keeps what was written through its handle, not what ends up on disk.
- `char.ToLower` is modelled on ASCII letters only; culture-specific case mappings are not modelled.
- `LegacyComparer.LegacyCompare` compares strings of Unicode scalar values, whereas .NET strings are sequences of UTF-16 code units. Its fallback to `char.CompareTo` (file-lister/Program.cs:640) therefore subtracts scalar values, not code units. A supplementary character (such as U+1F600, stored as D83D DE00) compared with a character in U+E000 to U+FFFF gets the opposite sign from the source. Lone surrogates, which file names may contain, cannot be represented at all.
- The regular-expression engine: compiled patterns are an uninterpreted `isMatch`. A pattern that fails to compile, in the constructor, is not modelled.
- `N0` number formatting, date formatting and the statistics block's column widths: such lines keep their fields (`Line.FileLine`, `Line.FileTotal`, `Line.Stats`) instead of their text.
- The `Stopwatch` timing and the UTC offset: the elapsed time is not part of `Line.Stats`.
- Creating a log file is assumed to succeed. In the source, its exception would escape the catch blocks.
- Exceptions from `Flush` and `Close`, and from the JSON serialization of the configuration (which the source swallows), are not modelled.
- The counters are unbounded naturals; the wrap-around of `ulong`/`long` is not modelled.
- The internals of `FileOutput` and of the console writers are not modelled: a file is the list of lines written to it.
- `Main` and `App.Start` (argument handling, loading of the configuration file) are not part of this model.
- The outer `LISTING ERROR` catch of `List` is not modelled; no modelled operation throws there.
- `Path.Combine` throwing on invalid characters is not modelled.
- `NormalizePath` is a platform function that may fail, not a model of `Uri` and `GetFullPath`.
- A directory's path is assumed to equal the key it is found under in `Platform.trees`.
- A null data stack and a null log registry are modelled as empty. `Listing.ListAll` resets both on every listing; the source allocates them only in file mode, where they are also the only ones used.
- `Listers.Lister.CloseLogFiles` closes the log files in an arbitrary key order; the set of files closed is what is stated.
- `LegacyComparer.LegacyCompare`: no transitivity is claimed for the comparator.
