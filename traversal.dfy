/**
 * The traversal of `ListHelper`: per directory, its header and file lines (or `[NO FILES]`),
 * its subtotal in legacy mode, then each subdirectory in order, ignored, skipped, separated
 * into a data file of its own, or recursed into.
 */
module Traversal {
  import opened Wrappers
  import opened FileSystem
  import opened Output
  import opened Settings

  /** What `ListHelper` reads and never changes: the configuration, the compiled patterns, the platform, the output directory. */
  datatype Ctx = Ctx(
    cfg: Config,
    isMatch: (string, string) -> bool,     // Regex(pattern, IgnoreCase | ECMAScript).IsMatch(path)
    os: Platform,
    outputPath: string,                     // _listingOutputPath
    outputNormalized: Option<string>)      // _listingOutputPathNormalized

  function Env(ctx: Ctx): OutEnv
  {
    OutEnv(ctx.outputPath, ctx.os.openFaults)
  }

  predicate ToFiles(ctx: Ctx)
  {
    IsOutputToFile(Env(ctx))
  }

  /** What `MatchesAny` answers: some pattern of a non-null pattern array matches `s`. */
  predicate AnyMatches(s: string, patterns: Option<seq<string>>, isMatch: (string, string) -> bool)
  {
    patterns.Some? && exists i :: 0 <= i < |patterns.value| && isMatch(patterns.value[i], s)
  }

  /** The condition at `file-lister/Program.cs:242`: a header is written when there are files, or empty directories are printed outside legacy mode. */
  predicate ShowsHeader(cfg: Config, d: Dir)
  {
    (cfg.printEmptyDirs && !cfg.legacy) || |d.files| > 0
  }

  /** A catch block: the exception's message as a warning or an error, by class and site. */
  function Report(ctx: Ctx, st: State, f: Fault, site: Site): State
  {
    if IsWarning(site, f.kind) then WriteWarning(Env(ctx), st, f.message) else WriteError(Env(ctx), st, f.message)
  }

  /** The state together with the loop variables `dirFileCount` and `dirByteCount`. */
  datatype Acc = Acc(st: State, count: nat, bytes: nat)

  /**
   * One iteration of the file loop. The count is raised before `fi.Length` is read, so a file
   * whose length cannot be read is counted without bytes.
   */
  function FileStep(ctx: Ctx, a: Acc, f: FileEntry): Acc
  {
    match f.info
    case InfoFault(e) => a.(st := Report(ctx, a.st, e, AtFile))
    case LengthFault(e) => Acc(Report(ctx, a.st, e, AtFile), a.count + 1, a.bytes)
    case Info(len, reparse, stamp) =>
      var size := if reparse then SymlinkMarker else Bytes(len);
      Acc(WriteData(a.st, FileLine(ctx.cfg.legacy, stamp, size, f.name)), a.count + 1, a.bytes + len)
  }

  /** The file loop run over `files`. */
  function FilesLoop(ctx: Ctx, st: State, files: seq<FileEntry>): Acc
  {
    if files == [] then Acc(st, 0, 0)
    else FileStep(ctx, FilesLoop(ctx, st, files[..|files| - 1]), files[|files| - 1])
  }

  /** `file-lister/Program.cs:242-310`: the directory's own header, file lines, subtotal or `[NO FILES]`. */
  function OwnListing(ctx: Ctx, st: State, d: Dir): State
  {
    if !ShowsHeader(ctx.cfg, d) then st
    else
      var st1 := WriteData(st, DirHeader(ctx.cfg.legacy, d.path));
      if |d.files| > 0 then
        var a := FilesLoop(ctx, st1, d.files);
        WithTotals(ctx.cfg, a.st, a.count, a.bytes)
      else WriteData(st1, NoFiles)
  }

  /** After the file loop: the directory's counts join the listing's, and legacy mode writes the subtotal. */
  function WithTotals(cfg: Config, st: State, count: nat, bytes: nat): State
  {
    var st1 := st.(fileCount := st.fileCount + count, byteCount := st.byteCount + bytes);
    if cfg.legacy then WriteData(st1, FileTotal(count, bytes)) else st1
  }

  /** `ListHelper(d.path)`. */
  function ListDir(ctx: Ctx, st: State, d: Dir): State
    decreases d, 1, 0
  {
    match d.listFault
    case Some(e) => Report(ctx, st, e, AtListing)
    case None => SubdirsUpTo(ctx, OwnListing(ctx, st, d), d, |d.subdirs|)
  }

  /** The subdirectory loop of `ListHelper(d.path)` after its first `k` iterations. */
  function SubdirsUpTo(ctx: Ctx, st: State, d: Dir, k: nat): State
    requires k <= |d.subdirs|
    decreases d, 0, k
  {
    if k == 0 then st else VisitSubdir(ctx, SubdirsUpTo(ctx, st, d, k - 1), d.subdirs[k - 1])
  }

  /** One iteration of the subdirectory loop: the listing's own output directory is disregarded. */
  function VisitSubdir(ctx: Ctx, st: State, s: Dir): State
    decreases s, 3, 0
  {
    match ctx.outputNormalized
    case None => EnterSubdir(ctx, st, s)
    case Some(out) =>
      match ctx.os.normalize(s.path)
      case Failure(e) => Report(ctx, st, e, AtSubdir)
      case Success(n) => if n == out then st else EnterSubdir(ctx, st, s)
  }

  /** A subdirectory that is not the output directory: junction, skip, separate, or recurse. */
  function EnterSubdir(ctx: Ctx, st: State, s: Dir): State
    decreases s, 2, 0
  {
    match s.attrs
    case Failure(e) => Report(ctx, st, e, AtSubdir)
    case Success(a) =>
      if IsJunctionPoint(a) then WriteWarning(Env(ctx), st, "Skipping junction point \"" + s.path + "\"")
      else if AnyMatches(s.path, ctx.cfg.skipDirs, ctx.isMatch) then Marked(ctx.cfg, st, s.path, Skipped)
      else ListOrSeparate(ctx, WarnIfLink(ctx, st, s.path, a.reparsePoint), s)
  }

  /** The warning about a directory symbolic link that is followed. */
  function WarnIfLink(ctx: Ctx, st: State, dir: string, reparse: bool): State
  {
    if reparse then WriteWarning(Env(ctx), st, "Unskipped directory symbolic link encountered: \"" + dir + "\"") else st
  }

  /** `WriteDirHeader(dir)` followed by a marker line. */
  function Marked(cfg: Config, st: State, dir: string, marker: Line): State
  {
    WriteData(WriteData(st, DirHeader(cfg.legacy, dir)), marker)
  }

  /** A subdirectory that is neither a junction nor skipped: separated in file mode, or listed into the same writer. */
  function ListOrSeparate(ctx: Ctx, st: State, s: Dir): State
    decreases s, 1, 3
  {
    if ToFiles(ctx) && AnyMatches(s.path, ctx.cfg.separateDirs, ctx.isMatch) then
      Separate(ctx, Marked(ctx.cfg, st, s.path, Separated), s)
    else ListDir(ctx, st, s)
  }

  /** Push the subdirectory's data file, list the subdirectory into it, pop; or log that the push failed. */
  function Separate(ctx: Ctx, st: State, s: Dir): State
    requires ToFiles(ctx)
    decreases s, 1, 2
  {
    var (ok, st1) := Push(Env(ctx), st, s.path);
    if ok then Pop(ListDir(ctx, st1, s)).1
    else WriteError(Env(ctx), st1, "ERROR pushing output file. Skipping listing for \"" + s.path + "\".")
  }

  // ---------------------------------------------------------------------------
  // Reference definitions: which directories are entered, what they add up to, what a directory writes

  /** The subdirectory is not the listing's own output directory (and its path could be normalized). */
  predicate NotOwnOutput(ctx: Ctx, s: Dir)
  {
    ctx.outputNormalized.Some? ==>
      ctx.os.normalize(s.path).Success? && ctx.os.normalize(s.path).value != ctx.outputNormalized.value
  }

  /** Whether the loop recurses into subdirectory `s`. */
  predicate Entered(ctx: Ctx, s: Dir)
  {
    && NotOwnOutput(ctx, s)
    && s.attrs.Success?
    && !IsJunctionPoint(s.attrs.value)
    && !AnyMatches(s.path, ctx.cfg.skipDirs, ctx.isMatch)
    && (ToFiles(ctx) && AnyMatches(s.path, ctx.cfg.separateDirs, ctx.isMatch) ==>
          DataFilePath(Env(ctx), s.path) !in ctx.os.openFaults)
  }

  datatype Tally = Tally(files: nat, bytes: nat)

  function Plus(x: Tally, y: Tally): Tally
  {
    Tally(x.files + y.files, x.bytes + y.bytes)
  }

  /** What one file contributes: a count for every file whose `FileInfo` could be made, and its length when that could be read. */
  function EntryTally(f: FileEntry): Tally
  {
    match f.info
    case InfoFault(_) => Tally(0, 0)
    case LengthFault(_) => Tally(1, 0)
    case Info(len, _, _) => Tally(1, len)
  }

  /** Files counted in a directory and their bytes. */
  function OwnTally(files: seq<FileEntry>): Tally
  {
    if files == [] then Tally(0, 0) else Plus(OwnTally(files[..|files| - 1]), EntryTally(files[|files| - 1]))
  }

  /** What the counters gain for a directory: its own files and those of every subdirectory entered. */
  function DirTally(ctx: Ctx, d: Dir): Tally
    decreases d, 1
  {
    if d.listFault.Some? then Tally(0, 0)
    else Plus(OwnTally(d.files), SubTallyUpTo(ctx, d, |d.subdirs|))
  }

  function SubTallyUpTo(ctx: Ctx, d: Dir, k: nat): Tally
    requires k <= |d.subdirs|
    decreases d, 0, k
  {
    if k == 0 then Tally(0, 0)
    else
      var s := d.subdirs[k - 1];
      Plus(SubTallyUpTo(ctx, d, k - 1), if Entered(ctx, s) then DirTally(ctx, s) else Tally(0, 0))
  }

  /** The line of one file, if its metadata could be read. */
  function EntryLines(legacy: bool, f: FileEntry): seq<Line>
  {
    match f.info
    case Info(len, reparse, stamp) => [FileLine(legacy, stamp, if reparse then SymlinkMarker else Bytes(len), f.name)]
    case _ => []
  }

  /** The file lines of a directory. */
  function FileLines(legacy: bool, files: seq<FileEntry>): seq<Line>
  {
    if files == [] then [] else FileLines(legacy, files[..|files| - 1]) + EntryLines(legacy, files[|files| - 1])
  }

  /** The lines a directory writes about itself to the current writer. */
  function OwnLines(cfg: Config, d: Dir): seq<Line>
  {
    if !ShowsHeader(cfg, d) then []
    else
      [DirHeader(cfg.legacy, d.path)] + FileLines(cfg.legacy, d.files) +
        if |d.files| > 0 then
          (if cfg.legacy then [FileTotal(OwnTally(d.files).files, OwnTally(d.files).bytes)] else [])
        else [NoFiles]
  }

  // ---------------------------------------------------------------------------
  // Properties of a directory's own lines

  lemma {:induction false} FileLinesAreFileLines(legacy: bool, files: seq<FileEntry>)
    ensures forall i :: 0 <= i < |FileLines(legacy, files)| ==> FileLines(legacy, files)[i].FileLine?
  {
    if files != [] {
      FileLinesAreFileLines(legacy, files[..|files| - 1]);
    }
  }

  /**
   * A header is written iff the directory has files or empty directories are printed outside
   * legacy mode; `[NO FILES]` appears only right under a header, for a directory without files;
   * a subtotal appears only in legacy mode, as the last line, for a directory with files.
   */
  lemma OwnLinesShape(cfg: Config, d: Dir)
    ensures var ls := OwnLines(cfg, d);
      && (DirHeader(cfg.legacy, d.path) in ls <==> (|d.files| > 0 || (cfg.printEmptyDirs && !cfg.legacy)))
      && (ls != [] ==> ls[0] == DirHeader(cfg.legacy, d.path))
      && (forall i :: 0 <= i < |ls| && ls[i] == NoFiles ==> i == 1 && ls[0].DirHeader? && |d.files| == 0)
      && (NoFiles in ls <==> ShowsHeader(cfg, d) && |d.files| == 0)
      && (forall i :: 0 <= i < |ls| && ls[i].FileTotal? ==> cfg.legacy && |d.files| > 0 && i == |ls| - 1)
      && (cfg.legacy && |d.files| > 0 ==> ls[|ls| - 1] == FileTotal(OwnTally(d.files).files, OwnTally(d.files).bytes))
  {
    var ls := OwnLines(cfg, d);
    var fl := FileLines(cfg.legacy, d.files);
    FileLinesAreFileLines(cfg.legacy, d.files);
    if ShowsHeader(cfg, d) {
      assert ls[0] == DirHeader(cfg.legacy, d.path);
      forall i | 0 <= i < |ls| && ls[i] == NoFiles ensures i == 1 && |d.files| == 0 {
      }
      forall i | 0 <= i < |ls| && ls[i].FileTotal? ensures cfg.legacy && |d.files| > 0 && i == |ls| - 1 {
      }
      if |d.files| == 0 {
        assert ls[1] == NoFiles;
      }
    }
  }

  // ---------------------------------------------------------------------------
  // The traversal keeps the router's invariant, restores the stack and adds up the counters

  /** The data files on the stack from index 0 up to (not including) `n` are as they were. */
  ghost predicate StackFilesKept(st: State, r: State, n: int)
  {
    forall i :: 0 <= i < n && i < |st.data| ==>
      st.data[i] < |st.files| && st.data[i] < |r.files| && r.files[st.data[i]] == st.files[st.data[i]]
  }

  /**
   * What every step of the traversal keeps: the invariant, the stack, every file's path, kind
   * and lines so far, the data files below the top, and, unless the current writer is the
   * console, standard output.
   */
  ghost predicate Preserved(ctx: Ctx, st: State, r: State)
  {
    match st
    case State(files, data, current, _, out, _, _, _) =>
      && Valid(Env(ctx), r)
      && r.data == data && r.current == current
      && Extends(files, r.files)
      && StackFilesKept(st, r, |data| - 1)
      && (current != ConsoleOut ==> r.out == out)
  }

  ghost predicate Counted(st: State, r: State, t: Tally)
  {
    r.fileCount == st.fileCount + t.files && r.byteCount == st.byteCount + t.bytes
  }

  lemma PreservedTrans(ctx: Ctx, s1: State, s2: State, s3: State)
    requires Preserved(ctx, s1, s2) && Preserved(ctx, s2, s3)
    ensures Preserved(ctx, s1, s3)
  {
    ExtendsTrans(s1.files, s2.files, s3.files);
  }

  /** A log message touches no data file and, in file mode, not the console's standard output. */
  lemma WriteLogPreserved(ctx: Ctx, st: State, msg: Line, name: string, alt: Alt)
    requires Valid(Env(ctx), st) && alt != ToStdOut
    ensures var r := WriteLog(Env(ctx), st, msg, name, alt);
      && Preserved(ctx, st, r) && Counted(st, r, Tally(0, 0))
      && StackFilesKept(st, r, |st.data|)
      && Lines(r, st.current) == Lines(st, st.current)
      && r.out == st.out
  {
    var env := Env(ctx);
    WriteLogSpec(env, st, msg, name, alt);
    var r := WriteLog(env, st, msg, name, alt);
    forall i | 0 <= i < |st.data|
      ensures st.data[i] < |st.files| && st.data[i] < |r.files| && r.files[st.data[i]] == st.files[st.data[i]]
    {
      assert st.files[st.data[i]].kind.DataFile?;
    }
    if name in st.logs {
      LogIsNotCurrent(env, st, name);
    }
  }

  /** A caught fault goes to a log and leaves the current writer's lines alone. */
  lemma ReportSpec(ctx: Ctx, st: State, f: Fault, site: Site)
    requires Valid(Env(ctx), st)
    ensures var r := Report(ctx, st, f, site);
      && Preserved(ctx, st, r) && Counted(st, r, Tally(0, 0))
      && Lines(r, st.current) == Lines(st, st.current)
  {
    if IsWarning(site, f.kind) {
      WriteLogPreserved(ctx, st, Msg(f.message), WarningsFile, NoAlt);
    } else {
      WriteLogPreserved(ctx, st, Msg(f.message), ErrorsFile, ToStdErr);
    }
  }

  lemma WriteDataPreserved(ctx: Ctx, st: State, line: Line)
    requires Valid(Env(ctx), st)
    ensures var r := WriteData(st, line);
      && Preserved(ctx, st, r) && Counted(st, r, Tally(0, 0))
      && Lines(r, st.current) == Lines(st, st.current) + [line]
  {
    WriteDataSpec(Env(ctx), st, line);
  }

  /** One iteration of the file loop. */
  lemma FileStepSpec(ctx: Ctx, a: Acc, f: FileEntry)
    requires Valid(Env(ctx), a.st)
    ensures var r := FileStep(ctx, a, f);
      && Preserved(ctx, a.st, r.st) && Counted(a.st, r.st, Tally(0, 0))
      && Tally(r.count, r.bytes) == Plus(Tally(a.count, a.bytes), EntryTally(f))
      && Lines(r.st, a.st.current) == Lines(a.st, a.st.current) + EntryLines(ctx.cfg.legacy, f)
  {
    match f.info
    case InfoFault(e) => ReportSpec(ctx, a.st, e, AtFile);
    case LengthFault(e) => ReportSpec(ctx, a.st, e, AtFile);
    case Info(len, reparse, stamp) =>
      WriteDataPreserved(ctx, a.st, FileLine(ctx.cfg.legacy, stamp, if reparse then SymlinkMarker else Bytes(len), f.name));
  }

  /** The file loop counts `OwnTally` and writes `FileLines` to the current writer. */
  lemma {:induction false} FilesLoopSpec(ctx: Ctx, st: State, files: seq<FileEntry>)
    requires Valid(Env(ctx), st)
    ensures var a := FilesLoop(ctx, st, files);
      && Preserved(ctx, st, a.st) && Counted(st, a.st, Tally(0, 0))
      && Tally(a.count, a.bytes) == OwnTally(files)
      && Lines(a.st, st.current) == Lines(st, st.current) + FileLines(ctx.cfg.legacy, files)
  {
    if files != [] {
      var init := files[..|files| - 1];
      FilesLoopSpec(ctx, st, init);
      var a := FilesLoop(ctx, st, init);
      FileStepSpec(ctx, a, files[|files| - 1]);
      PreservedTrans(ctx, st, a.st, FilesLoop(ctx, st, files).st);
    }
  }

  /** The counters are not part of the router's invariant. */
  lemma CountersFree(ctx: Ctx, st: State, c: nat, b: nat)
    requires Valid(Env(ctx), st)
    ensures var r := st.(fileCount := c, byteCount := b);
      Preserved(ctx, st, r) && Lines(r, st.current) == Lines(st, st.current)
  {
    var r := st.(fileCount := c, byteCount := b);
    assert StackOk(r) && RegistryOk(Env(ctx), r) && Accounted(Env(ctx), r);
  }

  lemma TotalsSpec(ctx: Ctx, x: State, c: nat, b: nat)
    requires Valid(Env(ctx), x)
    ensures var r := WithTotals(ctx.cfg, x, c, b);
      && Preserved(ctx, x, r) && Counted(x, r, Tally(c, b))
      && Lines(r, x.current) == Lines(x, x.current) + (if ctx.cfg.legacy then [FileTotal(c, b)] else [])
  {
    var st2 := x.(fileCount := x.fileCount + c, byteCount := x.byteCount + b);
    if ctx.cfg.legacy {
      SubtotalSpec(ctx, x, c, b);
      assert WithTotals(ctx.cfg, x, c, b) == WriteData(st2, FileTotal(c, b));
    } else {
      CountersFree(ctx, x, x.fileCount + c, x.byteCount + b);
      assert WithTotals(ctx.cfg, x, c, b) == st2;
    }
  }

  lemma SubtotalSpec(ctx: Ctx, x: State, c: nat, b: nat)
    requires Valid(Env(ctx), x)
    ensures var st2 := x.(fileCount := x.fileCount + c, byteCount := x.byteCount + b);
      var r := WriteData(st2, FileTotal(c, b));
      && Preserved(ctx, x, r) && Counted(x, r, Tally(c, b))
      && Lines(r, x.current) == Lines(x, x.current) + [FileTotal(c, b)]
  {
    var st2 := x.(fileCount := x.fileCount + c, byteCount := x.byteCount + b);
    CountersFree(ctx, x, x.fileCount + c, x.byteCount + b);
    WriteDataPreserved(ctx, st2, FileTotal(c, b));
    PreservedTrans(ctx, x, st2, WriteData(st2, FileTotal(c, b)));
  }

  /** The file loop followed by the totals, on any loop result that the loop's lemma describes. */
  lemma AfterFilesSpec(ctx: Ctx, st: State, a: Acc, t: Tally, ls: seq<Line>)
    requires Valid(Env(ctx), st)
    requires Preserved(ctx, st, a.st) && Counted(st, a.st, Tally(0, 0)) && Tally(a.count, a.bytes) == t
    requires Lines(a.st, st.current) == Lines(st, st.current) + ls
    ensures var r := WithTotals(ctx.cfg, a.st, a.count, a.bytes);
      && Preserved(ctx, st, r) && Counted(st, r, t)
      && Lines(r, st.current) == Lines(st, st.current) + ls + (if ctx.cfg.legacy then [FileTotal(t.files, t.bytes)] else [])
  {
    TotalsSpec(ctx, a.st, a.count, a.bytes);
    PreservedTrans(ctx, st, a.st, WithTotals(ctx.cfg, a.st, a.count, a.bytes));
  }

  /** A directory's own part writes exactly `OwnLines` to the current writer and counts `OwnTally`. */
  lemma OwnListingSpec(ctx: Ctx, st: State, d: Dir)
    requires Valid(Env(ctx), st)
    ensures var r := OwnListing(ctx, st, d);
      && Preserved(ctx, st, r) && Counted(st, r, OwnTally(d.files))
      && Lines(r, st.current) == Lines(st, st.current) + OwnLines(ctx.cfg, d)
  {
    if ShowsHeader(ctx.cfg, d) {
      var h := DirHeader(ctx.cfg.legacy, d.path);
      var st1 := WriteData(st, h);
      WriteDataPreserved(ctx, st, h);
      var tail := if |d.files| > 0 then
          (if ctx.cfg.legacy then [FileTotal(OwnTally(d.files).files, OwnTally(d.files).bytes)] else [])
        else [NoFiles];
      BelowHeaderSpec(ctx, st1, d);
      PreservedTrans(ctx, st, st1, OwnListing(ctx, st, d));
      Concat4(Lines(st, st.current), [h], FileLines(ctx.cfg.legacy, d.files), tail);
    }
  }

  /** Regrouping a concatenation of four pieces, kept apart so that proofs using it stay small. */
  lemma Concat4(a: seq<Line>, b: seq<Line>, c: seq<Line>, d: seq<Line>)
    ensures a + b + c + d == a + (b + c + d)
  {
  }

  /** What follows the header: the file lines and the subtotal, or `[NO FILES]`. */
  lemma BelowHeaderSpec(ctx: Ctx, st: State, d: Dir)
    requires Valid(Env(ctx), st)
    ensures var r := if |d.files| > 0 then
        var a := FilesLoop(ctx, st, d.files); WithTotals(ctx.cfg, a.st, a.count, a.bytes)
      else WriteData(st, NoFiles);
      && Preserved(ctx, st, r) && Counted(st, r, OwnTally(d.files))
      && Lines(r, st.current) == Lines(st, st.current) + FileLines(ctx.cfg.legacy, d.files) +
           if |d.files| > 0 then
             (if ctx.cfg.legacy then [FileTotal(OwnTally(d.files).files, OwnTally(d.files).bytes)] else [])
           else [NoFiles]
  {
    if |d.files| > 0 {
      FilesLoopSpec(ctx, st, d.files);
      AfterFilesSpec(ctx, st, FilesLoop(ctx, st, d.files), OwnTally(d.files), FileLines(ctx.cfg.legacy, d.files));
    } else {
      WriteDataPreserved(ctx, st, NoFiles);
      assert FileLines(ctx.cfg.legacy, d.files) == [];
    }
  }


  /**
   * `ListHelper` keeps the router's invariant, returns with the same stack and current writer it
   * was called with, leaves the data files below the top untouched, and adds to the counters
   * exactly what the directories it enters hold.
   */
  lemma {:induction false} ListDirSpec(ctx: Ctx, st: State, d: Dir)
    requires Valid(Env(ctx), st)
    ensures var r := ListDir(ctx, st, d); Preserved(ctx, st, r) && Counted(st, r, DirTally(ctx, d))
    decreases d, 1, 0
  {
    match d.listFault
    case Some(e) => ReportSpec(ctx, st, e, AtListing);
    case None =>
      OwnListingSpec(ctx, st, d);
      var st1 := OwnListing(ctx, st, d);
      SubdirsSpec(ctx, st1, d, |d.subdirs|);
      PreservedTrans(ctx, st, st1, ListDir(ctx, st, d));
  }

  lemma {:induction false} SubdirsSpec(ctx: Ctx, st: State, d: Dir, k: nat)
    requires k <= |d.subdirs| && Valid(Env(ctx), st)
    ensures var r := SubdirsUpTo(ctx, st, d, k); Preserved(ctx, st, r) && Counted(st, r, SubTallyUpTo(ctx, d, k))
    decreases d, 0, k
  {
    if k > 0 {
      SubdirsSpec(ctx, st, d, k - 1);
      var st1 := SubdirsUpTo(ctx, st, d, k - 1);
      VisitSpec(ctx, st1, d.subdirs[k - 1]);
      PreservedTrans(ctx, st, st1, SubdirsUpTo(ctx, st, d, k));
    }
  }

  lemma {:induction false} VisitSpec(ctx: Ctx, st: State, s: Dir)
    requires Valid(Env(ctx), st)
    ensures var r := VisitSubdir(ctx, st, s);
      Preserved(ctx, st, r) && Counted(st, r, if Entered(ctx, s) then DirTally(ctx, s) else Tally(0, 0))
    decreases s, 3, 0
  {
    match ctx.outputNormalized
    case None => EnterSpec(ctx, st, s);
    case Some(out) =>
      match ctx.os.normalize(s.path)
      case Failure(e) => ReportSpec(ctx, st, e, AtSubdir);
      case Success(n) =>
        if n != out {
          EnterSpec(ctx, st, s);
        }
  }

  lemma {:induction false} EnterSpec(ctx: Ctx, st: State, s: Dir)
    requires Valid(Env(ctx), st)
    requires NotOwnOutput(ctx, s)
    ensures var r := EnterSubdir(ctx, st, s);
      Preserved(ctx, st, r) && Counted(st, r, if Entered(ctx, s) then DirTally(ctx, s) else Tally(0, 0))
    decreases s, 2, 0
  {
    match s.attrs
    case Failure(e) => ReportSpec(ctx, st, e, AtSubdir);
    case Success(a) =>
      if IsJunctionPoint(a) {
        WriteLogPreserved(ctx, st, Msg("Skipping junction point \"" + s.path + "\""), WarningsFile, NoAlt);
      } else if AnyMatches(s.path, ctx.cfg.skipDirs, ctx.isMatch) {
        MarkedSpec(ctx, st, s.path, Skipped);
      } else {
        var st1 := WarnIfLink(ctx, st, s.path, a.reparsePoint);
        WarnIfLinkSpec(ctx, st, s.path, a.reparsePoint);
        ListOrSeparateSpec(ctx, st1, s);
        PreservedTrans(ctx, st, st1, ListOrSeparate(ctx, st1, s));
      }
  }

  lemma WarnIfLinkSpec(ctx: Ctx, st: State, dir: string, reparse: bool)
    requires Valid(Env(ctx), st)
    ensures var r := WarnIfLink(ctx, st, dir, reparse);
      Preserved(ctx, st, r) && Counted(st, r, Tally(0, 0)) && Lines(r, st.current) == Lines(st, st.current)
  {
    if reparse {
      WriteLogPreserved(ctx, st, Msg("Unskipped directory symbolic link encountered: \"" + dir + "\""), WarningsFile, NoAlt);
    } else {
      CountersFree(ctx, st, st.fileCount, st.byteCount);
    }
  }

  /** A header and a marker go to the current writer, and nothing else changes. */
  lemma MarkedSpec(ctx: Ctx, st: State, dir: string, marker: Line)
    requires Valid(Env(ctx), st)
    ensures var r := Marked(ctx.cfg, st, dir, marker);
      && Preserved(ctx, st, r) && Counted(st, r, Tally(0, 0))
      && StackFilesKept(st, r, |st.data| - 1)
      && Lines(r, st.current) == Lines(st, st.current) + [DirHeader(ctx.cfg.legacy, dir), marker]
      && r.logs == st.logs && r.err == st.err && |r.files| == |st.files|
      && (forall id :: 0 <= id < |st.files| && st.current != ToFile(id) ==> r.files[id] == st.files[id])
      && (st.current != ConsoleOut ==> r.out == st.out)
  {
    var h := WriteData(st, DirHeader(ctx.cfg.legacy, dir));
    WriteDataSpec(Env(ctx), st, DirHeader(ctx.cfg.legacy, dir));
    WriteDataSpec(Env(ctx), h, marker);
  }

  lemma {:induction false} ListOrSeparateSpec(ctx: Ctx, st: State, s: Dir)
    requires Valid(Env(ctx), st)
    ensures var r := ListOrSeparate(ctx, st, s);
      && Preserved(ctx, st, r)
      && Counted(st, r,
           if ToFiles(ctx) && AnyMatches(s.path, ctx.cfg.separateDirs, ctx.isMatch) && DataFilePath(Env(ctx), s.path) in ctx.os.openFaults
           then Tally(0, 0) else DirTally(ctx, s))
    decreases s, 1, 3
  {
    if ToFiles(ctx) && AnyMatches(s.path, ctx.cfg.separateDirs, ctx.isMatch) {
      var st2 := Marked(ctx.cfg, st, s.path, Separated);
      MarkedSpec(ctx, st, s.path, Separated);
      SeparateSpec(ctx, st2, s);
      PreservedTrans(ctx, st, st2, Separate(ctx, st2, s));
    } else {
      ListDirSpec(ctx, st, s);
    }
  }

  /** The push, the listing into the new data file and the pop of a separated subdirectory. */
  lemma {:induction false} SeparateSpec(ctx: Ctx, st: State, s: Dir)
    requires Valid(Env(ctx), st) && ToFiles(ctx)
    ensures var r := Separate(ctx, st, s);
      && Preserved(ctx, st, r)
      && StackFilesKept(st, r, |st.data|)
      && Counted(st, r, if DataFilePath(Env(ctx), s.path) in ctx.os.openFaults then Tally(0, 0) else DirTally(ctx, s))
    decreases s, 1, 2
  {
    PushSpec(Env(ctx), st, s.path);
    if DataFilePath(Env(ctx), s.path) in ctx.os.openFaults {
      PushFailedSpec(ctx, st, s.path);
    } else {
      PushedSpec(ctx, st, s);
    }
  }

  /** A push that fails reports two errors, the open failure and the skipped listing, and changes nothing else the traversal keeps. */
  lemma PushFailedSpec(ctx: Ctx, st: State, dir: string)
    requires Valid(Env(ctx), st) && ToFiles(ctx) && DataFilePath(Env(ctx), dir) in ctx.os.openFaults
    ensures var (_, st1) := Push(Env(ctx), st, dir);
      var r := WriteError(Env(ctx), st1, "ERROR pushing output file. Skipping listing for \"" + dir + "\".");
      && Preserved(ctx, st, r) && StackFilesKept(st, r, |st.data|) && Counted(st, r, Tally(0, 0))
      && r.out == st.out
      && r.err == st.err + [Msg("ERROR: failed to create output file for \"" + dir + "\": " + ctx.os.openFaults[DataFilePath(Env(ctx), dir)]),
                           Msg("ERROR pushing output file. Skipping listing for \"" + dir + "\".")]
  {
    var env := Env(ctx);
    var m1 := "ERROR: failed to create output file for \"" + dir + "\": " + env.openFaults[DataFilePath(env, dir)];
    var m2 := "ERROR pushing output file. Skipping listing for \"" + dir + "\".";
    assert Push(env, st, dir).1 == WriteError(env, st, m1);
    TwoErrorsKept(ctx, st, m1, m2);
  }

  /** Two errors in a row touch no data file and reach standard error in order. */
  lemma TwoErrorsKept(ctx: Ctx, st: State, m1: string, m2: string)
    requires Valid(Env(ctx), st)
    ensures var r := WriteError(Env(ctx), WriteError(Env(ctx), st, m1), m2);
      && Preserved(ctx, st, r) && StackFilesKept(st, r, |st.data|) && Counted(st, r, Tally(0, 0))
      && r.out == st.out && r.err == st.err + [Msg(m1), Msg(m2)]
  {
    var env := Env(ctx);
    var st1 := WriteError(env, st, m1);
    WriteLogPreserved(ctx, st, Msg(m1), ErrorsFile, ToStdErr);
    WriteLogPreserved(ctx, st1, Msg(m2), ErrorsFile, ToStdErr);
    var r := WriteError(env, st1, m2);
    PreservedTrans(ctx, st, st1, r);
    ErrorsInOrder(env, st, m1, m2);
  }

  /** Standard error receives two errors in order, and standard output nothing. */
  lemma ErrorsInOrder(env: OutEnv, st: State, m1: string, m2: string)
    ensures var r := WriteError(env, WriteError(env, st, m1), m2);
      r.out == st.out && r.err == st.err + [Msg(m1), Msg(m2)]
  {
    var st1 := WriteError(env, st, m1);
    assert st1.err == st.err + [Msg(m1)] && st1.out == st.out;
  }

  /** After a successful push, the subtree is listed into the new file, which the pop then closes. */
  lemma {:induction false} PushedSpec(ctx: Ctx, st: State, s: Dir)
    requires Valid(Env(ctx), st) && ToFiles(ctx) && DataFilePath(Env(ctx), s.path) !in ctx.os.openFaults
    ensures var (_, st1) := Push(Env(ctx), st, s.path);
      var r := Pop(ListDir(ctx, st1, s)).1;
      Preserved(ctx, st, r) && StackFilesKept(st, r, |st.data|) && Counted(st, r, DirTally(ctx, s))
    decreases s, 1, 1
  {
    var env := Env(ctx);
    PushSpec(env, st, s.path);
    var st1 := Push(env, st, s.path).1;
    ListDirSpec(ctx, st1, s);
    var st2 := ListDir(ctx, st1, s);
    PopSpec(env, st2);
    var r := Pop(st2).1;
    forall i | 0 <= i < |st.data|
      ensures st.data[i] < |st.files| && st.data[i] < |r.files| && r.files[st.data[i]] == st.files[st.data[i]]
    {
      assert st1.data[i] == st.data[i];
    }
  }

  /** Into a data file, `ListHelper` writes the directory's own lines first; what its subdirectories add comes after. */
  lemma ListDirWritesOwnLinesFirst(ctx: Ctx, st: State, d: Dir)
    requires Valid(Env(ctx), st) && st.current.ToFile? && d.listFault.None?
    ensures Lines(st, st.current) + OwnLines(ctx.cfg, d) <= Lines(ListDir(ctx, st, d), st.current)
  {
    var id := st.current.id;
    assert st.data != [] && id == st.data[|st.data| - 1];
    OwnListingSpec(ctx, st, d);
    var st1 := OwnListing(ctx, st, d);
    SubdirsSpec(ctx, st1, d, |d.subdirs|);
    var r := SubdirsUpTo(ctx, st1, d, |d.subdirs|);
    assert Lines(st1, st.current) == st1.files[id].lines;
    assert Lines(r, st.current) == r.files[id].lines;
  }

  /**
   * A separated subdirectory whose data file opens is listed into that file, the one `Push`
   * appends at index `|st.files|`: it is the subdirectory's data file at the path derived from
   * its name, it begins with the subdirectory's own lines, and the pop closes it.
   */
  lemma SeparatedFileSpec(ctx: Ctx, st: State, s: Dir)
    requires Valid(Env(ctx), st) && ToFiles(ctx) && DataFilePath(Env(ctx), s.path) !in ctx.os.openFaults
    ensures var r := Separate(ctx, st, s); var n := |st.files|;
      && n < |r.files|
      && r.files[n].kind == DataFile(s.path) && r.files[n].path == DataFilePath(Env(ctx), s.path)
      && !r.files[n].open
      && (s.listFault.None? ==> OwnLines(ctx.cfg, s) <= r.files[n].lines)
  {
    var env := Env(ctx);
    var n := |st.files|;
    PushSpec(env, st, s.path);
    var st1 := Push(env, st, s.path).1;
    ListDirSpec(ctx, st1, s);
    var st2 := ListDir(ctx, st1, s);
    PopSpec(env, st2);
    var r := Pop(st2).1;
    assert r == Separate(ctx, st, s);
    assert st2.data[|st2.data| - 1] == n;
    if s.listFault.None? {
      ListDirWritesOwnLinesFirst(ctx, st1, s);
      assert Lines(st1, st1.current) == [];
      assert Lines(st2, st1.current) == st2.files[n].lines;
    }
  }
}
