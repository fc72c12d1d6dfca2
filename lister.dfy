/**
 * The `Lister` object itself: its fields, and methods that update them step by step as the
 * source does. Each method is proved to leave the fields exactly as the function of the same
 * name in `Output`, `Traversal` or `Listing` says, so every property proved about those
 * functions holds of the object.
 */
module Listers {
  import opened Wrappers
  import opened FileSystem
  import opened Output
  import opened Settings
  import opened Traversal
  import opened Listing
  import Paths

  class Lister {
    const config: Config
    const isMatch: (string, string) -> bool      // the compiled `_skipDirs` and `_separateDirs`
    const os: Platform

    var files: seq<FileRec>
    var data: seq<nat>
    var current: Writer
    var logs: map<string, nat>
    var out: seq<Line>
    var err: seq<Line>
    var fileCount: nat
    var byteCount: nat
    var listingOutputPath: string
    var listingOutputPathNormalized: Option<string>

    /** The fields the listing changes, as one value. */
    function Model(): State
      reads this
    {
      State(files, data, current, logs, out, err, fileCount, byteCount)
    }

    function Context(): Ctx
      reads this
    {
      Ctx(config, isMatch, os, listingOutputPath, listingOutputPathNormalized)
    }

    function Router(): OutEnv
      reads this
    {
      OutEnv(listingOutputPath, os.openFaults)
    }

    /** `new Lister(config)`: no writer, no output path, and nothing opened yet. */
    constructor(config: Config, isMatch: (string, string) -> bool, os: Platform)
      ensures this.config == config && this.isMatch == isMatch && this.os == os
      ensures Model() == State([], [], NoWriter, map[], [], [], 0, 0)
      ensures listingOutputPath == "" && listingOutputPathNormalized == None
    {
      this.config := config;
      this.isMatch := isMatch;
      this.os := os;
      files, data, current, logs := [], [], NoWriter, map[];
      out, err := [], [];
      fileCount, byteCount := 0, 0;
      listingOutputPath, listingOutputPathNormalized := "", None;
    }

    // -------------------------------------------------------------------------
    // Patterns

    /** `MatchesAny(s, regexs)`: the first pattern that matches ends the search. */
    method MatchesAny(s: string, patterns: Option<seq<string>>) returns (r: bool)
      ensures r <==> AnyMatches(s, patterns, isMatch)
    {
      if patterns.Some? {
        var i := 0;
        while i < |patterns.value|
          invariant 0 <= i <= |patterns.value|
          invariant forall j :: 0 <= j < i ==> !isMatch(patterns.value[j], s)
        {
          if isMatch(patterns.value[i], s) {
            return true;
          }
          i := i + 1;
        }
      }
      return false;
    }

    method SkipDir(dir: string) returns (r: bool)
      ensures r <==> AnyMatches(dir, config.skipDirs, isMatch)
    {
      r := MatchesAny(dir, config.skipDirs);
    }

    method SeparateDir(dir: string) returns (r: bool)
      ensures r <==> AnyMatches(dir, config.separateDirs, isMatch)
    {
      r := MatchesAny(dir, config.separateDirs);
    }

    // -------------------------------------------------------------------------
    // Writers

    /** `_currentDataFileWriter.WriteLine(line)`. */
    method WriteLine(line: Line)
      modifies this`files, this`out
      ensures Model() == WriteData(old(Model()), line)
    {
      match current
      case ConsoleOut => out := out + [line];
      case ToFile(id) => files := AppendFile(files, id, line);
      case NoWriter =>
    }

    method WriteDirHeader(dir: string)
      modifies this`files, this`out
      ensures Model() == WriteData(old(Model()), DirHeader(config.legacy, dir))
    {
      WriteLine(DirHeader(config.legacy, dir));
    }

    /** `WriteLogOutput(msg, filename, altOutput)`. */
    method WriteLogOutput(msg: Line, filename: string, alt: Alt)
      modifies this`files, this`logs, this`out, this`err
      ensures Model() == WriteLog(Router(), old(Model()), msg, filename, alt)
    {
      if IsOutputToFile(Router()) {
        if filename !in logs {
          var created := FileRec(Paths.Combine(listingOutputPath, filename), LogFile(filename), [], true);
          logs := logs[filename := |files|];
          files := files + [created];
          assert logs[filename] == |files| - 1 && files[|files| - 1] == created;
          files := AppendFile(files, logs[filename], msg);
          assert files[..|files| - 1] == old(files) && files[|files| - 1] == created.(lines := [msg]);
          assert files == old(files) + [created.(lines := [msg])];
        } else {
          files := AppendFile(files, logs[filename], msg);
        }
      }
      match alt
      case NoAlt =>
      case ToStdErr => err := err + [msg];
      case ToStdOut => out := out + [msg];
    }

    method WriteError(text: string)
      modifies this`files, this`logs, this`out, this`err
      ensures Model() == Output.WriteError(Router(), old(Model()), text)
    {
      WriteLogOutput(Msg(text), ErrorsFile, ToStdErr);
    }

    method WriteWarning(text: string)
      modifies this`files, this`logs, this`out, this`err
      ensures Model() == Output.WriteWarning(Router(), old(Model()), text)
    {
      WriteLogOutput(Msg(text), WarningsFile, NoAlt);
    }

    method WriteConfig(text: string)
      modifies this`files, this`logs, this`out, this`err
      ensures Model() == Output.WriteConfig(Router(), old(Model()), text)
    {
      WriteLogOutput(Msg(text), ConfigFile, NoAlt);
    }

    method WriteStats(stats: Line)
      modifies this`files, this`logs, this`out, this`err
      ensures Model() == Output.WriteStats(Router(), old(Model()), stats)
    {
      WriteLogOutput(stats, StatsFile, ToStdOut);
    }

    /** A catch block of `ListHelper`. */
    method Report(f: Fault, site: Site)
      modifies this`files, this`logs, this`out, this`err
      ensures Model() == Traversal.Report(Context(), old(Model()), f, site)
    {
      if IsWarning(site, f.kind) {
        WriteWarning(f.message);
      } else {
        WriteError(f.message);
      }
    }

    // -------------------------------------------------------------------------
    // The stack of data files

    /** `PushDataFileOutput(path)`. */
    method PushDataFileOutput(path: string) returns (ok: bool)
      requires IsOutputToFile(Router())
      modifies this`files, this`data, this`current, this`logs, this`out, this`err
      ensures (ok, Model()) == Push(Router(), old(Model()), path)
    {
      var p := Paths.Combine(listingOutputPath, Paths.PathToFilename(path));
      if p in os.openFaults {
        WriteError("ERROR: failed to create output file for \"" + path + "\": " + os.openFaults[p]);
        return false;
      }
      files := files + [FileRec(p, DataFile(path), [], true)];
      data := data + [|files| - 1];
      current := ToFile(|files| - 1);
      return true;
    }

    /** `PopDataFileOutput()`. */
    method PopDataFileOutput() returns (ok: bool)
      modifies this`files, this`data, this`current
      ensures (ok, Model()) == Pop(old(Model()))
    {
      if data == [] {
        return false;
      }
      files := Close(files, data[|data| - 1]);
      data := data[..|data| - 1];
      if |data| > 0 {
        current := ToFile(data[|data| - 1]);
      } else {
        current := ConsoleOut;
      }
      return true;
    }

    /** `Cleanup()`: pop every data file, then close every log file. */
    method Cleanup()
      modifies this`files, this`data, this`current, this`logs
      ensures Model() == Output.Cleanup(Router(), old(Model()))
    {
      if IsOutputToFile(Router()) {
        var popped := PopDataFileOutput();
        while popped
          invariant PopAll(Model()) == PopAll(old(Model()))
          invariant !popped ==> data == []
          decreases |data| + (if popped then 1 else 0)
        {
          popped := PopDataFileOutput();
        }
        current := NoWriter;
        CloseLogFiles();
        logs := map[];
      }
    }

    /** The `foreach` over `_logFileOutputs.Values` in `Cleanup`. */
    method CloseLogFiles()
      modifies this`files
      ensures files == CloseAll(old(files), LogIds(logs))
    {
      var todo := logs.Keys;
      ghost var done: set<string> := {};
      ghost var closed: set<nat> := {};
      while todo != {}
        invariant todo + done == logs.Keys && todo !! done
        invariant closed == IdsOf(logs, done)
        invariant files == CloseAll(old(files), closed)
        decreases |todo|
      {
        var k :| k in todo;
        CloseAllStep(old(files), closed, logs[k]);
        files := Close(files, logs[k]);
        todo := todo - {k};
        done := done + {k};
        closed := closed + {logs[k]};
      }
      assert closed == LogIds(logs);
    }

    /** The log files of the kinds in `kinds`. */
    static function IdsOf(logs: map<string, nat>, kinds: set<string>): set<nat>
    {
      set k | k in kinds && k in logs :: logs[k]
    }

    // -------------------------------------------------------------------------
    // The traversal

    /** `ListHelper(d.path)`. */
    method ListHelper(d: Dir)
      modifies this`files, this`data, this`current, this`logs, this`out, this`err, this`fileCount, this`byteCount
      ensures Model() == ListDir(Context(), old(Model()), d)
      decreases d, 1
    {
      match d.listFault {
        case Some(e) =>
          Report(e, AtListing);
        case None =>
          ListOwnFiles(d);
          ghost var st1 := Model();
          for i := 0 to |d.subdirs|
            invariant Model() == SubdirsUpTo(Context(), st1, d, i)
          {
            ListSubdir(d.subdirs[i]);
          }
      }
    }

    /** The part of `ListHelper(d.path)` before the subdirectory loop: header, file loop, subtotal or `[NO FILES]`. */
    method ListOwnFiles(d: Dir)
      modifies this`files, this`out, this`logs, this`err, this`fileCount, this`byteCount
      ensures Model() == OwnListing(Context(), old(Model()), d)
    {
      if ShowsHeader(config, d) {
        WriteDirHeader(d.path);
        if |d.files| > 0 {
          var dirFileCount, dirByteCount := ListFiles(d.files);
          fileCount := fileCount + dirFileCount;
          byteCount := byteCount + dirByteCount;
          if config.legacy {
            WriteLine(FileTotal(dirFileCount, dirByteCount));
          }
        } else {
          WriteLine(NoFiles);
        }
      }
    }

    /** The file loop of `ListHelper`, returning `dirFileCount` and `dirByteCount`. */
    method ListFiles(entries: seq<FileEntry>) returns (dirFileCount: nat, dirByteCount: nat)
      modifies this`files, this`out, this`logs, this`err
      ensures Acc(Model(), dirFileCount, dirByteCount) == FilesLoop(Context(), old(Model()), entries)
    {
      dirFileCount, dirByteCount := 0, 0;
      for i := 0 to |entries|
        invariant Acc(Model(), dirFileCount, dirByteCount) == FilesLoop(Context(), old(Model()), entries[..i])
      {
        assert entries[..i + 1][..i] == entries[..i];
        dirFileCount, dirByteCount := ListFile(entries[i], dirFileCount, dirByteCount);
      }
      assert entries[..|entries|] == entries;
    }

    /** One iteration of the file loop, its `try` block and its `catch` blocks. */
    method ListFile(f: FileEntry, count: nat, bytes: nat) returns (count': nat, bytes': nat)
      modifies this`files, this`out, this`logs, this`err
      ensures Acc(Model(), count', bytes') == FileStep(Context(), Acc(old(Model()), count, bytes), f)
    {
      count', bytes' := count, bytes;
      match f.info
      case InfoFault(e) =>
        Report(e, AtFile);
      case LengthFault(e) =>
        count' := count' + 1;
        Report(e, AtFile);
      case Info(len, reparse, stamp) =>
        count' := count' + 1;
        bytes' := bytes' + len;
        WriteLine(FileLine(config.legacy, stamp, if reparse then SymlinkMarker else Bytes(len), f.name));
    }

    /** One iteration of the subdirectory loop of `ListHelper`, its `try` block and its `catch` blocks. */
    method ListSubdir(s: Dir)
      modifies this`files, this`data, this`current, this`logs, this`out, this`err, this`fileCount, this`byteCount
      ensures Model() == VisitSubdir(Context(), old(Model()), s)
      decreases s, 3
    {
      if listingOutputPathNormalized.Some? {
        match os.normalize(s.path) {
          case Failure(e) =>
            Report(e, AtSubdir);
            return;
          case Success(n) =>
            if n == listingOutputPathNormalized.value {
              return;
            }
        }
      }
      assert VisitSubdir(Context(), old(Model()), s) == EnterSubdir(Context(), old(Model()), s);
      match s.attrs {
        case Failure(e) =>
          Report(e, AtSubdir);
        case Success(a) =>
          if IsJunctionPoint(a) {
            WriteWarning("Skipping junction point \"" + s.path + "\"");
            return;
          }
          var skip := SkipDir(s.path);
          if skip {
            WriteDirHeader(s.path);
            WriteLine(Skipped);
            return;
          }
          if a.reparsePoint {
            WriteWarning("Unskipped directory symbolic link encountered: \"" + s.path + "\"");
          }
          assert Model() == WarnIfLink(Context(), old(Model()), s.path, a.reparsePoint);
          ListOrSeparateSubdir(s);
      }
    }

    /** The last branch of the loop body: a separated subdirectory in file mode, otherwise the recursion. */
    method ListOrSeparateSubdir(s: Dir)
      modifies this`files, this`data, this`current, this`logs, this`out, this`err, this`fileCount, this`byteCount
      ensures Model() == ListOrSeparate(Context(), old(Model()), s)
      decreases s, 2
    {
      var separate := false;
      if IsOutputToFile(Router()) {
        separate := SeparateDir(s.path);
      }
      if separate {
        WriteDirHeader(s.path);
        WriteLine(Separated);
        ghost var st1 := Model();
        assert st1 == Marked(config, old(Model()), s.path, Separated);
        var ok := PushDataFileOutput(s.path);
        if ok {
          ListHelper(s);
          ok := PopDataFileOutput();
        } else {
          WriteError("ERROR pushing output file. Skipping listing for \"" + s.path + "\".");
        }
        assert Model() == Separate(Context(), st1, s);
      } else {
        ListHelper(s);
      }
    }

    // -------------------------------------------------------------------------
    // Roots and the listing

    /** `ListRoot(root)`: the root's data file, its counters, its traversal and its statistics. */
    method ListRoot(root: string)
      modifies this`files, this`data, this`current, this`logs, this`out, this`err, this`fileCount, this`byteCount
      ensures Model() == Listing.ListRoot(Context(), old(Model()), root)
    {
      if root !in os.trees {
        WriteError("CONFIG ERROR: root directory \"" + root + "\" does not exist");
        return;
      }
      if IsOutputToFile(Router()) {
        var ok := PushDataFileOutput(root);
        if !ok {
          WriteError("ERROR: failed to create root output file for \"" + root + "\"");
          return;
        }
      }
      ghost var st1 := Model();
      fileCount := 0;
      byteCount := 0;
      ListHelper(os.trees[root]);
      WriteRootStats(root);
      assert Model() == ListTree(Context(), st1, root, os.trees[root]);
      if IsOutputToFile(Router()) {
        var _ := PopDataFileOutput();
      }
    }

    /** The end of `ListRoot`: the totals appended to the listing in legacy mode, otherwise the statistics message. */
    method WriteRootStats(root: string)
      modifies this`files, this`logs, this`out, this`err
      ensures Model() == RootStats(Context(), old(Model()), root)
    {
      if config.legacy {
        WriteLine(TotalHeading);
        WriteLine(FileTotal(fileCount, byteCount));
      } else {
        WriteStats(Stats(root, fileCount, byteCount, IsOutputToFile(Router())));
      }
    }

    /** `List(listingName)`: the preparation, then the configuration log, the roots and `Cleanup()`. */
    method List(listingName: string)
      modifies this`files, this`data, this`current, this`logs, this`out, this`err, this`fileCount, this`byteCount
      modifies this`listingOutputPath, this`listingOutputPathNormalized
      ensures var p := Listing.List(config, isMatch, os, listingName, old(Model()));
        && Model() == p.st
        && listingOutputPath == (if Paths.HasInvalidFilenameChars(listingName, os.invalidNameChars) then old(listingOutputPath) else OutputPath(config, os, listingName))
        && listingOutputPathNormalized == (if p.proceed then p.outputNormalized else old(listingOutputPathNormalized))
    {
      var proceed := PrepareListing(listingName);
      if proceed {
        ListRoots();
        Cleanup();
      }
    }

    /** The first `try` block of `List`: the listing name, the output directory, its normalized path. */
    method PrepareListing(listingName: string) returns (proceed: bool)
      modifies this`out, this`err, this`listingOutputPath, this`listingOutputPathNormalized
      ensures var p := Listing.Prepare(config, os, listingName, old(Model()));
        && proceed == p.proceed && Model() == p.st
        && listingOutputPath == (if Paths.HasInvalidFilenameChars(listingName, os.invalidNameChars) then old(listingOutputPath) else OutputPath(config, os, listingName))
        && (proceed ==> listingOutputPath == p.outputPath)
        && listingOutputPathNormalized == (if proceed then p.outputNormalized else old(listingOutputPathNormalized))
    {
      if Paths.HasInvalidFilenameChars(listingName, os.invalidNameChars) {
        err := err + [Msg("ERROR: Listing name contains invalid characters")];
        return false;
      }
      listingOutputPath := OutputPath(config, os, listingName);
      if IsOutputToFile(Router()) {
        if listingOutputPath in os.mkdirFaults {
          err := err + [Msg("ERROR: Could not create output directory: \"" + listingOutputPath + "\": " + os.mkdirFaults[listingOutputPath])];
          return false;
        }
        out := out + [Msg("Output target: \"" + listingOutputPath + "\"")];
        match os.normalize(listingOutputPath) {
          case Failure(e) =>
            err := err + [Msg("LISTING PREP ERROR: " + e.message)];
            return false;
          case Success(n) =>
            listingOutputPathNormalized := Some(n);
        }
      } else {
        listingOutputPathNormalized := None;
      }
      return true;
    }

    /** The second `try` block of `List`, up to its `finally`: writer, registries, configuration, roots. */
    method ListRoots()
      modifies this`files, this`data, this`current, this`logs, this`out, this`err, this`fileCount, this`byteCount
      ensures Model() == ListAll(Context(), old(Model()))
    {
      current := ConsoleOut;
      data, logs := [], map[];
      ghost var st1 := Model();
      assert st1 == old(Model()).(current := ConsoleOut, data := [], logs := map[]);
      WriteConfig("// effective listing config at run time\n");
      WriteConfig(os.configJson);
      ghost var st2 := Model();
      assert st2 == Output.WriteConfig(Router(), Output.WriteConfig(Router(), st1, "// effective listing config at run time\n"), os.configJson);
      ListEachRoot();
      assert Model() == RootsUpTo(Context(), st2, Roots(config, os.cwd), |Roots(config, os.cwd)|);
    }

    /** The root loop of `List`: the single `root`, or each of `roots` with a dashed line between them on the console. */
    method ListEachRoot()
      modifies this`files, this`data, this`current, this`logs, this`out, this`err, this`fileCount, this`byteCount
      ensures Model() == RootsUpTo(Context(), old(Model()), Roots(config, os.cwd), |Roots(config, os.cwd)|)
    {
      ghost var roots := Roots(config, os.cwd);
      if config.roots.None? {
        ListRoot(OrCwd(config.root, os.cwd));
        assert Model() == RootsUpTo(Context(), old(Model()), roots, 1);
      } else {
        for i := 0 to |config.roots.value|
          invariant Model() == RootsUpTo(Context(), old(Model()), roots, i)
        {
          if i > 0 && !IsOutputToFile(Router()) {
            out := out + [RootSeparator];
          }
          ListRoot(OrCwd(config.roots.value[i], os.cwd));
        }
        assert |roots| == |config.roots.value|;
      }
    }
  }
}
