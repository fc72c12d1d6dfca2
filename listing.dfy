/**
 * `Lister.List` and `Lister.ListRoot`: the preparation of the output directory, the effective
 * configuration, the roots one after another with their statistics, and the final cleanup.
 */
module Listing {
  import opened Wrappers
  import opened FileSystem
  import opened Output
  import opened Settings
  import opened Traversal
  import Paths

  /** `_listingOutputPath`: empty without a configured output, else a time-stamped directory under it. */
  function OutputPath(cfg: Config, os: Platform, listingName: string): string
  {
    if Paths.IsNullOrWhiteSpace(cfg.output) then ""
    else Paths.Combine(cfg.output, os.now + (if |listingName| > 0 then " " else "") + listingName)
  }

  /** A configured root, the current directory standing in for a null or empty one. */
  function OrCwd(root: string, cwd: string): string
  {
    if root == "" then cwd else root
  }

  /** The roots `List` lists: `roots` when it is given, otherwise the single `root`. */
  function Roots(cfg: Config, cwd: string): seq<string>
  {
    if cfg.roots.None? then [OrCwd(cfg.root, cwd)]
    else seq(|cfg.roots.value|, i requires 0 <= i < |cfg.roots.value| => OrCwd(cfg.roots.value[i], cwd))
  }

  /** The statistics of a root: appended to the listing in legacy mode, otherwise a stats message. */
  function RootStats(ctx: Ctx, st: State, root: string): State
  {
    if ctx.cfg.legacy then WriteData(WriteData(st, TotalHeading), FileTotal(st.fileCount, st.byteCount))
    else WriteStats(Env(ctx), st, Stats(root, st.fileCount, st.byteCount, ToFiles(ctx)))
  }

  /** The counters, the traversal and the statistics of one root, into the current writer. */
  function ListTree(ctx: Ctx, st: State, root: string, tree: Dir): State
  {
    RootStats(ctx, ListDir(ctx, st.(fileCount := 0, byteCount := 0), tree), root)
  }

  /** `ListRoot(root)`. */
  function ListRoot(ctx: Ctx, st: State, root: string): State
  {
    var env := Env(ctx);
    if root !in ctx.os.trees then WriteError(env, st, "CONFIG ERROR: root directory \"" + root + "\" does not exist")
    else if !ToFiles(ctx) then ListTree(ctx, st, root, ctx.os.trees[root])
    else
      var (ok, st1) := Push(env, st, root);
      if !ok then WriteError(env, st1, "ERROR: failed to create root output file for \"" + root + "\"")
      else Pop(ListTree(ctx, st1, root, ctx.os.trees[root])).1
  }

  /** The root loop of `List` after its first `k` iterations; on the console a dashed line separates roots. */
  function RootsUpTo(ctx: Ctx, st: State, roots: seq<string>, k: nat): State
    requires k <= |roots|
  {
    if k == 0 then st
    else
      var st1 := RootsUpTo(ctx, st, roots, k - 1);
      var st2 := if k > 1 && !ToFiles(ctx) then st1.(out := st1.out + [RootSeparator]) else st1;
      ListRoot(ctx, st2, roots[k - 1])
  }

  /** What `List` settles before it lists: the output path, its normalized form, and whether to go on. */
  datatype Prep = Prep(outputPath: string, outputNormalized: Option<string>, st: State, proceed: bool)

  /** The first try block of `List`: the listing name, the output directory, its normalized path. */
  function Prepare(cfg: Config, os: Platform, listingName: string, st: State): Prep
  {
    if Paths.HasInvalidFilenameChars(listingName, os.invalidNameChars) then
      Prep("", None, st.(err := st.err + [Msg("ERROR: Listing name contains invalid characters")]), false)
    else
      var path := OutputPath(cfg, os, listingName);
      if path == "" then Prep(path, None, st, true)
      else if path in os.mkdirFaults then
        Prep(path, None, st.(err := st.err + [Msg("ERROR: Could not create output directory: \"" + path + "\": " + os.mkdirFaults[path])]), false)
      else
        var st1 := st.(out := st.out + [Msg("Output target: \"" + path + "\"")]);
        match os.normalize(path)
        case Failure(e) => Prep(path, None, st1.(err := st1.err + [Msg("LISTING PREP ERROR: " + e.message)]), false)
        case Success(n) => Prep(path, Some(n), st1, true)
  }

  /** The second try block of `List`, up to its `finally`: writer, registries, configuration, roots. */
  function ListAll(ctx: Ctx, st: State): State
  {
    var env := Env(ctx);
    var st1 := st.(current := ConsoleOut, data := [], logs := map[]);
    var st2 := WriteConfig(env, WriteConfig(env, st1, "// effective listing config at run time\n"), ctx.os.configJson);
    var roots := Roots(ctx.cfg, ctx.os.cwd);
    RootsUpTo(ctx, st2, roots, |roots|)
  }

  /** `List(listingName)`, ending with `Cleanup()` when the listing started. */
  function List(cfg: Config, isMatch: (string, string) -> bool, os: Platform, listingName: string, st: State): Prep
  {
    var p := Prepare(cfg, os, listingName, st);
    if !p.proceed then p
    else
      var ctx := Ctx(cfg, isMatch, os, p.outputPath, p.outputNormalized);
      p.(st := Cleanup(Env(ctx), ListAll(ctx, p.st)))
  }

  // ---------------------------------------------------------------------------
  // Properties of the preparation

  /**
   * `_listingOutputPath` is empty exactly when the configured output is null, empty or white
   * space; otherwise it ends with the time-stamped directory name, which ends with the listing
   * name, and lies under the configured output unless that name is itself rooted.
   */
  lemma OutputPathSpec(cfg: Config, os: Platform, listingName: string)
    ensures OutputPath(cfg, os, listingName) == "" <==> Paths.IsNullOrWhiteSpace(cfg.output)
    ensures var name := os.now + (if |listingName| > 0 then " " else "") + listingName;
      var p := OutputPath(cfg, os, listingName);
      !Paths.IsNullOrWhiteSpace(cfg.output) ==>
        && |name| <= |p| && p[|p| - |name|..] == name
        && (!Paths.IsPathRooted(name) ==> cfg.output <= p)
  {
    var name := os.now + (if |listingName| > 0 then " " else "") + listingName;
    if !Paths.IsNullOrWhiteSpace(cfg.output) {
      assert cfg.output != [];
      var p := OutputPath(cfg, os, listingName);
      assert p == Paths.Combine(cfg.output, name);
      if name == [] {
        assert p[|p| - |name|..] == [];
      }
    }
  }

  /** The listing writes to files exactly when an output directory is configured. */
  lemma FileModeIffOutput(cfg: Config, os: Platform, listingName: string)
    ensures IsOutputToFile(OutEnv(OutputPath(cfg, os, listingName), os.openFaults)) <==> !Paths.IsNullOrWhiteSpace(cfg.output)
  {
    OutputPathSpec(cfg, os, listingName);
  }

  /**
   * The listing goes on iff the listing name is a valid file name and either no output is
   * configured or the output directory is created and its path normalizes; each way of stopping
   * reports exactly one error. Only the console streams change.
   */
  lemma PrepareSpec(cfg: Config, os: Platform, listingName: string, st: State)
    ensures var p := Prepare(cfg, os, listingName, st);
      && p.st == st.(out := p.st.out, err := p.st.err)
      && (p.proceed <==>
            && !Paths.HasInvalidFilenameChars(listingName, os.invalidNameChars)
            && (OutputPath(cfg, os, listingName) == "" ||
                (OutputPath(cfg, os, listingName) !in os.mkdirFaults && os.normalize(OutputPath(cfg, os, listingName)).Success?)))
      && (!p.proceed ==> |p.st.err| == |st.err| + 1)
      && (p.proceed ==> p.st.err == st.err && p.outputPath == OutputPath(cfg, os, listingName))
      && (p.proceed ==> (p.outputNormalized.Some? <==> p.outputPath != ""))
      && (p.proceed && p.outputPath != "" ==>
            && p.outputNormalized == Some(os.normalize(p.outputPath).value)
            && p.st.out == st.out + [Msg("Output target: \"" + p.outputPath + "\"")])
      && (p.proceed && p.outputPath == "" ==> p.st == st)
  {
  }

  // ---------------------------------------------------------------------------
  // Properties of a root

  /** The statistics step keeps the router's invariant and writes where the mode says. */
  lemma RootStatsSpec(ctx: Ctx, st: State, root: string)
    requires Valid(Env(ctx), st)
    ensures var r := RootStats(ctx, st, root);
      && Valid(Env(ctx), r) && r.data == st.data && r.current == st.current && Extends(st.files, r.files)
      && StackFilesKept(st, r, |st.data| - 1)
      && r.fileCount == st.fileCount && r.byteCount == st.byteCount
      && (ctx.cfg.legacy ==>
            Lines(r, st.current) == Lines(st, st.current) + [TotalHeading, FileTotal(st.fileCount, st.byteCount)])
      && (!ctx.cfg.legacy ==>
            && r.out == st.out + [Stats(root, st.fileCount, st.byteCount, ToFiles(ctx))]
            && (ToFiles(ctx) ==> StatsFile in r.logs && Last(r.files[r.logs[StatsFile]].lines) == Stats(root, st.fileCount, st.byteCount, true)))
  {
    if ctx.cfg.legacy {
      WriteDataSpec(Env(ctx), st, TotalHeading);
      WriteDataSpec(Env(ctx), WriteData(st, TotalHeading), FileTotal(st.fileCount, st.byteCount));
    } else {
      WriteLogPreservedOut(ctx, st, Stats(root, st.fileCount, st.byteCount, ToFiles(ctx)), StatsFile);
    }
  }

  /** A message logged and mirrored to standard output touches no data file. */
  lemma WriteLogPreservedOut(ctx: Ctx, st: State, msg: Line, name: string)
    requires Valid(Env(ctx), st)
    ensures var r := WriteLog(Env(ctx), st, msg, name, ToStdOut);
      && Valid(Env(ctx), r) && r.data == st.data && r.current == st.current && Extends(st.files, r.files)
      && StackFilesKept(st, r, |st.data|)
      && r.out == st.out + [msg]
      && (ToFiles(ctx) ==> name in r.logs && Last(r.files[r.logs[name]].lines) == msg)
  {
    var env := Env(ctx);
    WriteLogSpec(env, st, msg, name, ToStdOut);
    var r := WriteLog(env, st, msg, name, ToStdOut);
    forall i | 0 <= i < |st.data|
      ensures st.data[i] < |st.files| && st.data[i] < |r.files| && r.files[st.data[i]] == st.files[st.data[i]]
    {
      assert st.files[st.data[i]].kind.DataFile?;
    }
  }

  /** The tail of the lines a root's writer ends with, or of standard output, once its statistics are written. */
  ghost predicate EndsWithStats(ctx: Ctx, r: State, w: Writer, root: string, t: Tally)
  {
    if ctx.cfg.legacy then
      |Lines(r, w)| >= 2 && Lines(r, w)[|Lines(r, w)| - 2..] == [TotalHeading, FileTotal(t.files, t.bytes)]
    else
      r.out != [] && Last(r.out) == Stats(root, t.files, t.bytes, ToFiles(ctx))
  }

  /**
   * A root's counters start from zero, so its statistics report exactly the files and bytes of
   * the directories its traversal enters.
   */
  lemma ListTreeSpec(ctx: Ctx, st: State, root: string, tree: Dir)
    requires Valid(Env(ctx), st)
    ensures var r := ListTree(ctx, st, root, tree);
      && Valid(Env(ctx), r) && r.data == st.data && r.current == st.current && Extends(st.files, r.files)
      && StackFilesKept(st, r, |st.data| - 1)
      && r.fileCount == DirTally(ctx, tree).files && r.byteCount == DirTally(ctx, tree).bytes
      && EndsWithStats(ctx, r, st.current, root, DirTally(ctx, tree))
  {
    var st0 := st.(fileCount := 0, byteCount := 0);
    CountersFree(ctx, st, 0, 0);
    ListDirSpec(ctx, st0, tree);
    var st1 := ListDir(ctx, st0, tree);
    assert st1.fileCount == DirTally(ctx, tree).files && st1.byteCount == DirTally(ctx, tree).bytes;
    StatsTail(ctx, st1, root);
  }

  /** The statistics of a root are the last thing its writer (or, outside legacy mode, standard output) holds. */
  lemma StatsTail(ctx: Ctx, st: State, root: string)
    requires Valid(Env(ctx), st)
    ensures var r := RootStats(ctx, st, root);
      && Valid(Env(ctx), r) && r.data == st.data && r.current == st.current && Extends(st.files, r.files)
      && StackFilesKept(st, r, |st.data| - 1)
      && r.fileCount == st.fileCount && r.byteCount == st.byteCount
      && EndsWithStats(ctx, r, st.current, root, Tally(st.fileCount, st.byteCount))
  {
    RootStatsSpec(ctx, st, root);
    var r := RootStats(ctx, st, root);
    if ctx.cfg.legacy {
      var ls := Lines(r, st.current);
      assert ls[|ls| - 2..] == [TotalHeading, FileTotal(st.fileCount, st.byteCount)];
    }
  }

  /**
   * `ListRoot` keeps the router's invariant and returns to the console with an empty stack: a
   * missing root is reported as a configuration error; in file mode the root's data file is
   * pushed first and closed last, and a failed push is reported and skips the root.
   */
  lemma ListRootSpec(ctx: Ctx, st: State, root: string)
    requires Valid(Env(ctx), st) && st.data == []
    ensures var r := ListRoot(ctx, st, root);
      && Valid(Env(ctx), r) && r.data == [] && r.current == ConsoleOut && Extends(st.files, r.files)
      && (root !in ctx.os.trees ==>
            r.err == st.err + [Msg("CONFIG ERROR: root directory \"" + root + "\" does not exist")] && r.out == st.out)
  {
    var env := Env(ctx);
    if root !in ctx.os.trees {
      WriteErrorSpec(env, st, "CONFIG ERROR: root directory \"" + root + "\" does not exist");
    } else if !ToFiles(ctx) {
      ListTreeSpec(ctx, st, root, ctx.os.trees[root]);
    } else {
      if DataFilePath(env, root) in ctx.os.openFaults {
        RootPushFailedSpec(ctx, st, root);
      } else {
        RootFileSpec(ctx, st, root);
      }
    }
  }

  /** A root data file that cannot be opened is reported twice, as the push and as the root, and the root is skipped. */
  lemma RootPushFailedSpec(ctx: Ctx, st: State, root: string)
    requires Valid(Env(ctx), st) && st.data == [] && ToFiles(ctx)
    requires root in ctx.os.trees && DataFilePath(Env(ctx), root) in ctx.os.openFaults
    ensures var r := ListRoot(ctx, st, root);
      && Valid(Env(ctx), r) && r.data == [] && r.current == ConsoleOut && Extends(st.files, r.files)
      && r.out == st.out && |r.err| == |st.err| + 2
      && r.err[|r.err| - 1] == Msg("ERROR: failed to create root output file for \"" + root + "\"")
  {
    var env := Env(ctx);
    PushSpec(env, st, root);
    var st1 := Push(env, st, root).1;
    WriteErrorSpec(env, st1, "ERROR: failed to create root output file for \"" + root + "\"");
  }

  /**
   * In file mode, a root whose data file opens is listed into that file, the one `Push` appends
   * at index `|st.files|`: it is the root's data file at the path derived from the root, it
   * begins with the root directory's own lines, it ends with the root's statistics in legacy
   * mode, and it is closed when the root is done.
   */
  lemma RootFileSpec(ctx: Ctx, st: State, root: string)
    requires Valid(Env(ctx), st) && st.data == [] && ToFiles(ctx)
    requires root in ctx.os.trees && DataFilePath(Env(ctx), root) !in ctx.os.openFaults
    ensures var r := ListRoot(ctx, st, root);
      Valid(Env(ctx), r) && r.data == [] && r.current == ConsoleOut && Extends(st.files, r.files)
    ensures var r := ListRoot(ctx, st, root); var n := |st.files|;
      && n < |r.files| && !r.files[n].open
      && r.files[n].kind == DataFile(root) && r.files[n].path == DataFilePath(Env(ctx), root)
    ensures var r := ListRoot(ctx, st, root); var n := |st.files|; var tree := ctx.os.trees[root];
      tree.listFault.None? ==> OwnLines(ctx.cfg, tree) <= r.files[n].lines
    ensures var r := ListRoot(ctx, st, root);
      r.fileCount == DirTally(ctx, ctx.os.trees[root]).files && r.byteCount == DirTally(ctx, ctx.os.trees[root]).bytes
    ensures EndsWithStats(ctx, ListRoot(ctx, st, root), ToFile(|st.files|), root, DirTally(ctx, ctx.os.trees[root]))
  {
    var env := Env(ctx);
    var n := |st.files|;
    var tree := ctx.os.trees[root];
    PushSpec(env, st, root);
    var st1 := Push(env, st, root).1;
    ListTreeSpec(ctx, st1, root, tree);
    var st2 := ListTree(ctx, st1, root, tree);
    PopSpec(env, st2);
    var r := Pop(st2).1;
    assert r == ListRoot(ctx, st, root);
    ExtendsTrans(st.files, st1.files, st2.files);
    ExtendsTrans(st.files, st2.files, r.files);
    assert Lines(r, ToFile(n)) == Lines(st2, ToFile(n));
    EndsWithStatsKept(ctx, st2, r, ToFile(n), root, DirTally(ctx, tree));
    if tree.listFault.None? {
      RootOwnLinesFirst(ctx, st1, root, tree);
    }
  }

  /** The root's data file, fresh and current, receives the root directory's own lines first. */
  lemma RootOwnLinesFirst(ctx: Ctx, st: State, root: string, tree: Dir)
    requires Valid(Env(ctx), st) && st.current.ToFile? && tree.listFault.None?
    requires Lines(st, st.current) == []
    ensures OwnLines(ctx.cfg, tree) <= Lines(ListTree(ctx, st, root, tree), st.current)
  {
    var st0 := st.(fileCount := 0, byteCount := 0);
    CountersFree(ctx, st, 0, 0);
    ListDirWritesOwnLinesFirst(ctx, st0, tree);
    ListDirSpec(ctx, st0, tree);
    var st1 := ListDir(ctx, st0, tree);
    StatsTail(ctx, st1, root);
    var r := RootStats(ctx, st1, root);
    var id := st.current.id;
    assert Lines(st1, st.current) == st1.files[id].lines;
    assert Lines(r, st.current) == r.files[id].lines;
    PrefixTrans(OwnLines(ctx.cfg, tree), st1.files[id].lines, r.files[id].lines);
  }

  lemma EndsWithStatsKept(ctx: Ctx, a: State, b: State, w: Writer, root: string, t: Tally)
    requires EndsWithStats(ctx, a, w, root, t) && Lines(a, w) == Lines(b, w) && a.out == b.out
    ensures EndsWithStats(ctx, b, w, root, t)
  {
  }

  /** On the console, a root is listed to standard output, which ends with its statistics. */
  lemma RootConsoleSpec(ctx: Ctx, st: State, root: string)
    requires Valid(Env(ctx), st) && st.data == [] && !ToFiles(ctx) && root in ctx.os.trees
    ensures var r := ListRoot(ctx, st, root);
      && r.files == [] && r.logs == st.logs
      && r.fileCount == DirTally(ctx, ctx.os.trees[root]).files && r.byteCount == DirTally(ctx, ctx.os.trees[root]).bytes
      && EndsWithStats(ctx, r, ConsoleOut, root, DirTally(ctx, ctx.os.trees[root]))
  {
    ListTreeSpec(ctx, st, root, ctx.os.trees[root]);
  }

  // ---------------------------------------------------------------------------
  // Properties of a whole listing

  /**
   * Root selection: without `roots`, the single `root`; with `roots`, each entry in order and
   * nothing for an empty array; the current directory stands in for every empty root.
   */
  lemma RootsSelection(cfg: Config, cwd: string)
    ensures cfg.roots.None? ==> Roots(cfg, cwd) == [if cfg.root == "" then cwd else cfg.root]
    ensures cfg.roots.Some? ==> |Roots(cfg, cwd)| == |cfg.roots.value|
    ensures cfg.roots.Some? ==> forall i :: 0 <= i < |cfg.roots.value| ==>
      Roots(cfg, cwd)[i] == if cfg.roots.value[i] == "" then cwd else cfg.roots.value[i]
    ensures cfg.roots == Some([]) ==> Roots(cfg, cwd) == []
  {
  }

  /** An empty `roots` array lists nothing: the listing ends once the configuration is logged. */
  lemma EmptyRootsListNothing(ctx: Ctx, st: State)
    requires ctx.cfg.roots == Some([])
    ensures var env := Env(ctx);
      var st1 := st.(current := ConsoleOut, data := [], logs := map[]);
      ListAll(ctx, st) == WriteConfig(env, WriteConfig(env, st1, "// effective listing config at run time\n"), ctx.os.configJson)
    ensures var r := ListAll(ctx, st);
      r.out == st.out && r.err == st.err && r.fileCount == st.fileCount && r.byteCount == st.byteCount
  {
    assert Roots(ctx.cfg, ctx.os.cwd) == [];
  }

  /** The root loop keeps the router's invariant and leaves the console current with an empty stack. */
  lemma {:induction false} RootsSpec(ctx: Ctx, st: State, roots: seq<string>, k: nat)
    requires k <= |roots| && Valid(Env(ctx), st) && st.data == []
    ensures var r := RootsUpTo(ctx, st, roots, k);
      && Valid(Env(ctx), r) && r.data == [] && r.current == ConsoleOut && Extends(st.files, r.files)
  {
    if k > 0 {
      RootsSpec(ctx, st, roots, k - 1);
      var st1 := RootsUpTo(ctx, st, roots, k - 1);
      var st2 := if k > 1 && !ToFiles(ctx) then st1.(out := st1.out + [RootSeparator]) else st1;
      assert Valid(Env(ctx), st2);
      ListRootSpec(ctx, st2, roots[k - 1]);
    }
  }

  /** Every log file holds at least one line: log files are opened only to be written. */
  ghost predicate LogsWritten(st: State)
  {
    forall id :: 0 <= id < |st.files| && st.files[id].kind.LogFile? ==> st.files[id].lines != []
  }

  /**
   * A listing that starts on a fresh lister and gets past its preparation ends with every file
   * closed, at most one log file per kind, no empty log file, and no file at all when it writes
   * to the console.
   */
  lemma ListSpec(cfg: Config, isMatch: (string, string) -> bool, os: Platform, listingName: string, st: State)
    requires st.files == [] && st.data == [] && st.logs == map[]
    ensures var p := List(cfg, isMatch, os, listingName, st);
      p.proceed ==>
        && AllClosed(p.st) && UniqueLogKinds(p.st) && LogsWritten(p.st) && p.st.data == []
        && (p.outputPath == "" ==> p.st.files == [])
  {
    var p := Prepare(cfg, os, listingName, st);
    if p.proceed {
      var ctx := Ctx(cfg, isMatch, os, p.outputPath, p.outputNormalized);
      ListAllSpec(ctx, p.st);
      var st1 := ListAll(ctx, p.st);
      CleanupSpec(Env(ctx), st1);
    }
  }

  /** Before the cleanup, the whole listing keeps the router's invariant from a fresh state. */
  lemma ListAllSpec(ctx: Ctx, st: State)
    requires st.files == []
    ensures var r := ListAll(ctx, st);
      && Valid(Env(ctx), r) && r.data == [] && LogsWritten(r)
  {
    var env := Env(ctx);
    var st1 := st.(current := ConsoleOut, data := [], logs := map[]);
    assert Valid(env, st1);
    WriteLogSpec(env, st1, Msg("// effective listing config at run time\n"), ConfigFile, NoAlt);
    var st2 := WriteConfig(env, st1, "// effective listing config at run time\n");
    WriteLogSpec(env, st2, Msg(ctx.os.configJson), ConfigFile, NoAlt);
    var st3 := WriteConfig(env, st2, ctx.os.configJson);
    var roots := Roots(ctx.cfg, ctx.os.cwd);
    RootsSpec(ctx, st3, roots, |roots|);
    ValidLogsWritten(env, ListAll(ctx, st));
  }

  lemma ValidLogsWritten(env: OutEnv, st: State)
    requires Valid(env, st)
    ensures LogsWritten(st)
  {
    forall id | 0 <= id < |st.files| && st.files[id].kind.LogFile?
      ensures st.files[id].lines != []
    {
      assert st.logs[st.files[id].kind.name] == id;
    }
  }
}
