/**
 * The order in which the subdirectory loop of `ListHelper` decides what to do with a
 * subdirectory: the listing's own output directory first, then junction points, then the skip
 * patterns, and the separate patterns last and only when writing to files.
 */
module Decisions {
  import opened Wrappers
  import opened FileSystem
  import opened Output
  import opened Settings
  import opened Traversal

  /** The listing's own output directory is passed over without a trace. */
  lemma OwnOutputIgnored(ctx: Ctx, st: State, s: Dir)
    requires ctx.outputNormalized.Some? && ctx.os.normalize(s.path) == Success(ctx.outputNormalized.value)
    ensures VisitSubdir(ctx, st, s) == st
  {
  }

  /**
   * A junction point is never listed, whatever the skip and separate patterns say: the current
   * writer gets nothing and nothing is counted; only a warning is logged, which reaches neither
   * console stream and, in file mode, ends the warnings log. At most that log's file is opened,
   * and every other file keeps its lines.
   */
  lemma JunctionNotListed(ctx: Ctx, st: State, s: Dir)
    requires Valid(Env(ctx), st) && NotOwnOutput(ctx, s)
    requires s.attrs.Success? && IsJunctionPoint(s.attrs.value)
    ensures var r := VisitSubdir(ctx, st, s);
      && Lines(r, st.current) == Lines(st, st.current)
      && r.data == st.data && r.current == st.current && Counted(st, r, Tally(0, 0))
      && r.out == st.out && r.err == st.err
      && |st.files| <= |r.files| <= |st.files| + 1
      && (forall id :: 0 <= id < |st.files| && !(WarningsFile in st.logs && id == st.logs[WarningsFile]) ==> r.files[id] == st.files[id])
      && (!ToFiles(ctx) ==> r.files == st.files && r.logs == st.logs)
      && (ToFiles(ctx) ==>
            WarningsFile in r.logs && r.logs[WarningsFile] < |r.files| && r.files[r.logs[WarningsFile]].lines != []
            && Last(r.files[r.logs[WarningsFile]].lines) == Msg("Skipping junction point \"" + s.path + "\""))
  {
    var msg := Msg("Skipping junction point \"" + s.path + "\"");
    WriteLogPreserved(ctx, st, msg, WarningsFile, NoAlt);
    WriteLogSpec(Env(ctx), st, msg, WarningsFile, NoAlt);
    assert VisitSubdir(ctx, st, s) == WriteWarning(Env(ctx), st, "Skipping junction point \"" + s.path + "\"");
  }

  /**
   * A junction point needs all three of hidden, system and reparse point: a reparse point that
   * lacks either of the others is no junction and, unless skipped, is followed after the
   * symbolic-link warning.
   */
  lemma SymlinkFollowed(ctx: Ctx, st: State, s: Dir)
    requires NotOwnOutput(ctx, s)
    requires s.attrs.Success? && s.attrs.value.reparsePoint && !(s.attrs.value.hidden && s.attrs.value.system)
    requires !AnyMatches(s.path, ctx.cfg.skipDirs, ctx.isMatch)
    ensures !IsJunctionPoint(s.attrs.value)
    ensures VisitSubdir(ctx, st, s) ==
      ListOrSeparate(ctx, WriteWarning(Env(ctx), st, "Unskipped directory symbolic link encountered: \"" + s.path + "\""), s)
  {
    assert VisitSubdir(ctx, st, s) == EnterSubdir(ctx, st, s);
  }

  /**
   * A skipped directory, even one that also matches a separate pattern, leaves its header and
   * `[SKIPPED]` in the current writer and nothing else: no file is opened, every other file
   * keeps its lines, no log or error is written, and, when the writer is a file, standard
   * output is untouched. None of its descendants appears anywhere.
   */
  lemma SkippedMarked(ctx: Ctx, st: State, s: Dir)
    requires Valid(Env(ctx), st) && NotOwnOutput(ctx, s)
    requires s.attrs.Success? && !IsJunctionPoint(s.attrs.value) && AnyMatches(s.path, ctx.cfg.skipDirs, ctx.isMatch)
    ensures var r := VisitSubdir(ctx, st, s);
      && Lines(r, st.current) == Lines(st, st.current) + [DirHeader(ctx.cfg.legacy, s.path), Skipped]
      && r.data == st.data && r.current == st.current && Counted(st, r, Tally(0, 0))
      && r.logs == st.logs && r.err == st.err
      && |r.files| == |st.files|
      && (forall id :: 0 <= id < |st.files| && st.current != ToFile(id) ==> r.files[id] == st.files[id])
      && (st.current != ConsoleOut ==> r.out == st.out)
  {
    MarkedSpec(ctx, st, s.path, Skipped);
    assert VisitSubdir(ctx, st, s) == Marked(ctx.cfg, st, s.path, Skipped);
  }

  /**
   * In file mode a separated directory leaves its header and `[SEPARATED]` in the current data
   * file, which gets nothing more from the subtree; afterwards the stack and the current writer
   * are back to what they were.
   */
  lemma SeparatedMarked(ctx: Ctx, st: State, s: Dir)
    requires Valid(Env(ctx), st) && st.data != [] && ToFiles(ctx) && NotOwnOutput(ctx, s)
    requires s.attrs.Success? && !IsJunctionPoint(s.attrs.value) && !AnyMatches(s.path, ctx.cfg.skipDirs, ctx.isMatch)
    requires AnyMatches(s.path, ctx.cfg.separateDirs, ctx.isMatch)
    ensures var r := VisitSubdir(ctx, st, s);
      && Lines(r, st.current) == Lines(st, st.current) + [DirHeader(ctx.cfg.legacy, s.path), Separated]
      && r.data == st.data && r.current == st.current
  {
    var st1 := WarnIfLink(ctx, st, s.path, s.attrs.value.reparsePoint);
    WarnIfLinkSpec(ctx, st, s.path, s.attrs.value.reparsePoint);
    SeparateKeepsParent(ctx, st1, s);
    assert VisitSubdir(ctx, st, s) == EnterSubdir(ctx, st, s);
    assert EnterSubdir(ctx, st, s) == ListOrSeparate(ctx, st1, s);
  }

  lemma SeparateKeepsParent(ctx: Ctx, st: State, s: Dir)
    requires Valid(Env(ctx), st) && st.data != [] && ToFiles(ctx) && AnyMatches(s.path, ctx.cfg.separateDirs, ctx.isMatch)
    ensures var r := ListOrSeparate(ctx, st, s);
      && Lines(r, st.current) == Lines(st, st.current) + [DirHeader(ctx.cfg.legacy, s.path), Separated]
      && r.data == st.data && r.current == st.current
  {
    var st2 := Marked(ctx.cfg, st, s.path, Separated);
    MarkedSpec(ctx, st, s.path, Separated);
    SeparateAddsNothing(ctx, st2, s);
  }

  /** The separated subtree goes to its own data file, or nowhere when that cannot be opened; the parent's file is untouched. */
  lemma SeparateAddsNothing(ctx: Ctx, st: State, s: Dir)
    requires Valid(Env(ctx), st) && st.data != [] && ToFiles(ctx)
    ensures var r := Separate(ctx, st, s);
      Lines(r, st.current) == Lines(st, st.current) && r.data == st.data && r.current == st.current
  {
    SeparateSpec(ctx, st, s);
    var r := Separate(ctx, st, s);
    var top := st.data[|st.data| - 1];
    assert r.files[top] == st.files[top];
  }

  // ---------------------------------------------------------------------------
  // On the console the separate patterns have no effect

  /** The same listing without separate patterns. */
  function NoSeparate(ctx: Ctx): Ctx
  {
    ctx.(cfg := ctx.cfg.(separateDirs := None))
  }

  lemma {:induction false} FilesLoopIgnoresSeparate(ctx: Ctx, st: State, files: seq<FileEntry>)
    ensures FilesLoop(ctx, st, files) == FilesLoop(NoSeparate(ctx), st, files)
  {
    if files != [] {
      FilesLoopIgnoresSeparate(ctx, st, files[..|files| - 1]);
    }
  }

  /**
   * When the listing writes to the console, every directory is listed exactly as it would be
   * with no separate patterns at all: a separate pattern only matters in file mode.
   */
  lemma {:induction false} ConsoleIgnoresSeparate(ctx: Ctx, st: State, d: Dir)
    requires !ToFiles(ctx)
    ensures ListDir(ctx, st, d) == ListDir(NoSeparate(ctx), st, d)
    decreases d, 1, 0
  {
    if d.listFault.None? {
      if ShowsHeader(ctx.cfg, d) && |d.files| > 0 {
        FilesLoopIgnoresSeparate(ctx, WriteData(st, DirHeader(ctx.cfg.legacy, d.path)), d.files);
      }
      assert OwnListing(ctx, st, d) == OwnListing(NoSeparate(ctx), st, d);
      SubdirsIgnoreSeparate(ctx, OwnListing(ctx, st, d), d, |d.subdirs|);
    }
  }

  lemma {:induction false} SubdirsIgnoreSeparate(ctx: Ctx, st: State, d: Dir, k: nat)
    requires !ToFiles(ctx) && k <= |d.subdirs|
    ensures SubdirsUpTo(ctx, st, d, k) == SubdirsUpTo(NoSeparate(ctx), st, d, k)
    decreases d, 0, k
  {
    if k > 0 {
      SubdirsIgnoreSeparate(ctx, st, d, k - 1);
      VisitIgnoresSeparate(ctx, SubdirsUpTo(ctx, st, d, k - 1), d.subdirs[k - 1]);
    }
  }

  lemma {:induction false} VisitIgnoresSeparate(ctx: Ctx, st: State, s: Dir)
    requires !ToFiles(ctx)
    ensures VisitSubdir(ctx, st, s) == VisitSubdir(NoSeparate(ctx), st, s)
    decreases s, 3, 0
  {
    if s.attrs.Success? && !IsJunctionPoint(s.attrs.value) && !AnyMatches(s.path, ctx.cfg.skipDirs, ctx.isMatch) {
      var st1 := WarnIfLink(ctx, st, s.path, s.attrs.value.reparsePoint);
      assert WarnIfLink(NoSeparate(ctx), st, s.path, s.attrs.value.reparsePoint) == st1;
      assert EnterSubdir(ctx, st, s) == ListDir(ctx, st1, s);
      assert EnterSubdir(NoSeparate(ctx), st, s) == ListDir(NoSeparate(ctx), st1, s);
      ConsoleIgnoresSeparate(ctx, st1, s);
    }
  }
}
