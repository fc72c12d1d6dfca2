/**
 * The output router of `Lister`: the stack of data files (`_dataFileOutputs`) with its cached
 * current writer (`_currentDataFileWriter`), the registry of log files (`_logFileOutputs`), and
 * the console streams. Every `FileOutput` ever opened is an entry of `files`, named by its index;
 * the stack and the registry hold such indices.
 */
module Output {
  import Paths

  /** The size column of a file line: the symbolic-link marker or the byte count. */
  datatype SizeField = SymlinkMarker | Bytes(n: nat)

  /** One line written through a `TextWriter` or a `FileOutput`. */
  datatype Line =
    | DirHeader(legacy: bool, dir: string)           // WriteDirHeader
    | FileLine(legacy: bool, stamp: string, size: SizeField, name: string)
    | NoFiles                                        // "[NO FILES]"
    | Skipped                                        // "[SKIPPED]"
    | Separated                                      // "[SEPARATED]"
    | FileTotal(count: nat, bytes: nat)              // "{0, 16} File(s) {1, 14:N0} bytes"
    | TotalHeading                                   // "\n     Total Files Listed:"
    | RootSeparator                                  // the dashed line between roots
    | Stats(root: string, count: nat, bytes: nat, toFile: bool)   // the statistics block
    | Msg(text: string)                              // a log message

  /** A writer: the console, an opened file, or `null` (after `Cleanup`). */
  datatype Writer = ConsoleOut | ToFile(id: nat) | NoWriter

  /** Why a file was opened: the listing of a directory, or the log of a kind (its file name). */
  datatype FileKind = DataFile(dir: string) | LogFile(name: string)

  /** A `FileOutput`: where it was opened, what for, the lines written to it, and whether it is still open. */
  datatype FileRec = FileRec(path: string, kind: FileKind, lines: seq<Line>, open: bool)

  /** The optional `altOutput` of `WriteLogOutput`. */
  datatype Alt = NoAlt | ToStdErr | ToStdOut

  /** The fields of `Lister` that the listing changes. */
  datatype State = State(
    files: seq<FileRec>,
    data: seq<nat>,             // _dataFileOutputs, bottom first (null is modelled as empty)
    current: Writer,            // _currentDataFileWriter
    logs: map<string, nat>,     // _logFileOutputs (null is modelled as empty)
    out: seq<Line>,             // Console.Out
    err: seq<Line>,             // Console.Error
    fileCount: nat,             // _listingFileCount
    byteCount: nat)             // _listingByteCount

  /** `_listingOutputPath`, and the paths `File.Open` refuses with their exception messages. */
  datatype OutEnv = OutEnv(outputPath: string, openFaults: map<string, string>)

  /** `IsOutputToFile`. */
  predicate IsOutputToFile(env: OutEnv)
  {
    env.outputPath != ""
  }

  const ErrorsFile: string := "_ERRORS.txt"
  const WarningsFile: string := "_WARNINGS.txt"
  const ConfigFile: string := "_CONFIG.json"
  const StatsFile: string := "_STATS.txt"

  /** The writer the top of the stack supplies, `Console.Out` for an empty stack. */
  function Top(data: seq<nat>): Writer
  {
    if data == [] then ConsoleOut else ToFile(data[|data| - 1])
  }

  function AppendFile(files: seq<FileRec>, id: nat, line: Line): seq<FileRec>
  {
    if id < |files| then files[id := files[id].(lines := files[id].lines + [line])] else files
  }

  /** `w.WriteLine(line)`. */
  function WriteTo(st: State, w: Writer, line: Line): State
  {
    match w
    case ConsoleOut => st.(out := st.out + [line])
    case ToFile(id) => st.(files := AppendFile(st.files, id, line))
    case NoWriter => st
  }

  /** `_currentDataFileWriter.WriteLine(line)`. */
  function WriteData(st: State, line: Line): State
  {
    WriteTo(st, st.current, line)
  }

  /** The lines writer `w` has received. */
  function Lines(st: State, w: Writer): seq<Line>
  {
    match w
    case ConsoleOut => st.out
    case ToFile(id) => if id < |st.files| then st.files[id].lines else []
    case NoWriter => []
  }

  /** The file half of `WriteLogOutput`: in file mode, open the kind's log file on first use and append. */
  function LogToFile(env: OutEnv, st: State, msg: Line, name: string): State
  {
    if !IsOutputToFile(env) then st
    else if name in st.logs then st.(files := AppendFile(st.files, st.logs[name], msg))
    else st.(files := st.files + [FileRec(Paths.Combine(env.outputPath, name), LogFile(name), [msg], true)],
             logs := st.logs[name := |st.files|])
  }

  /** `WriteLogOutput(msg, name, alt)`: log to the kind's file, then mirror to `alt`. */
  function WriteLog(env: OutEnv, st: State, msg: Line, name: string, alt: Alt): State
  {
    var st1 := LogToFile(env, st, msg, name);
    match alt
    case NoAlt => st1
    case ToStdErr => st1.(err := st1.err + [msg])
    case ToStdOut => st1.(out := st1.out + [msg])
  }

  function WriteError(env: OutEnv, st: State, text: string): State
  {
    WriteLog(env, st, Msg(text), ErrorsFile, ToStdErr)
  }

  function WriteWarning(env: OutEnv, st: State, text: string): State
  {
    WriteLog(env, st, Msg(text), WarningsFile, NoAlt)
  }

  function WriteConfig(env: OutEnv, st: State, text: string): State
  {
    WriteLog(env, st, Msg(text), ConfigFile, NoAlt)
  }

  function WriteStats(env: OutEnv, st: State, stats: Line): State
  {
    WriteLog(env, st, stats, StatsFile, ToStdOut)
  }

  /** The path `PushDataFileOutput(dir)` opens. */
  function DataFilePath(env: OutEnv, dir: string): string
  {
    Paths.Combine(env.outputPath, Paths.PathToFilename(dir))
  }

  /** `PushDataFileOutput(dir)`: open the directory's data file and make it current, or log the failure. */
  function Push(env: OutEnv, st: State, dir: string): (bool, State)
    requires IsOutputToFile(env)
  {
    var p := DataFilePath(env, dir);
    if p in env.openFaults then
      (false, WriteError(env, st, "ERROR: failed to create output file for \"" + dir + "\": " + env.openFaults[p]))
    else
      (true, st.(files := st.files + [FileRec(p, DataFile(dir), [], true)],
                 data := st.data + [|st.files|],
                 current := ToFile(|st.files|)))
  }

  function Close(files: seq<FileRec>, id: nat): seq<FileRec>
  {
    if id < |files| then files[id := files[id].(open := false)] else files
  }

  /** `PopDataFileOutput()`: close the top data file and make the one below (or the console) current. */
  function Pop(st: State): (bool, State)
  {
    if st.data == [] then (false, st)
    else
      var rest := st.data[..|st.data| - 1];
      (true, st.(files := Close(st.files, st.data[|st.data| - 1]), data := rest, current := Top(rest)))
  }

  /** `while (PopDataFileOutput()) { }`. */
  function PopAll(st: State): State
    decreases |st.data|
  {
    if st.data == [] then st else PopAll(Pop(st).1)
  }

  /** The values of the registry. */
  function LogIds(logs: map<string, nat>): set<nat>
  {
    set k | k in logs :: logs[k]
  }

  function CloseAll(files: seq<FileRec>, ids: set<nat>): seq<FileRec>
  {
    seq(|files|, i requires 0 <= i < |files| => if i in ids then files[i].(open := false) else files[i])
  }

  /** Closing one more file after some are closed. */
  lemma CloseAllStep(files: seq<FileRec>, ids: set<nat>, id: nat)
    ensures Close(CloseAll(files, ids), id) == CloseAll(files, ids + {id})
  {
  }

  /** `Cleanup()`: pop every data file, drop the writer, close and forget every log file. */
  function Cleanup(env: OutEnv, st: State): State
  {
    if !IsOutputToFile(env) then st
    else
      var st1 := PopAll(st);
      st1.(files := CloseAll(st1.files, LogIds(st1.logs)), current := NoWriter, logs := map[])
  }

  // ---------------------------------------------------------------------------
  // The invariant of the router

  /** The stack: open data files, pushed in order, the top one current. */
  ghost predicate StackOk(st: State)
  {
    match st
    case State(files, data, current, _, _, _, _, _) =>
      && (forall i :: 0 <= i < |data| ==> data[i] < |files| && files[data[i]].open && files[data[i]].kind.DataFile?)
      && (forall i, j :: 0 <= i < j < |data| ==> data[i] < data[j])
      && current == Top(data)
  }

  /** The registry: each kind names its one open, non-empty log file inside the output directory. */
  ghost predicate RegistryOk(env: OutEnv, st: State)
  {
    match st
    case State(files, _, _, logs, _, _, _, _) =>
      && (forall k :: k in logs ==>
            && logs[k] < |files|
            && files[logs[k]].kind == LogFile(k)
            && files[logs[k]].path == Paths.Combine(env.outputPath, k)
            && files[logs[k]].open
            && files[logs[k]].lines != [])
      && (forall id :: 0 <= id < |files| && files[id].kind.LogFile? ==>
            files[id].kind.name in logs && logs[files[id].kind.name] == id)
  }

  /** Every open data file is on the stack; nothing is opened when writing to the console. */
  ghost predicate Accounted(env: OutEnv, st: State)
  {
    match st
    case State(files, data, _, _, _, _, _, _) =>
      && (forall id :: 0 <= id < |files| && files[id].kind.DataFile? && files[id].open ==> id in data)
      && (!IsOutputToFile(env) ==> files == [])
  }

  /** The router's invariant. */
  ghost predicate Valid(env: OutEnv, st: State)
  {
    StackOk(st) && RegistryOk(env, st) && Accounted(env, st)
  }

  /** No two files were ever opened for the same log kind. */
  ghost predicate UniqueLogKinds(st: State)
  {
    forall i, j :: 0 <= i < j < |st.files| && st.files[i].kind.LogFile? ==> st.files[i].kind != st.files[j].kind
  }

  ghost predicate AllClosed(st: State)
  {
    forall id :: 0 <= id < |st.files| ==> !st.files[id].open
  }

  // ---------------------------------------------------------------------------
  // Properties of the operations

  lemma ValidUniqueLogKinds(env: OutEnv, st: State)
    requires Valid(env, st)
    ensures UniqueLogKinds(st)
  {
    forall i, j | 0 <= i < j < |st.files| && st.files[i].kind.LogFile?
      ensures st.files[i].kind != st.files[j].kind
    {
      assert st.logs[st.files[i].kind.name] == i;
    }
  }

  /** The current writer and the log files are different targets. */
  lemma LogIsNotCurrent(env: OutEnv, st: State, k: string)
    requires Valid(env, st) && k in st.logs
    ensures st.current != ToFile(st.logs[k])
  {
    if st.data != [] {
      assert st.files[st.data[|st.data| - 1]].kind.DataFile?;
    }
  }

  /** `b` holds the same files as `a`, each with at least the lines it had. */
  ghost predicate Grown(a: seq<FileRec>, b: seq<FileRec>)
  {
    |a| == |b| &&
    forall i :: 0 <= i < |a| ==>
      b[i].path == a[i].path && b[i].kind == a[i].kind && b[i].open == a[i].open && |a[i].lines| <= |b[i].lines|
  }

  /**
   * `b` extends `a`: no file is dropped, and each keeps its path and kind and only gains lines
   * at its end.
   */
  ghost predicate Extends(a: seq<FileRec>, b: seq<FileRec>)
  {
    |a| <= |b| &&
    forall i :: 0 <= i < |a| ==> b[i].path == a[i].path && b[i].kind == a[i].kind && a[i].lines <= b[i].lines
  }

  lemma ExtendsTrans(a: seq<FileRec>, b: seq<FileRec>, c: seq<FileRec>)
    requires Extends(a, b) && Extends(b, c)
    ensures Extends(a, c)
  {
    forall i | 0 <= i < |a| ensures a[i].lines <= c[i].lines {
      PrefixTrans(a[i].lines, b[i].lines, c[i].lines);
    }
  }

  /** A prefix of a prefix is a prefix. */
  lemma PrefixTrans(x: seq<Line>, y: seq<Line>, z: seq<Line>)
    requires x <= y && y <= z
    ensures x <= z
  {
    assert x == y[..|x|];
    assert y == z[..|y|];
    assert z[..|y|][..|x|] == z[..|x|];
  }

  /** The last element of a non-empty sequence. */
  function Last<T>(s: seq<T>): T
    requires s != []
  {
    s[|s| - 1]
  }

  lemma AppendFileGrown(files: seq<FileRec>, id: nat, line: Line)
    ensures var r := AppendFile(files, id, line);
      && Grown(files, r) && Extends(files, r)
      && (forall i :: 0 <= i < |files| && i != id ==> r[i] == files[i])
      && (id < |files| ==> r[id].lines == files[id].lines + [line])
  {
  }

  /** Appending lines to files keeps the invariant. */
  lemma GrownValid(env: OutEnv, st: State, files: seq<FileRec>)
    requires Valid(env, st) && Grown(st.files, files)
    ensures Valid(env, st.(files := files))
  {
    var r := st.(files := files);
    assert StackOk(r);
    forall k | k in r.logs ensures r.files[r.logs[k]].lines != [] {
      assert |st.files[st.logs[k]].lines| <= |files[st.logs[k]].lines|;
    }
    assert RegistryOk(env, r);
  }

  /** Writing a data line appends it to the current writer and changes nothing else. */
  lemma WriteDataSpec(env: OutEnv, st: State, line: Line)
    requires Valid(env, st)
    ensures var r := WriteData(st, line);
      && Valid(env, r) && Extends(st.files, r.files)
      && Lines(r, st.current) == Lines(st, st.current) + [line]
      && r.data == st.data && r.current == st.current && r.logs == st.logs && r.err == st.err
      && |r.files| == |st.files|
      && (forall id :: 0 <= id < |st.files| && st.current != ToFile(id) ==> r.files[id] == st.files[id])
      && (st.current != ConsoleOut ==> r.out == st.out)
      && r.fileCount == st.fileCount && r.byteCount == st.byteCount
  {
    match st.current
    case ToFile(id) =>
      AppendFileGrown(st.files, id, line);
      GrownValid(env, st, AppendFile(st.files, id, line));
    case _ =>
  }

  lemma LogToFileSpec(env: OutEnv, st: State, msg: Line, name: string)
    requires Valid(env, st)
    ensures var r := LogToFile(env, st, msg, name);
      && Valid(env, r) && Extends(st.files, r.files)
      && r.data == st.data && r.current == st.current && r.out == st.out && r.err == st.err
      && r.fileCount == st.fileCount && r.byteCount == st.byteCount
      && (!IsOutputToFile(env) ==> r == st)
      && (IsOutputToFile(env) ==>
            && r.logs.Keys == st.logs.Keys + {name}
            && (forall k :: k in st.logs ==> r.logs[k] == st.logs[k])
            && |r.files| == |st.files| + (if name in st.logs then 0 else 1)
            && r.files[r.logs[name]].lines == (if name in st.logs then st.files[st.logs[name]].lines else []) + [msg])
      && (forall id :: 0 <= id < |st.files| && !(name in st.logs && id == st.logs[name]) ==> r.files[id] == st.files[id])
  {
    if IsOutputToFile(env) && name in st.logs {
      AppendFileGrown(st.files, st.logs[name], msg);
      GrownValid(env, st, AppendFile(st.files, st.logs[name], msg));
    } else if IsOutputToFile(env) {
      NewLogValid(env, st, msg, name);
    }
  }

  /** Opening the log file of a kind not yet registered keeps the invariant. */
  lemma NewLogValid(env: OutEnv, st: State, msg: Line, name: string)
    requires Valid(env, st) && IsOutputToFile(env) && name !in st.logs
    ensures Valid(env, LogToFile(env, st, msg, name))
  {
    var r := LogToFile(env, st, msg, name);
    forall id | 0 <= id < |r.files| && r.files[id].kind.LogFile?
      ensures r.files[id].kind.name in r.logs && r.logs[r.files[id].kind.name] == id
    {
      if id < |st.files| {
        assert st.files[id].kind.name in st.logs;
      }
    }
    assert RegistryOk(env, r);
    assert StackOk(r);
  }

  /**
   * A log message: in file mode the kind's one file is created on the first message and appended
   * to afterwards; on the console no file is created; the message is mirrored to the given stream
   * only; the stack and every other file are untouched.
   */
  lemma WriteLogSpec(env: OutEnv, st: State, msg: Line, name: string, alt: Alt)
    requires Valid(env, st)
    ensures var r := WriteLog(env, st, msg, name, alt);
      && Valid(env, r) && Extends(st.files, r.files)
      && r.data == st.data && r.current == st.current
      && r.fileCount == st.fileCount && r.byteCount == st.byteCount
      && r.err == st.err + (if alt == ToStdErr then [msg] else [])
      && r.out == st.out + (if alt == ToStdOut then [msg] else [])
      && (!IsOutputToFile(env) ==> r.files == st.files && r.logs == st.logs)
      && (IsOutputToFile(env) ==>
            && r.logs.Keys == st.logs.Keys + {name}
            && (forall k :: k in st.logs ==> r.logs[k] == st.logs[k])
            && |r.files| == |st.files| + (if name in st.logs then 0 else 1)
            && r.files[r.logs[name]].lines == (if name in st.logs then st.files[st.logs[name]].lines else []) + [msg])
      && (forall id :: 0 <= id < |st.files| && !(name in st.logs && id == st.logs[name]) ==> r.files[id] == st.files[id])
  {
    LogToFileSpec(env, st, msg, name);
  }

  /** An error goes to the errors log (in file mode) and always to standard error. */
  lemma WriteErrorSpec(env: OutEnv, st: State, text: string)
    requires Valid(env, st)
    ensures var r := WriteError(env, st, text);
      Valid(env, r) && Extends(st.files, r.files) && r.err == st.err + [Msg(text)] && r.out == st.out && r.data == st.data
      && r.current == st.current
  {
    WriteLogSpec(env, st, Msg(text), ErrorsFile, ToStdErr);
  }

  /**
   * A push that succeeds adds exactly one open data file on top of the stack and makes it
   * current; a push that fails leaves the stack and the writer as they were and logs an error.
   */
  lemma PushSpec(env: OutEnv, st: State, dir: string)
    requires IsOutputToFile(env) && Valid(env, st)
    ensures var (ok, r) := Push(env, st, dir);
      && Valid(env, r) && Extends(st.files, r.files)
      && (ok <==> DataFilePath(env, dir) !in env.openFaults)
      && (ok ==>
            && r.data == st.data + [|st.files|]
            && r.current == ToFile(|st.files|)
            && r.files == st.files + [FileRec(DataFilePath(env, dir), DataFile(dir), [], true)]
            && r.logs == st.logs && r.out == st.out && r.err == st.err)
      && (!ok ==> r.data == st.data && r.current == st.current && |r.err| == |st.err| + 1 && r.out == st.out && |st.files| <= |r.files|)
      && r.fileCount == st.fileCount && r.byteCount == st.byteCount
  {
    var p := DataFilePath(env, dir);
    if p in env.openFaults {
      WriteLogSpec(env, st, Msg("ERROR: failed to create output file for \"" + dir + "\": " + env.openFaults[p]), ErrorsFile, ToStdErr);
    } else {
      PushedValid(env, st, dir);
    }
  }

  /** A push whose file opens keeps the invariant and every file opened before. */
  lemma PushedValid(env: OutEnv, st: State, dir: string)
    requires IsOutputToFile(env) && Valid(env, st) && DataFilePath(env, dir) !in env.openFaults
    ensures Valid(env, Push(env, st, dir).1) && Extends(st.files, Push(env, st, dir).1.files)
  {
    var r := Push(env, st, dir).1;
    assert r.files[..|st.files|] == st.files;
    forall id | 0 <= id < |r.files| && r.files[id].kind.DataFile? && r.files[id].open
      ensures id in r.data
    {
      if id < |st.files| {
        assert id in st.data;
      }
    }
    assert Accounted(env, r);
    assert StackOk(r);
    assert RegistryOk(env, r);
  }

  /**
   * A pop on an empty stack reports false and changes nothing; otherwise it closes the top file,
   * removes it, and makes the new top (or the console) current.
   */
  lemma PopSpec(env: OutEnv, st: State)
    requires Valid(env, st)
    ensures var (ok, r) := Pop(st);
      && Valid(env, r) && Extends(st.files, r.files)
      && (ok <==> st.data != [])
      && (!ok ==> r == st)
      && (ok ==>
            && r.data == st.data[..|st.data| - 1]
            && !r.files[st.data[|st.data| - 1]].open
            && r.current == (if r.data == [] then ConsoleOut else ToFile(r.data[|r.data| - 1]))
            && |r.files| == |st.files|
            && (forall id :: 0 <= id < |st.files| ==> r.files[id].lines == st.files[id].lines)
            && (forall id :: 0 <= id < |st.files| && id != st.data[|st.data| - 1] ==> r.files[id] == st.files[id]))
      && r.logs == st.logs && r.out == st.out && r.err == st.err
      && r.fileCount == st.fileCount && r.byteCount == st.byteCount
  {
    if st.data != [] {
      PopValid(env, st);
    }
  }

  lemma PopValid(env: OutEnv, st: State)
    requires Valid(env, st) && st.data != []
    ensures Valid(env, Pop(st).1)
  {
    var top := st.data[|st.data| - 1];
    var r := Pop(st).1;
    assert StackOk(r);
    forall id | 0 <= id < |r.files| && r.files[id].kind.DataFile? && r.files[id].open
      ensures id in r.data
    {
      assert id in st.data;
      var i :| 0 <= i < |st.data| && st.data[i] == id;
      assert i < |st.data| - 1;
      assert r.data[i] == id;
    }
    assert Accounted(env, r);
    forall k | k in r.logs ensures r.files[r.logs[k]].open {
      assert st.files[top].kind.DataFile?;
    }
    assert RegistryOk(env, r);
  }

  lemma {:induction false} PopAllSpec(env: OutEnv, st: State)
    requires Valid(env, st)
    ensures var r := PopAll(st);
      && Valid(env, r)
      && r.data == [] && r.current == ConsoleOut
      && r.logs == st.logs && r.out == st.out && r.err == st.err
      && |r.files| == |st.files|
      && (forall id :: 0 <= id < |st.files| ==> r.files[id].lines == st.files[id].lines && r.files[id].kind == st.files[id].kind)
      && (forall k :: k in st.logs ==> r.files[st.logs[k]].open)
    decreases |st.data|
  {
    if st.data != [] {
      PopSpec(env, st);
      var s1 := Pop(st).1;
      forall k | k in st.logs ensures s1.files[st.logs[k]].open {
        assert st.files[st.data[|st.data| - 1]].kind.DataFile?;
      }
      PopAllSpec(env, s1);
    }
  }

  /**
   * After `Cleanup` no data file and no log file is open, the stack and the registry are empty,
   * and nothing written is lost; on the console it changes nothing.
   */
  lemma CleanupSpec(env: OutEnv, st: State)
    requires Valid(env, st)
    ensures var r := Cleanup(env, st);
      && AllClosed(r)
      && UniqueLogKinds(r)
      && r.data == [] && r.logs == map[]
      && r.current == (if IsOutputToFile(env) then NoWriter else st.current)
      && |r.files| == |st.files|
      && (forall id :: 0 <= id < |st.files| ==> r.files[id].lines == st.files[id].lines && r.files[id].kind == st.files[id].kind)
      && r.out == st.out && r.err == st.err
      && (!IsOutputToFile(env) ==> r == st)
  {
    if IsOutputToFile(env) {
      PopAllSpec(env, st);
      CloseLogsSpec(env, PopAll(st));
    } else {
      ValidUniqueLogKinds(env, st);
      assert st.files == [];
    }
  }

  /** With the stack empty, closing the registered log files closes every file. */
  lemma CloseLogsSpec(env: OutEnv, st: State)
    requires Valid(env, st) && st.data == []
    ensures var r := st.(files := CloseAll(st.files, LogIds(st.logs)), current := NoWriter, logs := map[]);
      AllClosed(r) && UniqueLogKinds(r)
  {
    ValidUniqueLogKinds(env, st);
    var r := st.(files := CloseAll(st.files, LogIds(st.logs)), current := NoWriter, logs := map[]);
    forall id | 0 <= id < |r.files| ensures !r.files[id].open {
      if st.files[id].kind.LogFile? {
        assert st.logs[st.files[id].kind.name] == id;
        assert id in LogIds(st.logs);
      } else {
        assert id !in st.data;
      }
    }
    assert UniqueLogKinds(r) by {
      forall i, j | 0 <= i < j < |r.files| && r.files[i].kind.LogFile?
        ensures r.files[i].kind != r.files[j].kind
      {
        assert st.files[i].kind != st.files[j].kind;
      }
    }
  }
}
