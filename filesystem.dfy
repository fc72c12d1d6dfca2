/**
 * The file system as `Lister` sees it through `Directory`, `FileInfo` and `DirectoryInfo`:
 * a tree of directories whose entries carry their metadata, or the exception reading it raises.
 */
module FileSystem {
  import opened Wrappers

  /** The exception classes the catch blocks of `ListHelper` tell apart. */
  datatype FaultKind =
    | SecurityFault     // System.Security.SecurityException
    | AccessDenied      // System.UnauthorizedAccessException
    | PathTooLong       // System.IO.PathTooLongException
    | OtherFault        // any other exception

  /** A raised exception: its class and its `Message`. */
  datatype Fault = Fault(kind: FaultKind, message: string)

  /** The `FileAttributes` flags the listing looks at. */
  datatype Attrs = Attrs(hidden: bool, system: bool, reparsePoint: bool)

  /**
   * What reading a file's metadata yields: `new FileInfo(file)` throws, or the later read of
   * `fi.Length` throws, or the length, the reparse-point flag and the formatted last-write time.
   */
  datatype FileInfo =
    | InfoFault(fault: Fault)
    | LengthFault(fault: Fault)
    | Info(length: nat, reparsePoint: bool, stamp: string)

  /** One entry of `Directory.GetFiles`: its file name and its metadata. */
  datatype FileEntry = FileEntry(name: string, info: FileInfo)

  /**
   * A directory: its path as `Directory.GetDirectories` returns it, its attributes (or the
   * exception `DirectoryInfo.Attributes` raises), the exception `GetFiles`/`GetDirectories`
   * raise if any, and its files and subdirectories in sorted order.
   */
  datatype Dir = Dir(path: string, attrs: Result<Attrs, Fault>, listFault: Option<Fault>,
                     files: seq<FileEntry>, subdirs: seq<Dir>)

  /** `IsJunctionPoint`: hidden, system and reparse point together. */
  predicate IsJunctionPoint(a: Attrs)
  {
    a.hidden && a.system && a.reparsePoint
  }

  /** The three try blocks of `ListHelper`, whose catch clauses route faults differently. */
  datatype Site = AtFile | AtSubdir | AtListing

  /** Whether a fault caught at `site` is logged as a warning (otherwise as an error). */
  predicate IsWarning(site: Site, kind: FaultKind)
  {
    match site
    case AtFile => kind == SecurityFault || kind == AccessDenied
    case AtSubdir => kind == SecurityFault
    case AtListing => kind == AccessDenied
  }

  /**
   * The platform services the listing calls: `Path.GetInvalidFileNameChars()`, the formatted
   * start time, `Directory.GetCurrentDirectory()`, `NormalizePath` (which can throw, e.g. on a
   * relative path given to `Uri`), the paths `Directory.CreateDirectory` and `File.Open` refuse
   * with their messages, the directory trees at the paths `Directory.Exists` accepts, and the
   * serialized configuration.
   */
  datatype Platform = Platform(
    invalidNameChars: set<char>,
    now: string,
    cwd: string,
    normalize: string -> Result<string, Fault>,
    mkdirFaults: map<string, string>,
    openFaults: map<string, string>,
    trees: map<string, Dir>,
    configJson: string)
}
