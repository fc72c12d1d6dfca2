/** The `Config` record, as loaded before the listing starts. */
module Settings {
  import opened Wrappers

  /**
   * `root` and the entries of `roots` use the empty string for both null and empty, since the
   * source treats both alike (`string.IsNullOrEmpty`). `skipDirs` and `separateDirs` hold the
   * regular-expression sources, `None` for a null array.
   */
  datatype Config = Config(
    root: string,
    roots: Option<seq<string>>,
    output: string,
    legacy: bool,
    printEmptyDirs: bool,
    skipDirs: Option<seq<string>>,
    separateDirs: Option<seq<string>>)
}
