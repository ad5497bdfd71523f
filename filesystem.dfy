/** The file system as the response builder sees it: a map from path
    strings to nodes, queried through the calls the server makes (access,
    stat, an ifstream open and read, opendir and readdir).  Paths are not
    normalised: two spellings of one file are two keys.  The empty path
    names nothing, as for the real calls. */
module Fs {
  import opened Wrappers
  import opened Strings

  /** One readdir entry: d_name and whether d_type is DT_DIR. */
  datatype DirEntry = DirEntry(name: string, isDir: bool)

  /** What the calls report about one path: its kind and permissions,
      whether an ifstream opens it and what reading it yields, what readdir
      lists when it is a directory opendir accepts, and what stat reports
      (st_size, and st_mtime already formatted by strftime). */
  datatype Node = Node(
    isDir: bool,
    readable: bool,
    executable: bool,
    opens: bool,
    content: string,
    listing: Option<seq<DirEntry>>,
    size: nat,
    mtime: string)

  type FileSystem = map<string, Node>

  /** access(p, F_OK) == 0, and stat(p) succeeds. */
  predicate Exists(fs: FileSystem, p: string)
  {
    p != "" && p in fs
  }

  /** access(p, R_OK) == 0. */
  predicate Readable(fs: FileSystem, p: string)
  {
    Exists(fs, p) && fs[p].readable
  }

  /** access(p, X_OK) == 0. */
  predicate Executable(fs: FileSystem, p: string)
  {
    Exists(fs, p) && fs[p].executable
  }

  /** _isDirectory: stat succeeds and S_ISDIR holds. */
  predicate IsDirectory(fs: FileSystem, p: string)
  {
    Exists(fs, p) && fs[p].isDir
  }

  /** std::ifstream file(p) followed by reading its whole buffer: the bytes,
      or None when the stream does not open. */
  function ReadFile(fs: FileSystem, p: string): (r: Option<string>)
    ensures r.Some? <==> Exists(fs, p) && fs[p].opens
    ensures r.Some? ==> r.value == fs[p].content
  {
    if Exists(fs, p) && fs[p].opens then Some(fs[p].content) else None
  }

  /** opendir(p) and readdir until it returns NULL: the entries in the
      order readdir yields them, or None when opendir fails. */
  function ReadDir(fs: FileSystem, p: string): (r: Option<seq<DirEntry>>)
    ensures r.Some? <==> Exists(fs, p) && fs[p].listing.Some?
    ensures r.Some? ==> r.value == fs[p].listing.value
  {
    if Exists(fs, p) then fs[p].listing else None
  }

  /** stat(p): st_size and the formatted st_mtime, or None when it fails. */
  function Stat(fs: FileSystem, p: string): (r: Option<(nat, string)>)
    ensures r.Some? <==> Exists(fs, p)
    ensures r.Some? ==> r.value == (fs[p].size, fs[p].mtime)
  {
    if Exists(fs, p) then Some((fs[p].size, fs[p].mtime)) else None
  }
}
