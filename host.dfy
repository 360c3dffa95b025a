/**
 * What the packager asks of the machine it runs on, as plain values: the
 * answers of `Path.exists`, `Path.is_file` and `os.path.abspath`, and the
 * directory trees that `os.walk` visits.
 */
module Host {
  import opened Wrappers

  /** A directory as `os.walk` lists it: its name, its sub-directories in listing order, and its file names. */
  datatype Dir = Dir(name: string, subdirs: seq<Dir>, filenames: seq<string>)

  /**
   * The filesystem as seen by the packager.  `tree(p)` is the directory found
   * at `p`, or None when `p` is not a directory (`os.walk` then yields nothing).
   */
  datatype FileSystem = FileSystem(
    pathExists: string -> bool,
    isFile: string -> bool,
    absPath: string -> string,
    tree: string -> Option<Dir>)
}
