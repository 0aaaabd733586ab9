/** The values that pass between the walker, the file system and the callback. */
module Entries {

  datatype Option<+T> = None | Some(value: T)

  newtype byte = x: int | 0 <= x < 256

  /** Go strings are sequences of bytes. */
  type Name = seq<byte>

  /** A clean path: the names below the base directory ("/" or "."), which is `[]`. */
  type Path = seq<Name>

  datatype FileType = Regular | Directory | Symlink | Irregular

  datatype FileKey = FileKey(dev: nat, ino: nat)

  /** Go's `error` as the walker tells it apart: nil, the three sentinels, anything else. */
  datatype Error = Nil | SkipDir | SkipFiles | TraverseLink | Failure(code: int)

  datatype DirEnt = DirEnt(name: Name, typ: FileType)

  /** What reading a directory yields: its entries in the order they are visited, and the
      error that ended the reading early (`Nil` if the directory was read to its end). */
  datatype Listing = Listing(entries: seq<DirEnt>, err: Error)

  datatype FileInfo = FileInfo(key: FileKey, typ: FileType)

  /** A static file system as the walker sees it: `list` is open and readdir, `stat` is os.Stat. */
  datatype FileSystem = FileSystem(list: Path -> Listing, stat: Path -> Option<FileInfo>)

  predicate IsPrefix<T(==)>(p: seq<T>, q: seq<T>) {
    |p| <= |q| && q[..|p|] == p
  }

  /** filepath.Dir on a clean path: drops the last name, and is the identity on the base. */
  function Parent(p: Path): Path {
    if p == [] then p else p[..|p| - 1]
  }
}
