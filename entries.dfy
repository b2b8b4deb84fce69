/**
 * The values every part of the copier works on: paths, file-status entries
 * and the failures the copier can raise.
 */
module Entries {

  datatype Option<+T> = None | Some(value: T)

  datatype Result<+T, +E> = Success(value: T) | Failure(error: E)

  /** A path as its list of components; `new Path(parent, name)` appends one. */
  type Path = seq<string>

  /** The last component of a path (`Path.getName()`); the root has the empty name. */
  function Name(p: Path): string
  {
    if p == [] then "" else p[|p| - 1]
  }

  /** `new Path(parent, name)`. */
  function Child(parent: Path, name: string): (p: Path)
    ensures |p| == |parent| + 1 && p[..|parent|] == parent && Name(p) == name
  {
    parent + [name]
  }

  /** `d` is `root` itself or lies somewhere below it. */
  predicate AtOrBelow(d: Path, root: Path)
  {
    |root| <= |d| && d[..|root|] == root
  }

  /** A file status as the source filesystem reports it. */
  datatype Entry = Entry(path: Path, isDir: bool, modificationTime: int, accessTime: int)

  /** The exceptions the copier raises or lets through. */
  datatype Error =
    | IoFailure(at: Path)              // an IOException from the source filesystem or the FTP session
    | ParseFailure(query: string)      // a ParseException from the date parser
    | IllegalTimeArgument(query: string) // the RuntimeException for a query of unusable length
    | PatternSyntax(regex: string)     // Pattern.compile rejected the regular expression
    | IndexOutOfBounds(query: string)  // substring(1, length - 1) on a query shorter than two characters
    | SessionFailure                   // acquiring the FTP client failed
    | Disconnect                       // FTPException("Failed to disconnect") from releasing the client
}
