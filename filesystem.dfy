/** An abstract, read-only snapshot of the filesystem: the only things the tree builder and the
    file printer ask of it are `os.listdir`, `os.path.isdir`, `os.path.isfile` and `open(...).read()`. */
module FileSystem {

  /** What reading a regular file yields: its text, or the message of the exception raised
      while opening or decoding it (permission denied, undecodable bytes, ...). */
  datatype Contents = Text(text: string) | Unreadable(reason: string)

  /** An entry name as `os.listdir` returns it: never empty, never containing a separator. */
  type Name = s: string | s != [] && '/' !in s witness "_"

  datatype Entry =
    | RegularFile(contents: Contents)
    | Directory(listing: seq<Name>)  // `os.listdir` in the order the OS returns it

  /** Absolute path to entry; a path absent from the map does not exist. */
  type Fs = map<string, Entry>

  /** `os.path.isdir(p)`. */
  predicate IsDir(fs: Fs, p: string)
  {
    p in fs && fs[p].Directory?
  }

  /** `os.path.isfile(p)`. */
  predicate IsFile(fs: Fs, p: string)
  {
    p in fs && fs[p].RegularFile?
  }

  /** `os.listdir(p)` on a directory. */
  function ListDir(fs: Fs, p: string): seq<Name>
    requires IsDir(fs, p)
  {
    fs[p].listing
  }

  /** `open(p, 'r').read()`, with the text of the exception when it fails. */
  function Read(fs: Fs, p: string): (c: Contents)
    ensures IsFile(fs, p) ==> c == fs[p].contents
    ensures !IsFile(fs, p) ==> c.Unreadable?
  {
    if p !in fs then Unreadable("[Errno 2] No such file or directory: '" + p + "'")
    else match fs[p]
      case RegularFile(contents) => contents
      case Directory(_) => Unreadable("[Errno 21] Is a directory: '" + p + "'")
  }
}
