/** The in-memory filesystem tree: metadata records, files, and directories whose contents
    and link counts are updated in place while the tree is built. */
module FsTree {
  import opened Bytes
  import opened PyDict

  /** The file-type bits of `st_mode`. */
  const S_IFDIR := 0x4000
  const S_IFREG := 0x8000

  /** Directories are `S_IFDIR | 0o444`, files `S_IFREG | 0o555`. */
  const DIR_MODE := S_IFDIR + 0x124
  const FILE_MODE := S_IFREG + 0x16D

  /** A wall-clock time; the model only stores it. */
  type Timestamp = real

  /** What the process supplies from outside: the time it started and its user and group ids. */
  datatype Host = Host(now: Timestamp, uid: int, gid: int)

  /** The stat record `getattr` answers with. */
  datatype Property = Property(
    st_mode: int, st_nlink: int,
    st_ctime: Timestamp, st_mtime: Timestamp, st_atime: Timestamp,
    st_gid: int, st_uid: int, st_size: int)

  /** The metadata of a directory just created: two links, size 0, every time the start time. */
  function DirProperty(host: Host, mode: int): Property
  {
    Property(mode, 2, host.now, host.now, host.now, host.gid, host.uid, 0)
  }

  /** The metadata of a file just created: one link, its size the length of its data. */
  function FileProperty(host: Host, mode: int, size: int): Property
  {
    Property(mode, 1, host.now, host.now, host.now, host.gid, host.uid, size)
  }

  datatype File = File(data: seq<byte>, properties: Property)

  /** A directory node: its files and sub-directories by name (in insertion order) and its
      metadata, all three reassigned as entries are added below it. */
  class Directory {
    var files: Dict<string, File>
    var directories: Dict<string, Directory>
    var properties: Property

    constructor (files: Dict<string, File>, directories: Dict<string, Directory>, properties: Property)
      ensures this.files == files && this.directories == directories && this.properties == properties
    {
      this.files := files;
      this.directories := directories;
      this.properties := properties;
    }
  }
}
