/**
 * The working header a File keeps (a tar.Header in file.go:21), the
 * permission part of an os.FileMode, and the snapshot handed to the volume
 * on a commit.
 */
module Headers {

  type byte = bv8

  /** Go strings are byte strings; WriteString takes the string's bytes. */
  type GoString = seq<byte>

  /** os.FileMode, a uint32. */
  type FileMode = bv32

  const ModePerm: FileMode := 0x1FF
  const ModeDir: FileMode := 0x8000_0000

  /** FileMode.Perm(): the nine permission bits, every type bit cleared. */
  function Perm(m: FileMode): (p: FileMode)
    ensures p <= ModePerm
    ensures p & ModeDir == 0
    ensures p | (m & !ModePerm) == m
  {
    m & ModePerm
  }

  /** What the header's FileInfo().IsDir() answers, as an explicit tag. */
  datatype FileType = Regular | Directory

  datatype Header = Header(
    name: string,
    mode: int,
    uid: int,
    gid: int,
    size: int,
    kind: FileType)

  /**
   * The header newFile builds (file.go:34-37): the given name, only the
   * permission bits of the mode, owner 0:0, size 0 and (because every
   * type bit of the mode is dropped) a regular file.
   */
  function NewHeader(name: string, mode: FileMode): (h: Header)
    ensures h.name == name
    ensures 0 <= h.mode <= 0x1FF && h.mode == (mode & ModePerm) as int
    ensures h.uid == 0 && h.gid == 0 && h.size == 0
    ensures h.kind == Regular
  {
    Header(name, Perm(mode) as int, 0, 0, 0, Regular)
  }

  /** What a commit hands to the volume: the header and the buffered bytes. */
  datatype Entry = Entry(hdr: Header, content: seq<byte>)
}
