/**
 * The open flag of a File and the three access booleans derived from it
 * once, in newFile (file.go:41-43), by the bit tests of file.go:167-181.
 * A Go `int` flag is modelled by its 64-bit pattern; the constants are the
 * values of package os on Linux/amd64.
 */
module Flags {

  type Flag = bv64

  const O_RDONLY: Flag := 0x0
  const O_WRONLY: Flag := 0x1
  const O_RDWR: Flag := 0x2
  /** O_DSYNC on Linux; O_SYNC includes its bit. */
  const O_DSYNC: Flag := 0x1000
  const O_SYNC: Flag := 0x101000

  /** isWritable (file.go:167-173) */
  predicate IsWritable(flag: Flag) {
    flag & O_WRONLY != 0 || flag & O_RDWR != 0
  }

  /** isReadable (file.go:175-177) */
  predicate IsReadable(flag: Flag) {
    flag & O_WRONLY == 0
  }

  /** isSync (file.go:179-181) */
  predicate IsSync(flag: Flag) {
    flag & O_SYNC != 0
  }

  /** The access booleans a File keeps for its whole life. */
  datatype Access = Access(readable: bool, writable: bool, sync: bool)

  /**
   * The access a flag grants, read through the access-mode field (the two
   * low bits) that callers set to one of O_RDONLY, O_WRONLY, O_RDWR.
   */
  function AccessOf(flag: Flag): (a: Access)
    ensures a.readable || a.writable
    ensures flag & 3 == O_RDONLY ==> a.readable && !a.writable
    ensures flag & 3 == O_WRONLY ==> !a.readable && a.writable
    ensures flag & 3 == O_RDWR ==> a.readable && a.writable
    ensures flag & 3 == 3 ==> !a.readable && a.writable
    ensures a.sync <==> flag & O_SYNC != 0
  {
    Access(IsReadable(flag), IsWritable(flag), IsSync(flag))
  }

  /**
   * The bits above the access mode never change readability or
   * writability, and adding O_SYNC (or O_DSYNC, which shares a bit with it)
   * always turns on commit-on-write.
   */
  lemma OtherBitsIrrelevant(flag: Flag, extra: Flag)
    requires extra & 3 == 0
    ensures AccessOf(flag | extra).readable == AccessOf(flag).readable
    ensures AccessOf(flag | extra).writable == AccessOf(flag).writable
    ensures AccessOf(flag | O_SYNC).sync && AccessOf(flag | O_DSYNC).sync
    ensures AccessOf(flag | extra).sync == (AccessOf(flag).sync || extra & O_SYNC != 0)
  {
  }
}
