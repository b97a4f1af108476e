/**
 * The File handle of file.go:19-29: access flags fixed at construction,
 * a closed bit, a working header and a byte buffer that the methods update
 * in place, and the volume it commits to. Every method is proved against
 * the matching function of FileModel, so the lemmas there speak about
 * these methods too.
 */
module Files {
  import opened Wrappers
  import opened Flags
  import opened Headers
  import FileModel
  import opened Volumes

  class File {
    const flag: Flag
    const access: Access
    const vol: Volume
    var closed: bool
    var hdr: Header
    /** The unread part of the bytes.Buffer. */
    var buf: seq<byte>

    function State(): FileModel.State
      reads this
    {
      FileModel.State(closed, hdr, buf)
    }

    /** newFile (file.go:31-45) */
    constructor (v: Volume, name: string, flag: Flag, mode: FileMode)
      ensures vol == v && this.flag == flag
      ensures access == AccessOf(flag)
      ensures State() == FileModel.Fresh(name, mode)
    {
      this.flag := flag;
      this.access := AccessOf(flag);
      this.vol := v;
      closed := false;
      hdr := NewHeader(name, mode);
      buf := [];
    }

    /** Chdir (file.go:50-56) */
    method Chdir() returns (err: Option<FileModel.Error>)
      modifies vol`chdirs
      ensures var r := FileModel.Chdir(State(), vol.failing);
        err == r.err && vol.chdirs == old(vol.chdirs) + r.calls
    {
      if hdr.kind != Directory {
        return Some(FileModel.NotDirectory);
      }
      err := vol.Chdir(hdr.name);
    }

    /** Chmod (file.go:59-63) */
    method Chmod(mode: FileMode) returns (err: Option<FileModel.Error>)
      modifies this`hdr
      ensures State() == FileModel.Chmod(old(State()), mode)
      ensures err == None
    {
      hdr := hdr.(mode := Perm(mode) as int);
      err := None;
    }

    /** Chown (file.go:66-71) */
    method Chown(uid: int, gid: int) returns (err: Option<FileModel.Error>)
      modifies this`hdr
      ensures State() == FileModel.Chown(old(State()), uid, gid)
      ensures err == None
    {
      hdr := hdr.(uid := uid, gid := gid);
      err := None;
    }

    /** Close (file.go:75-78) */
    method Close() returns (err: Option<FileModel.Error>)
      modifies this`closed, vol`commits
      ensures var r := FileModel.Close(old(State()), vol.failing);
        State() == r.st && err == r.err && vol.commits == old(vol.commits) + r.commits
    {
      closed := true;
      err := Sync();
    }

    /**
     * Name (file.go:83-85). With the constructor and
     * FileModel.NameAndKindKept: the name given to newFile, for the whole
     * life of the handle.
     */
    function Name(): (n: string)
      reads this
      ensures n == State().hdr.name
    {
      hdr.name
    }

    /**
     * Read (file.go:88-103), as written: copies the bytes it hands out into
     * the prefix of `b`, leaves the rest of `b` alone, and reports the end of
     * data wrapped like every other error.
     */
    method Read(b: array<byte>) returns (n: nat, err: Option<FileModel.Error>)
      modifies this`buf, b
      ensures var r := FileModel.ReadAsWritten(old(State()), access, b.Length);
        && State() == r.st && err == r.err && n == |r.data|
        && n <= b.Length && b[..n] == r.data && b[n..] == old(b[n..])
    {
      if closed {
        return 0, Some(FileModel.ClosedFile);
      }
      if !access.readable {
        return 0, Some(FileModel.NonReadable);
      }
      if buf == [] {
        return 0, if b.Length == 0 then None else Some(FileModel.WrappedEndOfData);
      }
      n := if b.Length <= |buf| then b.Length else |buf|;
      var i := 0;
      while i < n
        invariant 0 <= i <= n
        invariant buf == old(buf)
        invariant b[..i] == buf[..i]
        invariant b[n..] == old(b[n..])
      {
        b[i] := buf[i];
        i := i + 1;
      }
      buf := buf[n..];
      err := None;
    }

    /** Stat (file.go:111-113): the working header, even on a closed file. */
    method Stat() returns (info: Header, err: Option<FileModel.Error>)
      ensures info == State().hdr && err == None
    {
      return hdr, None;
    }

    /** Sync (file.go:116-118): no closed check. */
    method Sync() returns (err: Option<FileModel.Error>)
      modifies vol`commits
      ensures var r := FileModel.Sync(State(), vol.failing);
        err == r.err && vol.commits == old(vol.commits) + r.commits
    {
      err := vol.WriteFile(Entry(hdr, buf));
    }

    /** Truncate (file.go:121-125) */
    method Truncate(size: int) returns (err: Option<FileModel.Error>)
      requires 0 <= size <= |buf|
      modifies this`buf
      ensures State() == FileModel.Truncate(old(State()), size)
      ensures err == None
    {
      buf := buf[..size];
      err := None;
    }

    /** Write (file.go:130-157) */
    method Write(b: seq<byte>) returns (n: nat, err: Option<FileModel.Error>)
      modifies this`buf, this`hdr, vol`commits
      ensures var r := FileModel.Write(old(State()), access, b, vol.failing);
        State() == r.st && n == r.n && err == r.err && vol.commits == old(vol.commits) + r.commits
    {
      if closed {
        return 0, Some(FileModel.ClosedFile);
      }
      if !access.writable {
        return 0, Some(FileModel.NonWritable);
      }
      buf := buf + b;
      n := |b|;
      hdr := hdr.(size := hdr.size + n);
      err := None;
      if access.sync {
        err := Sync();
      }
    }

    /** WriteString (file.go:163-165): Write of the string's bytes. */
    method WriteString(s: GoString) returns (n: nat, err: Option<FileModel.Error>)
      modifies this`buf, this`hdr, vol`commits
      ensures var r := FileModel.Write(old(State()), access, s, vol.failing);
        State() == r.st && n == r.n && err == r.err && vol.commits == old(vol.commits) + r.commits
    {
      n, err := Write(s);
    }
  }
}
