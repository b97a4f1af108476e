/**
 * The reader of benchmark_test.go:131-133, which empties a handle into a
 * bytes.Buffer with io.Copy: bytes.Buffer.ReadFrom calls Read with a
 * chunk-sized destination until an error, counts io.EOF as success and
 * returns any other error.
 */
module Clients {
  import opened Wrappers
  import opened Headers
  import FileModel
  import opened Files

  /**
   * io.Copy over File.Read as written: it delivers every byte and then
   * fails with the wrapped end of data, which ifErrPanic turns into a panic.
   */
  method CopyOut(f: File, chunk: nat) returns (got: seq<byte>, err: Option<FileModel.Error>)
    requires chunk > 0
    modifies f`buf
    ensures var c := FileModel.Copy(old(f.State()), f.access, chunk, true);
      got == c.got && err == c.err && f.State() == c.st
    ensures !old(f.closed) && f.access.readable ==>
      got == old(f.buf) && f.buf == [] && err == Some(FileModel.WrappedEndOfData)
  {
    ghost var s0 := f.State();
    if !f.closed && f.access.readable {
      FileModel.CopyAsWrittenFails(s0, f.access, chunk);
    }
    var b := new byte[chunk];
    got := [];
    while true
      invariant fresh(b) && b.Length == chunk
      invariant var c := FileModel.Copy(f.State(), f.access, chunk, true);
        FileModel.Copy(s0, f.access, chunk, true) == FileModel.CopyResult(c.st, got + c.got, c.err)
      decreases |f.buf|
    {
      var n, e := f.Read(b);
      got := got + b[..n];
      if e == Some(FileModel.EndOfData) {
        return got, None;
      }
      if e.Some? {
        return got, e;
      }
    }
  }
}
