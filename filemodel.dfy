/**
 * The File state machine of file.go as values: the state a handle holds,
 * one function per operation giving the new state, the reply and the
 * commits it asks of the volume, and a trace of operations to state what
 * holds across calls. The class Files.File is proved against these.
 *
 * A commit (Sync, file.go:116-118) hands Entry(hdr, buf) to the volume;
 * whether the volume reports an error is the parameter `storeFails`.
 */
module FileModel {
  import opened Wrappers
  import opened Flags
  import opened Headers

  /** Error kinds; the os.PathError wrapping and its op names are not kept. */
  datatype Error =
    | ClosedFile        // ClosedFileErr
    | NonReadable       // NonReadableErr
    | NonWritable       // NonWritableErr
    | NotDirectory      // NotDirectoryErr
    | EndOfData         // io.EOF itself
    | WrappedEndOfData  // io.EOF inside an os.PathError
    | StoreFailure      // whatever the volume reports for a commit or a chdir

  /** What a handle holds besides its fixed Access: the closed bit, the
      working header and the unread part of its bytes.Buffer. */
  datatype State = State(closed: bool, hdr: Header, buf: seq<byte>)

  function Min(x: int, y: int): int { if x <= y then x else y }

  /** newFile (file.go:31-45) */
  function Fresh(name: string, mode: FileMode): (s: State)
    ensures !s.closed && s.buf == []
    ensures s.hdr == NewHeader(name, mode)
  {
    State(false, NewHeader(name, mode), [])
  }

  function Snapshot(s: State): Entry {
    Entry(s.hdr, s.buf)
  }

  function CommitError(storeFails: bool): Option<Error> {
    if storeFails then Some(StoreFailure) else None
  }

  datatype ReadResult = ReadResult(st: State, data: seq<byte>, err: Option<Error>)

  /**
   * File.Read with a destination of length `want` (file.go:88-103): the
   * closed check, then the readability check, then bytes.Buffer.Read,
   * which hands out min(want, len) bytes from the front, answers an empty
   * buffer with io.EOF unless nothing was asked for, and never touches the
   * header. End of data is reported as the bare io.EOF; see ReadAsWritten.
   */
  function Read(s: State, a: Access, want: nat): (r: ReadResult)
    ensures r.data + r.st.buf == s.buf
    ensures r.st.closed == s.closed && r.st.hdr == s.hdr
    ensures r.err == Some(ClosedFile) <==> s.closed
    ensures r.err == Some(NonReadable) <==> !s.closed && !a.readable
    ensures r.err == Some(EndOfData) <==> !s.closed && a.readable && s.buf == [] && want > 0
    ensures r.err == None <==> !s.closed && a.readable && (s.buf != [] || want == 0)
    ensures r.err == None ==> |r.data| == Min(want, |s.buf|)
    ensures r.err != None ==> r.data == [] && r.st == s
  {
    if s.closed then ReadResult(s, [], Some(ClosedFile))
    else if !a.readable then ReadResult(s, [], Some(NonReadable))
    else if s.buf == [] then ReadResult(s, [], if want == 0 then None else Some(EndOfData))
    else
      var n := Min(want, |s.buf|);
      ReadResult(s.(buf := s.buf[n..]), s.buf[..n], None)
  }

  /**
   * File.Read exactly as file.go:97-100 has it: the io.EOF of an empty
   * buffer comes back inside an os.PathError like every other error.
   */
  function ReadAsWritten(s: State, a: Access, want: nat): (r: ReadResult)
    ensures r.st == Read(s, a, want).st && r.data == Read(s, a, want).data
    ensures r.err != Some(EndOfData)
    ensures r.err == Some(WrappedEndOfData) <==> Read(s, a, want).err == Some(EndOfData)
    ensures r.err != Some(WrappedEndOfData) ==> r.err == Read(s, a, want).err
  {
    var r := Read(s, a, want);
    if r.err == Some(EndOfData) then r.(err := Some(WrappedEndOfData)) else r
  }

  datatype WriteResult = WriteResult(st: State, n: nat, err: Option<Error>, commits: seq<Entry>)

  /**
   * File.Write (file.go:130-157): the closed check, then the writability
   * check, then the append to the buffer, which bytes.Buffer.Write always
   * completes, then hdr.Size grows by the count, and with O_SYNC one commit
   * whose error is returned.
   */
  function Write(s: State, a: Access, b: seq<byte>, storeFails: bool): (r: WriteResult)
    ensures s.closed ==> r.err == Some(ClosedFile)
    ensures !s.closed && !a.writable ==> r.err == Some(NonWritable)
    ensures s.closed || !a.writable ==> r.st == s && r.n == 0 && r.commits == []
    ensures !s.closed && a.writable ==>
      && r.n == |b|
      && r.st.buf == s.buf + b
      && r.st.hdr == s.hdr.(size := s.hdr.size + |b|)
      && !r.st.closed
      && r.commits == (if a.sync then [Snapshot(r.st)] else [])
      && r.err == (if a.sync then CommitError(storeFails) else None)
  {
    if s.closed then WriteResult(s, 0, Some(ClosedFile), [])
    else if !a.writable then WriteResult(s, 0, Some(NonWritable), [])
    else
      var t := s.(buf := s.buf + b, hdr := s.hdr.(size := s.hdr.size + |b|));
      if a.sync then WriteResult(t, |b|, CommitError(storeFails), [Snapshot(t)])
      else WriteResult(t, |b|, None, [])
  }

  /**
   * File.Truncate (file.go:121-125): bytes.Buffer.Truncate keeps the first
   * `size` unread bytes and panics outside 0..len, hence the requires.
   * Neither the header, the closed bit nor the volume is touched.
   */
  function Truncate(s: State, size: int): (t: State)
    requires 0 <= size <= |s.buf|
    ensures |t.buf| == size && t.buf <= s.buf
    ensures t.hdr == s.hdr && t.closed == s.closed
  {
    s.(buf := s.buf[..size])
  }

  /** File.Chmod (file.go:59-63): only the permission bits land in the header. */
  function Chmod(s: State, mode: FileMode): (t: State)
    ensures 0 <= t.hdr.mode <= 0x1FF && t.hdr.mode == Perm(mode) as int
    ensures t.hdr == s.hdr.(mode := t.hdr.mode)
    ensures t.buf == s.buf && t.closed == s.closed
  {
    s.(hdr := s.hdr.(mode := Perm(mode) as int))
  }

  /** File.Chown (file.go:66-71) */
  function Chown(s: State, uid: int, gid: int): (t: State)
    ensures t.hdr.uid == uid && t.hdr.gid == gid
    ensures t.hdr.(uid := s.hdr.uid, gid := s.hdr.gid) == s.hdr
    ensures t.buf == s.buf && t.closed == s.closed
  {
    s.(hdr := s.hdr.(uid := uid, gid := gid))
  }

  datatype CommitResult = CommitResult(st: State, err: Option<Error>, commits: seq<Entry>)

  /** File.Sync (file.go:116-118): one commit, with or without a closed file. */
  function Sync(s: State, storeFails: bool): (r: CommitResult)
    ensures r.st == s && r.commits == [Snapshot(s)]
    ensures r.err.Some? <==> storeFails
  {
    CommitResult(s, CommitError(storeFails), [Snapshot(s)])
  }

  /** File.Close (file.go:75-78): set the closed bit, then exactly one Sync. */
  function Close(s: State, storeFails: bool): (r: CommitResult)
    ensures r.st.closed && r.st.hdr == s.hdr && r.st.buf == s.buf
    ensures r.commits == [Snapshot(s)]
    ensures r.err.Some? <==> storeFails
  {
    Sync(s.(closed := true), storeFails)
  }

  datatype ChdirResult = ChdirResult(err: Option<Error>, calls: seq<string>)

  /**
   * File.Chdir (file.go:50-56): a header that is not a directory gives
   * NotDirectory without asking the volume; a directory header delegates
   * to Volume.Chdir with the file's name and returns its answer.
   */
  function Chdir(s: State, volumeFails: bool): (r: ChdirResult)
    ensures s.hdr.kind != Directory ==> r.err == Some(NotDirectory) && r.calls == []
    ensures s.hdr.kind == Directory ==> r.calls == [s.hdr.name] && (r.err.Some? <==> volumeFails)
    ensures r.err != Some(NotDirectory) ==> r.err == None || r.err == Some(StoreFailure)
  {
    if s.hdr.kind != Directory then ChdirResult(Some(NotDirectory), [])
    else ChdirResult(CommitError(volumeFails), [s.hdr.name])
  }

  // ----- traces of operations -----

  datatype Op =
    | ReadOp(want: nat)
    | WriteOp(bytes: seq<byte>)
    | TruncateOp(size: int)
    | ChmodOp(mode: FileMode)
    | ChownOp(uid: int, gid: int)
    | StatOp
    | SyncOp
    | CloseOp
    | ChdirOp

  /** What a call returns: a count, the bytes read or the header seen, an error. */
  datatype Reply = Reply(n: int, data: seq<byte>, info: Option<Header>, err: Option<Error>)

  datatype Effect = Effect(st: State, reply: Reply, commits: seq<Entry>, chdirs: seq<string>)

  /** One call on the handle; None when the call panics (Truncate out of range). */
  function Step(s: State, a: Access, op: Op, storeFails: bool): Option<Effect> {
    match op
    case ReadOp(want) =>
      var r := ReadAsWritten(s, a, want);
      Some(Effect(r.st, Reply(|r.data|, r.data, None, r.err), [], []))
    case WriteOp(b) =>
      var r := Write(s, a, b, storeFails);
      Some(Effect(r.st, Reply(r.n, [], None, r.err), r.commits, []))
    case TruncateOp(size) =>
      if 0 <= size <= |s.buf| then Some(Effect(Truncate(s, size), Reply(0, [], None, None), [], []))
      else None
    case ChmodOp(mode) => Some(Effect(Chmod(s, mode), Reply(0, [], None, None), [], []))
    case ChownOp(uid, gid) => Some(Effect(Chown(s, uid, gid), Reply(0, [], None, None), [], []))
    case StatOp => Some(Effect(s, Reply(0, [], Some(s.hdr), None), [], []))
    case SyncOp =>
      var r := Sync(s, storeFails);
      Some(Effect(r.st, Reply(0, [], None, r.err), r.commits, []))
    case CloseOp =>
      var r := Close(s, storeFails);
      Some(Effect(r.st, Reply(0, [], None, r.err), r.commits, []))
    case ChdirOp =>
      var r := Chdir(s, storeFails);
      Some(Effect(s, Reply(0, [], None, r.err), [], r.calls))
  }

  datatype Outcome = Outcome(st: State, replies: seq<Reply>, commits: seq<Entry>, chdirs: seq<string>, panicked: bool)

  /** The calls of `ops` in order on one handle, stopping at a panic. */
  function Run(s: State, a: Access, ops: seq<Op>, storeFails: bool): (o: Outcome)
    ensures |o.replies| <= |ops|
    ensures !o.panicked ==> |o.replies| == |ops|
    decreases |ops|
  {
    if ops == [] then Outcome(s, [], [], [], false)
    else
      match Step(s, a, ops[0], storeFails)
      case None => Outcome(s, [], [], [], true)
      case Some(e) =>
        var o := Run(e.st, a, ops[1..], storeFails);
        Outcome(o.st, [e.reply] + o.replies, e.commits + o.commits, e.chdirs + o.chdirs, o.panicked)
  }

  predicate IsIO(op: Op) { op.ReadOp? || op.WriteOp? }

  /**
   * Nothing clears the closed bit: from a closed state every Read and
   * Write of a trace fails with ClosedFile and the handle stays closed.
   */
  lemma {:induction false} ClosedIsAbsorbing(s: State, a: Access, ops: seq<Op>, storeFails: bool)
    requires s.closed
    ensures Run(s, a, ops, storeFails).st.closed
    ensures forall i :: 0 <= i < |Run(s, a, ops, storeFails).replies| && IsIO(ops[i]) ==>
      Run(s, a, ops, storeFails).replies[i].err == Some(ClosedFile)
    decreases |ops|
  {
    if ops != [] {
      match Step(s, a, ops[0], storeFails)
      case None =>
      case Some(e) =>
        ClosedIsAbsorbing(e.st, a, ops[1..], storeFails);
        var o := Run(s, a, ops, storeFails);
        forall i | 0 <= i < |o.replies| && IsIO(ops[i])
          ensures o.replies[i].err == Some(ClosedFile)
        {
          if i > 0 {
            assert ops[i] == ops[1..][i - 1];
          }
        }
    }
  }

  /** After a Close, whatever follows, no Read or Write succeeds. */
  lemma NothingAfterClose(s: State, a: Access, ops: seq<Op>, storeFails: bool)
    ensures var o := Run(s, a, [CloseOp] + ops, storeFails);
      o.st.closed &&
      forall i :: 1 <= i < |o.replies| && IsIO(ops[i - 1]) ==> o.replies[i].err == Some(ClosedFile)
  {
    var c := Close(s, storeFails);
    assert ([CloseOp] + ops)[1..] == ops;
    ClosedIsAbsorbing(c.st, a, ops, storeFails);
  }

  /**
   * A handle newFile made answers Name with the name it was given, after
   * any trace of calls.
   */
  lemma NameIsOpenName(name: string, mode: FileMode, a: Access, ops: seq<Op>, storeFails: bool)
    ensures Run(Fresh(name, mode), a, ops, storeFails).st.hdr.name == name
  {
    NameAndKindKept(Fresh(name, mode), a, ops, storeFails);
  }

  /** No operation renames a handle or changes its file type. */
  lemma {:induction false} NameAndKindKept(s: State, a: Access, ops: seq<Op>, storeFails: bool)
    ensures Run(s, a, ops, storeFails).st.hdr.name == s.hdr.name
    ensures Run(s, a, ops, storeFails).st.hdr.kind == s.hdr.kind
    decreases |ops|
  {
    if ops != [] {
      match Step(s, a, ops[0], storeFails)
      case None =>
      case Some(e) => NameAndKindKept(e.st, a, ops[1..], storeFails);
    }
  }

  /** The bytes handed out by a trace, in order. */
  function Received(rs: seq<Reply>): seq<byte> {
    if rs == [] then [] else rs[0].data + Received(rs[1..])
  }

  predicate AllReads(ops: seq<Op>) { forall op :: op in ops ==> op.ReadOp? }

  /** One Read at the head of a trace: its reply comes first, then the rest. */
  lemma RunReadStep(s: State, a: Access, ops: seq<Op>, storeFails: bool)
    requires ops != [] && ops[0].ReadOp?
    ensures var r := ReadAsWritten(s, a, ops[0].want);
      var o := Run(s, a, ops, storeFails);
      var o' := Run(r.st, a, ops[1..], storeFails);
      && r.data + r.st.buf == s.buf && r.st.hdr == s.hdr
      && o.st == o'.st && o.commits == o'.commits
      && Received(o.replies) + o.st.buf == r.data + (Received(o'.replies) + o'.st.buf)
  {
    var r := ReadAsWritten(s, a, ops[0].want);
    var o := Run(s, a, ops, storeFails);
    var o' := Run(r.st, a, ops[1..], storeFails);
    // These two steps only shorten the search; the solver finds them itself.
    assert o.replies[1..] == o'.replies;
    assert Received(o.replies) == r.data + Received(o'.replies);
  }

  /**
   * Reads drain the buffer first in, first out: what a run of Reads hands
   * out, followed by what is left, is the buffer it started from; the
   * header does not move.
   */
  lemma {:induction false} ReadsDrainInOrder(s: State, a: Access, ops: seq<Op>, storeFails: bool)
    requires AllReads(ops)
    ensures var o := Run(s, a, ops, storeFails);
      Received(o.replies) + o.st.buf == s.buf && o.st.hdr == s.hdr && o.commits == []
    decreases |ops|
  {
    if ops != [] {
      var r := ReadAsWritten(s, a, ops[0].want);
      assert ops[0] in ops;
      RunReadStep(s, a, ops, storeFails);
      ReadsDrainInOrder(r.st, a, ops[1..], storeFails);
    }
  }

  /** The bytes a trace of Writes asks to append, in order. */
  function Sent(ops: seq<Op>): seq<byte>
    requires forall i :: 0 <= i < |ops| ==> ops[i].WriteOp?
  {
    if ops == [] then [] else ops[0].bytes + Sent(ops[1..])
  }

  /**
   * On an open, writable handle a run of Writes appends exactly what it is
   * given, in order, and hdr.Size grows by as many bytes; whatever the
   * volume answers to a commit, no byte is lost from the buffer.
   */
  lemma {:induction false} WritesAppend(s: State, a: Access, ops: seq<Op>, storeFails: bool)
    requires !s.closed && a.writable
    requires forall i :: 0 <= i < |ops| ==> ops[i].WriteOp?
    ensures var o := Run(s, a, ops, storeFails);
      o.st.buf == s.buf + Sent(ops) && o.st.hdr.size == s.hdr.size + |Sent(ops)| && !o.st.closed
    ensures !a.sync ==> Run(s, a, ops, storeFails).commits == []
    ensures a.sync ==> |Run(s, a, ops, storeFails).commits| == |ops|
    decreases |ops|
  {
    if ops != [] {
      var r := Write(s, a, ops[0].bytes, storeFails);
      assert forall i :: 0 <= i < |ops[1..]| ==> ops[1..][i] == ops[i + 1];
      WritesAppend(r.st, a, ops[1..], storeFails);
      assert s.buf + Sent(ops) == (s.buf + ops[0].bytes) + Sent(ops[1..]);
    }
  }

  /** How many calls of a trace are Sync or Close. */
  function Committing(ops: seq<Op>): nat {
    if ops == [] then 0 else (if ops[0].SyncOp? || ops[0].CloseOp? then 1 else 0) + Committing(ops[1..])
  }

  /**
   * Without O_SYNC only Sync and Close reach the volume: a trace that runs
   * to its end commits once per Sync or Close call and at no other time.
   */
  lemma {:induction false} CommitsOnlyOnSyncAndClose(s: State, a: Access, ops: seq<Op>, storeFails: bool)
    requires !a.sync
    ensures var o := Run(s, a, ops, storeFails);
      !o.panicked ==> |o.commits| == Committing(ops)
    decreases |ops|
  {
    if ops != [] {
      match Step(s, a, ops[0], storeFails)
      case None =>
      case Some(e) => CommitsOnlyOnSyncAndClose(e.st, a, ops[1..], storeFails);
    }
  }

  /**
   * On a handle opened O_RDWR and empty, what a Write appended is what the
   * next Read of that length returns.
   */
  lemma WriteThenRead(s: State, a: Access, b: seq<byte>, storeFails: bool)
    requires !s.closed && a.readable && a.writable && s.buf == []
    ensures var w := Write(s, a, b, storeFails);
      ReadAsWritten(w.st, a, |b|).data == b && ReadAsWritten(w.st, a, |b|).st.buf == []
  {
  }

  /**
   * Sync does not look at the closed bit: after a Close, a Sync commits the
   * same entry again and, with a healthy volume, succeeds.
   */
  lemma SyncAfterCloseCommits(s: State, a: Access, storeFails: bool)
    ensures var o := Run(s, a, [CloseOp, SyncOp], storeFails);
      o.commits == [Snapshot(s), Snapshot(s)] && (o.replies[1].err == None <==> !storeFails)
  {
    assert [CloseOp, SyncOp][1..] == [SyncOp];
  }

  /**
   * The entry Close commits holds only what was not read: a handle that
   * was read to the end commits an empty content under its unchanged
   * header size.
   */
  lemma CloseCommitsUnreadRemainder(s: State, a: Access, want: nat, storeFails: bool)
    requires !s.closed && a.readable && want >= |s.buf|
    ensures var r := ReadAsWritten(s, a, want);
      Close(r.st, storeFails).commits == [Entry(s.hdr, [])]
  {
  }

  /**
   * Only Read and Write look at the closed bit: on a closed handle
   * Truncate, Chmod and Chown still change the state, and a later Sync
   * commits the changed entry.
   */
  lemma ClosedHandleStillChanges(s: State, a: Access, size: nat, mode: FileMode, storeFails: bool)
    requires s.closed && size <= |s.buf|
    ensures var o := Run(s, a, [TruncateOp(size), ChmodOp(mode), SyncOp], storeFails);
      && !o.panicked && o.st.closed
      && o.commits == [Entry(s.hdr.(mode := Perm(mode) as int), s.buf[..size])]
      && forall i :: 0 <= i < |o.replies| - 1 ==> o.replies[i].err == None
  {
    var ops := [TruncateOp(size), ChmodOp(mode), SyncOp];
    var t := Truncate(s, size);
    var u := Chmod(t, mode);
    assert ops[1..] == [ChmodOp(mode), SyncOp];
    assert ops[1..][1..] == [SyncOp];
    var o3 := Run(u, a, [SyncOp], storeFails);
    assert o3.commits == [Snapshot(u)] && o3.st == u && |o3.replies| == 1;
    var o2 := Run(t, a, ops[1..], storeFails);
    assert o2.st == u && o2.commits == o3.commits && o2.replies == [Reply(0, [], None, None)] + o3.replies;
    var o := Run(s, a, ops, storeFails);
    assert o.st == u && o.commits == o2.commits && o.replies == [Reply(0, [], None, None)] + o2.replies;
  }

  // ----- the caller of benchmark_test.go:132: io.Copy(buf, file) -----

  /** A Read of at least one byte that reports no error takes at least one byte. */
  lemma ReadProgress(s: State, a: Access, want: nat, asWritten: bool)
    requires want > 0
    ensures var r := if asWritten then ReadAsWritten(s, a, want) else Read(s, a, want);
      r.data + r.st.buf == s.buf && r.st.hdr == s.hdr && r.st.closed == s.closed
      && (r.err == None ==> |r.st.buf| < |s.buf|)
  {
    // Only shortens the search; the solver finds this step itself.
    var r0 := Read(s, a, want);
    assert r0.err == None ==> |r0.data| >= 1;
  }

  datatype CopyResult = CopyResult(st: State, got: seq<byte>, err: Option<Error>)

  /**
   * io.Copy from a handle into a bytes.Buffer (bytes.Buffer.ReadFrom):
   * Read chunks of `chunk` bytes until an error; io.EOF itself ends the
   * copy without error, any other error is handed back. `asWritten` picks
   * ReadAsWritten over Read.
   */
  function Copy(s: State, a: Access, chunk: nat, asWritten: bool): (c: CopyResult)
    requires chunk > 0
    ensures c.got + c.st.buf == s.buf
    ensures c.st.hdr == s.hdr && c.st.closed == s.closed
    decreases |s.buf|
  {
    var r := if asWritten then ReadAsWritten(s, a, chunk) else Read(s, a, chunk);
    ReadProgress(s, a, chunk, asWritten);
    if r.err == Some(EndOfData) then CopyResult(r.st, r.data, None)
    else if r.err.Some? then CopyResult(r.st, r.data, r.err)
    else
      var c := Copy(r.st, a, chunk, asWritten);
      CopyResult(c.st, r.data + c.got, c.err)
  }

  /**
   * As written, a copy of an open, readable handle never succeeds: it
   * drains every byte and then fails with the wrapped io.EOF.
   */
  lemma {:induction false} CopyAsWrittenFails(s: State, a: Access, chunk: nat)
    requires !s.closed && a.readable && chunk > 0
    ensures Copy(s, a, chunk, true) == CopyResult(s.(buf := []), s.buf, Some(WrappedEndOfData))
    decreases |s.buf|
  {
    if s.buf != [] {
      var r := Read(s, a, chunk);
      CopyAsWrittenFails(r.st, a, chunk);
    }
  }

  /**
   * With Read reporting the bare io.EOF, a copy of an open, readable handle
   * delivers the whole buffer and no error.
   */
  lemma {:induction false} CopyDeliversContent(s: State, a: Access, chunk: nat)
    requires !s.closed && a.readable && chunk > 0
    ensures Copy(s, a, chunk, false) == CopyResult(s.(buf := []), s.buf, None)
    decreases |s.buf|
  {
    if s.buf != [] {
      var r := Read(s, a, chunk);
      CopyDeliversContent(r.st, a, chunk);
    }
  }

  /**
   * The two access checks of a handle opened O_RDONLY or O_WRONLY: writing
   * the one and reading the other fail, with nothing changed.
   */
  lemma WrongDirectionFails(name: string, mode: FileMode, flag: Flag, b: seq<byte>, want: nat, storeFails: bool)
    ensures flag & 3 == O_RDONLY ==>
      Write(Fresh(name, mode), AccessOf(flag), b, storeFails) == WriteResult(Fresh(name, mode), 0, Some(NonWritable), [])
    ensures flag & 3 == O_WRONLY ==>
      ReadAsWritten(Fresh(name, mode), AccessOf(flag), want) == ReadResult(Fresh(name, mode), [], Some(NonReadable))
  {
  }

  /** A handle newFile made is never a directory, whatever mode it was given. */
  lemma FreshIsNotDirectory(name: string, mode: FileMode, volumeFails: bool)
    ensures Chdir(Fresh(name, mode), volumeFails) == ChdirResult(Some(NotDirectory), [])
  {
  }
}
