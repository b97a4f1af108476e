# boltfs File handle, modelled in Dafny

boltfs gives a POSIX-like `File` over files stored in an embedded key-value
database. This project models the per-handle state machine of `file.go`:

- the access booleans that `newFile` derives once from the open flag;
- a closed bit, a working header (name, permission mode, uid, gid, size and
  a Regular/Directory tag) and an in-memory byte buffer;
- the operations Read, Write/WriteString, Truncate, Chmod, Chown, Stat,
  Sync, Close, Chdir and Name.

Only Read and Write check anything: the closed bit first, then the access
direction, then they change the buffer. Truncate, Chmod, Chown, Stat, Sync
and Chdir do not look at the closed bit, so after Close only Read and Write
are refused; a closed handle can still be truncated, re-moded and
committed (`ClosedHandleStillChanges`). Commits (`Sync`, which calls the
volume's `writeFile`) and `Volume.Chdir` are calls into code outside this
model. They go to a stub `Volume` class. The stub records each call in a
ghost log and fails exactly when its `failing` field is set.

Layout:

- `wrappers.dfy`: `Option`, used for Go's `error` results.
- `flags.dfy`: open-flag constants (Linux values) and the bit tests.
- `headers.dfy`: `FileMode.Perm`, the header record and the committed `Entry`.
- `filemodel.dfy`: one pure function per operation. Also `Run`, which runs a
  sequence of calls on one handle, and lemmas over such traces.
- `volume.dfy`: the stub `Volume`.
- `file.dfy`: the `File` class. Each method's `ensures` ties its new state,
  its results and its volume calls to the matching `FileModel` function.
- `clients.dfy`: the `io.Copy` read loop of the benchmark, over `File.Read`.

Three behaviours of the code that a reader might not expect, each proved:

- `Sync` and `Chdir` do not check the closed bit. A Sync after Close commits
  again and can succeed (`SyncAfterCloseCommits`).
- `newFile` keeps only the permission bits, so a handle it creates is never
  a directory, even when the mode has the directory bit set
  (`FreshIsNotDirectory`).
- Read consumes the buffer. Close therefore hands the volume only the bytes
  that were not read (`CloseCommitsUnreadRemainder`). What the store then
  keeps is decided by `writeFile`, which is not part of this model.

## Model

| member | source | states |
|---|---|---|
| Flags.AccessOf | file.go:167-181 | O_RDONLY gives readable only; O_WRONLY gives writable only; O_RDWR gives both; access mode 3 gives writable only; every flag is readable or writable; sync holds iff an O_SYNC bit is set |
| Flags.OtherBitsIrrelevant | file.go:167-181 | bits outside the access mode never change readability or writability; adding O_SYNC or O_DSYNC always turns on sync |
| Headers.Perm | file.go:36 | keeps exactly the nine permission bits and clears every type bit, including ModeDir |
| Headers.NewHeader | file.go:34-37 | the header has the given name, the mode's permission bits (0..0o777), uid = gid = size = 0, and is a regular file |
| FileModel.Fresh | file.go:31-45 | a new handle is open, has an empty buffer and has the newFile header |
| FileModel.Read | file.go:88-103 | the corrected Read of the Findings row, reporting the bare io.EOF. ClosedFile iff closed (checked first); NonReadable iff open and not readable; EndOfData iff the buffer is empty and bytes were asked for. On success it returns min(want, len) bytes. Returned bytes followed by the new buffer equal the old buffer. The header never changes. On error the state is unchanged |
| FileModel.ReadAsWritten | file.go:88-103 | Read as written: same state and bytes as the corrected Read, except that end of data comes back wrapped (an os.PathError), never as the bare io.EOF |
| FileModel.Write | file.go:130-157 | ClosedFile when closed; else NonWritable when not writable. Either way n = 0, the state is unchanged and nothing is committed. Otherwise the buffer gets b appended, hdr.Size grows by n = len(b) and nothing else changes. It commits the new (hdr, buf) once iff sync, and returns the commit's error |
| FileModel.Truncate | file.go:121-125 | requires 0 <= size <= len(buf); the buffer becomes its prefix of length size; header and closed bit unchanged |
| FileModel.Chmod | file.go:59-63 | the header mode becomes the permission bits of the mode; every other header field, the buffer and the closed bit are unchanged |
| FileModel.Chown | file.go:66-71 | sets exactly uid and gid; the rest of the header, the buffer and the closed bit are unchanged |
| FileModel.Sync | file.go:116-118 | commits the current (hdr, buf) exactly once, whether or not the file is closed; the state is unchanged; fails iff the volume fails |
| FileModel.Close | file.go:75-78 | sets closed; header and buffer unchanged; exactly one commit of (hdr, buf); returns the commit's error |
| FileModel.Chdir | file.go:50-56 | a non-directory header gives NotDirectory and no volume call; a directory header makes one volume call with the file's name and returns its answer |
| FileModel.Run | file.go:50-165 | a trace of calls (Read as written) gives one reply per call it executes, and a reply for every call unless a Truncate panicked |
| FileModel.ClosedIsAbsorbing | file.go:75-137 | from a closed state, every Read and Write in any trace fails with ClosedFile and the handle stays closed |
| FileModel.NothingAfterClose | file.go:75-137 | after Close, no later Read or Write in the trace succeeds |
| FileModel.NameIsOpenName | file.go:31-85 | after any trace, a handle newFile made still carries the name it was given |
| FileModel.NameAndKindKept | file.go:50-165 | no trace changes the handle's name or its directory/regular tag |
| FileModel.ReadsDrainInOrder | file.go:97-102 | a run of Reads hands out the buffer first in, first out: the bytes received followed by what is left equal the starting buffer; no header change and no commit |
| FileModel.WritesAppend | file.go:139-157 | a run of Writes on an open, writable handle appends the concatenated inputs, grows hdr.Size by their total length and keeps the handle open. Without sync it makes no commit; with sync it makes one commit per Write |
| FileModel.CommitsOnlyOnSyncAndClose | file.go:75-157 | without O_SYNC, a trace that runs to its end commits exactly once per Sync or Close call |
| FileModel.ClosedHandleStillChanges | file.go:59-125 | on a closed handle, Truncate and Chmod succeed and change the state, the handle stays closed, and a following Sync commits the shortened buffer under the new mode |
| FileModel.WriteThenRead | file.go:88-157 | on an empty, open read-write handle, reading len(b) bytes after Write(b) returns b and leaves the buffer empty |
| FileModel.SyncAfterCloseCommits | file.go:75-118 | Close followed by Sync commits the same entry twice; the Sync succeeds iff the volume does |
| FileModel.CloseCommitsUnreadRemainder | file.go:75-102 | after reading to the end, Close commits the unchanged header with empty content |
| FileModel.Copy | benchmark/benchmark_test.go:131-133 | the bytes copied followed by what is left equal the handle's buffer; the header and closed bit are unchanged |
| FileModel.CopyAsWrittenFails | file.go:97-102 | with Read as written, copying from an open, readable handle empties the buffer and always ends in the wrapped end-of-data error |
| FileModel.CopyDeliversContent | file.go:97-102 | with Read returning the bare io.EOF, the copy returns the whole buffer and no error |
| FileModel.WrongDirectionFails | file.go:88-137 | on a new handle, writing under O_RDONLY gives NonWritable and reading under O_WRONLY gives NonReadable; nothing changes |
| FileModel.FreshIsNotDirectory | file.go:31-56 | Chdir on any handle newFile created gives NotDirectory and makes no volume call |
| Volumes.Volume.WriteFile | file.go:117 | appends the entry to the commit log; returns an error iff the store fails |
| Volumes.Volume.Chdir | file.go:55 | appends the name to the chdir log; returns an error iff the store fails |
| Files.File.constructor | file.go:31-45 | the handle holds the volume, the flag and AccessOf(flag), and the state FileModel.Fresh(name, mode) |
| Files.File.Chdir | file.go:50-56 | the error and the volume calls are those of FileModel.Chdir |
| Files.File.Chmod | file.go:59-63 | the new state is FileModel.Chmod of the old one; no error; the volume is not touched |
| Files.File.Chown | file.go:66-71 | the new state is FileModel.Chown of the old one; no error; the volume is not touched |
| Files.File.Close | file.go:75-78 | the new state, the error and the one commit are those of FileModel.Close |
| Files.File.Name | file.go:83-85 | returns the header's name; with the constructor and NameIsOpenName, the name given to newFile for the whole life of the handle |
| Files.File.Read | file.go:88-103 | state and error as FileModel.ReadAsWritten, so end of data is the wrapped io.EOF. The n bytes read are copied into b[..n]; the rest of b is unchanged |
| Files.File.Stat | file.go:111-113 | returns the working header, with no error, even on a closed handle |
| Files.File.Sync | file.go:116-118 | the error and the single commit are those of FileModel.Sync |
| Files.File.Truncate | file.go:121-125 | requires 0 <= size <= len(buf); the new state is FileModel.Truncate of the old one; no error |
| Files.File.Write | file.go:130-157 | new state, count, error and commits are those of FileModel.Write |
| Files.File.WriteString | file.go:163-165 | behaves exactly like Write of the string's bytes |
| Clients.CopyOut | benchmark/benchmark_test.go:131-133 | the io.Copy loop over File.Read as written returns exactly what FileModel.Copy gives with ReadAsWritten. On an open, readable handle it empties the buffer, gets every byte, and still ends in the wrapped end-of-data error that ifErrPanic panics on |

## Left out

- Volume internals are not part of this model: `writeFile`, `Volume.Chdir`, `Open`, `NewVolume`, `Close`, path resolution and the bolt store. The stub answers every call with one fixed outcome (its `failing` field). It does not model a closed volume, size recomputation in `writeFile`, or what the store keeps.
- Handles that `Volume.Open` seeds from a stored entry are not modelled, because that code is not part of this model. Such a handle may carry a directory header. The `FileModel` functions accept any state, directory headers included.
- archive/tar's `FileInfo()`/`IsDir()` derivation is replaced by an explicit Regular/Directory tag, which Chmod leaves alone. In the source, a header that marks a directory only through the type bits of `Mode` would lose them on Chmod. Which marking stored headers use is decided in code that is not part of this model.
- `Stat` returns the header itself, not an `os.FileInfo` built from it.
- The `os.PathError` wrapping and its op names (Write labels its errors "read") are reduced to error kinds. The exception is end of data, where the wrapping matters (see Findings).
- FileModel.Read: reports the bare io.EOF at end of data, the correction the Findings row proposes; file.go:98-100 wraps it. The code as written is `FileModel.ReadAsWritten`, which `Files.File.Read`, `Clients.CopyOut` and `FileModel.Run` use.
- FileModel.Write: the `io.ErrShortWrite` branch (file.go:146-148) is not modelled. `bytes.Buffer.Write` always accepts every byte (or panics), so n = len(b) always and the branch cannot be taken.
- FileModel.Write: hdr.Size is an unbounded integer; int64 wrap-around after 2^63 bytes is not modelled.
- `bytes.Buffer` allocation and its `ErrTooLarge` panic are not modelled. The buffer is a sequence of its unread bytes.
- FileModel.Run: the volume's answer is fixed for the whole trace. A store that fails on some commits and not others is covered only one call at a time.
- FileModel.Copy: reads a fixed chunk size. `bytes.Buffer.ReadFrom` uses destinations of varying size, at least 512 bytes; since Read takes min(want, len) bytes, only the chunk boundaries differ.
- The open-flag constants are the Linux values of package `os`. On other systems O_SYNC has other bits.
- The rest of benchmark/benchmark_test.go is not modelled: tar fixtures, `math/rand` selection and timing loops.

## Findings

| source | as written | input that shows it | evidently intended | confidence | as-written member | corrected member |
|---|---|---|---|---|---|---|
| file.go:97-102 | Read wraps the io.EOF of an empty buffer in an os.PathError. `io.Copy` (through `bytes.Buffer.ReadFrom`) and `io.ReadAll` only count the bare io.EOF as the end, so every copy of a file ends in an error. The benchmark's `ifErrPanic` (benchmark_test.go:132-133) would panic on it | a readable open handle holding "hello", copied with io.Copy into a bytes.Buffer | Read returns the bare io.EOF at end of data, as os.File.Read does, and the copy yields "hello" with no error | high, not executed | FileModel.CopyAsWrittenFails | FileModel.CopyDeliversContent |

`Files.File.Read` and `Clients.CopyOut` follow the code as written
(`FileModel.ReadAsWritten`); `Clients.CopyOut` proves the failure on the
handle itself. The corrected Read is `FileModel.Read`.
