/**
 Open handles: a file is loaded whole when it is opened, edited in memory, and persisted whole when a dirty handle
 is flushed or released. The methods are proved against a session, a session against an immediate file.
 */
module Handles {
  import opened Bytes
  import opened BinaryMeta
  import opened Persistence

  // ---------------------------------------------------------------- sessions on one path

  datatype Live = Live(data: seq<byte>, dirty: bool)

  /** What is persisted for a path, and its one live handle. */
  datatype Session = Session(stored: Option<seq<byte>>, live: Option<Live>)

  datatype Call =
    | Open(trunc: bool)
    | Create(excl: bool, trunc: bool)
    | Write(buf: seq<byte>, off: nat)
    | Truncate(n: nat)
    | Flush
    | Release

  /** Open and create need that no handle is live, the other calls that one is. */
  predicate Callable(s: Session, c: Call)
  {
    (c.Open? || c.Create?) == s.live.None?
  }

  function Loaded(data: seq<byte>, trunc: bool): Live
  {
    if trunc then Live([], true) else Live(data, false)
  }

  function Flushed(s: Session): Session
    requires s.live.Some?
  {
    if s.live.value.dirty then Session(Some(s.live.value.data), Some(s.live.value.(dirty := false))) else s
  }

  function SessionStep(s: Session, c: Call): Session
    requires Callable(s, c)
  {
    match c
    case Open(trunc) => if s.stored.None? then s else s.(live := Some(Loaded(s.stored.value, trunc)))
    case Create(excl, trunc) =>
      if s.stored.None? then s.(live := Some(Live([], true)))
      else if excl then s
      else s.(live := Some(Loaded(s.stored.value, trunc)))
    case Write(buf, off) => s.(live := Some(Live(Spliced(s.live.value.data, buf, off), true)))
    case Truncate(n) => s.(live := Some(Live(Resized(s.live.value.data, n), true)))
    case Flush => Flushed(s)
    case Release => Flushed(s).(live := None)
  }

  /** The same calls on a file whose every change is immediate. */
  function FileStep(f: Option<seq<byte>>, c: Call): Option<seq<byte>>
  {
    match c
    case Open(trunc) => if f.Some? && trunc then Some([]) else f
    case Create(excl, trunc) => if f.None? || (trunc && !excl) then Some([]) else f
    case Write(buf, off) => if f.None? then None else Some(Spliced(f.value, buf, off))
    case Truncate(n) => if f.None? then None else Some(Resized(f.value, n))
    case Flush => f
    case Release => f
  }

  /** The content that the path has for its users. */
  function Visible(s: Session): Option<seq<byte>>
  {
    if s.live.Some? then Some(s.live.value.data) else s.stored
  }

  /** A clean handle holds what is persisted. */
  predicate CleanIsStored(s: Session)
  {
    s.live.Some? && !s.live.value.dirty ==> s.stored == Some(s.live.value.data)
  }

  predicate CallableRun(s: Session, cs: seq<Call>)
    decreases |cs|
  {
    cs == [] || (Callable(s, cs[0]) && CallableRun(SessionStep(s, cs[0]), cs[1..]))
  }

  function SessionRun(s: Session, cs: seq<Call>): Session
    requires CallableRun(s, cs)
    decreases |cs|
  {
    if cs == [] then s else SessionRun(SessionStep(s, cs[0]), cs[1..])
  }

  function FileRun(f: Option<seq<byte>>, cs: seq<Call>): Option<seq<byte>>
    decreases |cs|
  {
    if cs == [] then f else FileRun(FileStep(f, cs[0]), cs[1..])
  }

  /**
   Every run of calls on a path shows the content of the immediate file, and a clean handle is always in step with
   what is persisted; so releasing and opening again finds exactly that content.
   */
  lemma {:induction false} SessionRefines(s: Session, cs: seq<Call>)
    requires CleanIsStored(s) && CallableRun(s, cs)
    ensures CleanIsStored(SessionRun(s, cs))
    ensures Visible(SessionRun(s, cs)) == FileRun(Visible(s), cs)
    ensures SessionRun(s, cs).live.None? ==> SessionRun(s, cs).stored == FileRun(Visible(s), cs)
    decreases |cs|
  {
    if cs != [] {
      SessionRefines(SessionStep(s, cs[0]), cs[1..]);
    }
  }

  /** One session of every call but create, on a file that is there. */
  lemma OneSession(data: seq<byte>, trunc: bool, buf: seq<byte>, off: nat, n: nat)
    ensures var s, cs := Session(Some(data), None), [Open(trunc), Write(buf, off), Flush, Truncate(n), Release];
            && CallableRun(s, cs)
            && SessionRun(s, cs) ==
               Session(Some(Resized(Spliced(if trunc then [] else data, buf, off), n)), None)
  {
    hide Spliced, Resized;
    var s := Session(Some(data), None);
    var s1 := SessionStep(s, Open(trunc));
    var s2 := SessionStep(s1, Write(buf, off));
    var s3 := SessionStep(s2, Flush);
    var s4 := SessionStep(s3, Truncate(n));
    OneCall(s4, Release, []);
    OneCall(s3, Truncate(n), [Release]);
    OneCall(s2, Flush, [Truncate(n), Release]);
    OneCall(s1, Write(buf, off), [Flush, Truncate(n), Release]);
    OneCall(s, Open(trunc), [Write(buf, off), Flush, Truncate(n), Release]);
  }

  lemma OneCall(s: Session, c: Call, cs: seq<Call>)
    requires Callable(s, c)
    ensures CallableRun(s, [c] + cs) <==> CallableRun(SessionStep(s, c), cs)
    ensures CallableRun(SessionStep(s, c), cs) ==> SessionRun(s, [c] + cs) == SessionRun(SessionStep(s, c), cs)
  {
    hide SessionStep;
    assert ([c] + cs)[1..] == cs;
  }

  /** A flush leaves the handle open and clean, a release leaves none; what it showed is persisted and shows again. */
  lemma ReleaseThenOpen(s: Session)
    requires CleanIsStored(s) && s.live.Some?
    ensures var data := s.live.value.data;
            && SessionStep(s, Flush) == Session(Some(data), Some(Live(data, false)))
            && SessionStep(s, Release) == Session(Some(data), None)
            && SessionStep(SessionStep(s, Release), Open(false)) == SessionStep(s, Flush)
  {
  }

  // ---------------------------------------------------------------- the handle object

  class OpenFileHandle {
    var path: string
    var data: seq<byte>
    var dirty: bool

    constructor (path: string, data: seq<byte>, dirty: bool)
      ensures this.path == path && this.data == data && this.dirty == dirty
    {
      this.path, this.data, this.dirty := path, data, dirty;
    }
  }

  /** `Thrown`: a blob did not decompress; `PassedOn`: the call goes on to the backing directory. */
  datatype Rc = Success | ENOENT | EISDIR | EEXIST | EIO | EINVAL | Thrown | PassedOn | Count(n: nat)

  /** The path is absent, or loads without an error. */
  ghost predicate Healthy(S: Store, bin: Bin, path: string)
  {
    Exists(S, bin, path) ==> LoadFile(S, bin, path).Read? && LoadFile(S, bin, path).content.Ok?
  }

  ghost function StoredContent(S: Store, bin: Bin, path: string): Option<seq<byte>>
    requires Healthy(S, bin, path)
  {
    if Exists(S, bin, path) then Some(LoadFile(S, bin, path).content.bytes) else None
  }

  ghost function SessionOf(S: Store, bin: Bin, path: string, live: Option<Live>): Session
    requires Healthy(S, bin, path)
  {
    Session(StoredContent(S, bin, path), live)
  }

  ghost function LiveOf(h: OpenFileHandle?): Option<Live>
    reads h
  {
    if h == null then None else Some(Live(h.data, h.dirty))
  }

  lemma PersistedIsStored(S: Store, bin: Bin, path: string, data: seq<byte>)
    requires Fits(data) && Holds(S, bin, path, data)
    ensures Healthy(S, bin, path) && StoredContent(S, bin, path) == Some(data)
  {
    hide LoadFile;
    PersistLoadIff(S, bin, path, data);
  }

  /** Only the files of one path may have changed. */
  ghost predicate OnlyFilesOf(S: Store, bin0: Bin, bin: Bin, path: string)
  {
    forall n: BinName :: n.id != S.idOf(path) ==> SameAt(bin, bin0, n)
  }

  /** `flush_handle_if_dirty`. */
  method FlushHandleIfDirty(S: Store, B: Backing, h: OpenFileHandle) returns (rc: Rc)
    requires |h.data| < TWO_64
    modifies B, h
    ensures rc == Success && h.path == old(h.path) && h.data == old(h.data) && !h.dirty
    ensures OnlyFilesOf(S, old(B.disk.bin), B.disk.bin, h.path)
    ensures if old(h.dirty) then Holds(S, B.disk.bin, h.path, h.data) else B.disk == old(B.disk)
    ensures old(Healthy(S, B.disk.bin, h.path)) && Fits(h.data) ==>
              && Healthy(S, B.disk.bin, h.path)
              && SessionOf(S, B.disk.bin, h.path, LiveOf(h)) ==
                 SessionStep(old(SessionOf(S, B.disk.bin, h.path, LiveOf(h))), Flush)
  {
    hide LoadFile, Concat, Blobs, Encode;
    if !h.dirty {
      return Success;
    }
    PersistLogicalFile(S, B, h.path, h.data);
    if Fits(h.data) {
      PersistedIsStored(S, B.disk.bin, h.path, h.data);
    }
    h.dirty := false;
    rc := Success;
  }

  /** How a load that does not yield the content shows. */
  ghost function LoadFailure(S: Store, bin: Bin, path: string): Rc
  {
    if LoadFile(S, bin, path) == Unreadable then EIO else Thrown
  }

  /** The data does not reach as far as some row says. */
  ghost predicate Lacking(data: seq<byte>, m: FileMeta)
  {
    exists i :: 0 <= i < |m.chunks| &&
      (m.chunks[i].dataOffset >= 0x8000_0000_0000_0000 ||
       (m.chunks[i].compressedSize != 0 && |data| < m.chunks[i].dataOffset + m.chunks[i].compressedSize))
  }

  /** The data file is missing, or the metadata is that of no record, or that of one whose rows the data lacks. */
  ghost predicate Misread(S: Store, bin: Bin, path: string)
    requires Exists(S, bin, path)
  {
    var meta, data := bin[MetaFile(S.idOf(path))], DataFile(S.idOf(path));
    data !in bin || forall m :: Agrees(meta, m) ==> Lacking(bin[data], m)
  }

  lemma LackingIs(data: seq<byte>, m: FileMeta)
    ensures ReadBlobs(data, m.chunks) == None <==> Lacking(data, m)
  {
    hide BlobAt;
    if Lacking(data, m) {
      var i :| 0 <= i < |m.chunks| && !Readable(data, m.chunks[i]);
    }
  }

  lemma MisreadIs(S: Store, bin: Bin, path: string)
    requires Exists(S, bin, path)
    ensures Misread(S, bin, path) <==> LoadFile(S, bin, path) == Unreadable
  {
    var meta, data := bin[MetaFile(S.idOf(path))], DataFile(S.idOf(path));
    hide Agrees, Accepts, Parsed, ReadBlobs, Lacking;
    if Accepts(meta) {
      LoadsIff(meta, Parsed(meta));
      if data in bin {
        LackingIs(bin[data], Parsed(meta));
      }
    }
    forall m | Agrees(meta, m) ensures Accepts(meta) && m == Parsed(meta) {
      LoadsIff(meta, m);
    }
  }

  /** Such a file gives the I/O error; a load that fails on any other throws. */
  lemma LoadFailureIs(S: Store, bin: Bin, path: string)
    requires Exists(S, bin, path)
    ensures Misread(S, bin, path) ==> !Healthy(S, bin, path) && LoadFailure(S, bin, path) == EIO
    ensures !Misread(S, bin, path) ==> LoadFailure(S, bin, path) == Thrown
  {
    hide LoadFile, Misread;
    MisreadIs(S, bin, path);
  }

  method LoadHandle(S: Store, B: Backing, path: string, trunc: bool) returns (rc: Rc, h: OpenFileHandle?)
    requires Exists(S, B.disk.bin, path)
    ensures h == null <==> !Healthy(S, B.disk.bin, path)
    ensures rc == if h == null then LoadFailure(S, B.disk.bin, path) else Success
    ensures h != null ==> fresh(h) && h.path == path &&
                          LiveOf(h) == Some(Loaded(StoredContent(S, B.disk.bin, path).value, trunc))
  {
    var r := LoadLogicalFile(S, B.disk.bin, path);
    hide LoadFile;
    match r
    case Read(Ok(bytes)) =>
      h := new OpenFileHandle(path, bytes, false);
      if trunc {
        h.data, h.dirty := [], true;
      }
      rc := Success;
    case Unreadable => rc, h := EIO, null;
    case _ => rc, h := Thrown, null;
  }

  /** `cfs_open`; `isDirectory` is what the backing directory says of an unindexed path. */
  method CfsOpen(S: Store, B: Backing, path: string, trunc: bool, isDirectory: bool)
    returns (rc: Rc, h: OpenFileHandle?)
    ensures !Exists(S, B.disk.bin, path) ==> h == null && rc == if isDirectory then EISDIR else ENOENT
    ensures !Healthy(S, B.disk.bin, path) ==> h == null && rc == LoadFailure(S, B.disk.bin, path)
    ensures Healthy(S, B.disk.bin, path) ==>
              LiveOf(h) == SessionStep(SessionOf(S, B.disk.bin, path, None), Open(trunc)).live
    ensures h != null ==> fresh(h) && h.path == path && rc == Success
  {
    hide LoadFile;
    if !Exists(S, B.disk.bin, path) {
      return if isDirectory then EISDIR else ENOENT, null;
    }
    rc, h := LoadHandle(S, B, path, trunc);
  }

  method CfsCreate(S: Store, B: Backing, path: string, excl: bool, trunc: bool) returns (rc: Rc, h: OpenFileHandle?)
    ensures excl && Exists(S, B.disk.bin, path) ==> h == null && rc == EEXIST
    ensures !Healthy(S, B.disk.bin, path) && !excl ==> h == null && rc == LoadFailure(S, B.disk.bin, path)
    ensures Healthy(S, B.disk.bin, path) ==>
              LiveOf(h) == SessionStep(SessionOf(S, B.disk.bin, path, None), Create(excl, trunc)).live
    ensures h != null ==> fresh(h) && h.path == path && rc == Success
  {
    hide LoadFile;
    if !Exists(S, B.disk.bin, path) {
      h := new OpenFileHandle(path, [], true);
      return Success, h;
    }
    if excl {
      return EEXIST, null;
    }
    rc, h := LoadHandle(S, B, path, trunc);
  }

  method CfsRead(h: OpenFileHandle, size: nat, off: int) returns (rc: Rc, bytes: seq<byte>)
    ensures off < 0 ==> rc == EINVAL && bytes == []
    ensures off >= 0 ==> bytes == Slice(h.data, off, size) && rc == Count(|bytes|)
  {
    if off < 0 {
      return EINVAL, [];
    }
    if off >= |h.data| {
      return Count(0), [];
    }
    var toCopy := Min(size, |h.data| - off);
    bytes := h.data[off..off + toCopy];
    rc := Count(toCopy);
  }

  method CfsWrite(h: OpenFileHandle, buf: seq<byte>, off: int) returns (rc: Rc)
    modifies h
    ensures h.path == old(h.path)
    ensures off < 0 ==> rc == EINVAL && LiveOf(h) == old(LiveOf(h))
    ensures off >= 0 ==> rc == Count(|buf|)
    ensures off >= 0 ==>
              forall stored :: LiveOf(h) == SessionStep(Session(stored, old(LiveOf(h))), Write(buf, off)).live
  {
    if off < 0 {
      return EINVAL;
    }
    var need := off + |buf|;
    if |h.data| < need {
      h.data := h.data + Zeros(need - |h.data|);
    }
    assert h.data == Resized(old(h.data), Max(|old(h.data)|, need));
    h.data := h.data[..off] + buf + h.data[off + |buf|..];
    h.dirty := true;
    rc := Count(|buf|);
  }

  /** `cfs_truncate` through a handle. */
  method CfsTruncate(h: OpenFileHandle, size: int) returns (rc: Rc)
    modifies h
    ensures h.path == old(h.path)
    ensures size < 0 ==> rc == EINVAL && LiveOf(h) == old(LiveOf(h))
    ensures size >= 0 ==> rc == Success
    ensures size >= 0 ==>
              forall stored :: LiveOf(h) == SessionStep(Session(stored, old(LiveOf(h))), Truncate(size)).live
  {
    if size < 0 {
      return EINVAL;
    }
    h.data := Resized(h.data, size);
    h.dirty := true;
    rc := Success;
  }

  /** `cfs_truncate` by path, when no handle is given: load, resize, persist; other paths are passed on. */
  method CfsTruncatePath(S: Store, B: Backing, path: string, size: nat) returns (rc: Rc)
    requires size < TWO_64
    modifies B
    ensures OnlyFilesOf(S, old(B.disk.bin), B.disk.bin, path)
    ensures !old(Exists(S, B.disk.bin, path)) ==> rc == PassedOn && B.disk == old(B.disk)
    ensures !old(Healthy(S, B.disk.bin, path)) ==>
              rc == old(LoadFailure(S, B.disk.bin, path)) && B.disk == old(B.disk)
    ensures old(Exists(S, B.disk.bin, path)) && old(Healthy(S, B.disk.bin, path)) ==>
              var data := Resized(old(StoredContent(S, B.disk.bin, path)).value, size);
              && rc == Success && Holds(S, B.disk.bin, path, data)
              && (Fits(data) ==> Healthy(S, B.disk.bin, path) && StoredContent(S, B.disk.bin, path) == Some(data))
  {
    hide LoadFile, Concat, Blobs, Encode;
    if !Exists(S, B.disk.bin, path) {
      return PassedOn;
    }
    var r := LoadLogicalFile(S, B.disk.bin, path);
    match r
    case Read(Ok(bytes)) =>
      var data := Resized(bytes, size);
      PersistLogicalFile(S, B, path, data);
      if Fits(data) {
        PersistedIsStored(S, B.disk.bin, path, data);
      }
      rc := Success;
    case Unreadable => rc := EIO;
    case _ => rc := Thrown;
  }

  /** `cfs_release`: flush, and the handle is gone. */
  method CfsRelease(S: Store, B: Backing, h: OpenFileHandle) returns (rc: Rc)
    requires |h.data| < TWO_64
    modifies B, h
    ensures rc == Success && OnlyFilesOf(S, old(B.disk.bin), B.disk.bin, old(h.path))
    ensures if old(h.dirty) then Holds(S, B.disk.bin, old(h.path), old(h.data)) else B.disk == old(B.disk)
    ensures old(Healthy(S, B.disk.bin, h.path)) && Fits(old(h.data)) ==>
              && Healthy(S, B.disk.bin, old(h.path))
              && SessionOf(S, B.disk.bin, old(h.path), None) ==
                 SessionStep(old(SessionOf(S, B.disk.bin, h.path, LiveOf(h))), Release)
  {
    hide LoadFile, Fits, Holds, OnlyFilesOf, StoredContent, Healthy;
    rc := FlushHandleIfDirty(S, B, h);
  }

  // ---------------------------------------------------------------- runs on the disk

  /** The content of every handle on the way can be persisted and loaded back. */
  predicate FitsRun(s: Session, cs: seq<Call>)
    requires CallableRun(s, cs)
    decreases |cs|
  {
    (s.live.Some? ==> Fits(s.live.value.data)) && (cs == [] || FitsRun(SessionStep(s, cs[0]), cs[1..]))
  }

  /** That is said of the handle after every part of the run. */
  lemma {:induction false} FitsRunIff(s: Session, cs: seq<Call>)
    requires CallableRun(s, cs)
    ensures FitsRun(s, cs) <==>
            forall k: nat :: k <= |cs| && CallableRun(s, cs[..k]) && SessionRun(s, cs[..k]).live.Some? ==>
              Fits(SessionRun(s, cs[..k]).live.value.data)
    decreases |cs|
  {
    hide Fits, SessionStep;
    assert cs[..0] == [] && SessionRun(s, cs[..0]) == s;
    if cs != [] {
      var t := SessionStep(s, cs[0]);
      FitsRunIff(t, cs[1..]);
      forall k: nat | 0 < k <= |cs|
        ensures cs[..k][0] == cs[0] && cs[..k][1..] == cs[1..][..k - 1]
      {
      }
      forall k: nat | k < |cs| ensures cs[..k + 1][0] == cs[0] && cs[..k + 1][1..] == cs[1..][..k] {
      }
    }
  }

  /** One call of a run, on the disk and the live handle. */
  method DoCall(S: Store, B: Backing, path: string, h: OpenFileHandle?, c: Call) returns (h': OpenFileHandle?)
    requires Healthy(S, B.disk.bin, path) && (h != null ==> h.path == path && Fits(h.data))
    requires Callable(SessionOf(S, B.disk.bin, path, LiveOf(h)), c)
    modifies B, h
    ensures h' != null ==> (h' == h || fresh(h')) && h'.path == path
    ensures Healthy(S, B.disk.bin, path) && OnlyFilesOf(S, old(B.disk.bin), B.disk.bin, path)
    ensures SessionOf(S, B.disk.bin, path, LiveOf(h')) == SessionStep(old(SessionOf(S, B.disk.bin, path, LiveOf(h))), c)
  {
    hide LoadFile, Fits;
    var rc;
    h' := h;
    match c
    case Open(trunc) => rc, h' := CfsOpen(S, B, path, trunc, false);
    case Create(excl, trunc) => rc, h' := CfsCreate(S, B, path, excl, trunc);
    case Write(buf, off) => rc := CfsWrite(h, buf, off);
    case Truncate(n) => rc := CfsTruncate(h, n);
    case Flush =>
      FitsWidth(h.data);
      rc := FlushHandleIfDirty(S, B, h);
    case Release =>
      FitsWidth(h.data);
      rc := CfsRelease(S, B, h);
      h' := null;
  }

  lemma FitsWidth(data: seq<byte>)
    requires Fits(data)
    ensures |data| < TWO_64
  {
  }

  lemma OnlyFilesTrans(S: Store, a: Bin, b: Bin, c: Bin, path: string)
    requires OnlyFilesOf(S, a, b, path) && OnlyFilesOf(S, b, c, path)
    ensures OnlyFilesOf(S, a, c, path)
  {
    forall n: BinName | n.id != S.idOf(path) ensures SameAt(c, a, n) {
      assert SameAt(b, a, n) && SameAt(c, b, n);
    }
  }

  /**
   Any run of calls on a path, on the disk: afterwards the disk and the live handle are those of the session, and once
   the last handle is released the persisted content is that of a file changed at once. Files of other ids stay as
   they were.
   */
  method RunCalls(S: Store, B: Backing, path: string, calls: seq<Call>) returns (h: OpenFileHandle?)
    requires Healthy(S, B.disk.bin, path)
    requires var s := SessionOf(S, B.disk.bin, path, None); CallableRun(s, calls) && FitsRun(s, calls)
    modifies B
    ensures Healthy(S, B.disk.bin, path) && OnlyFilesOf(S, old(B.disk.bin), B.disk.bin, path)
    ensures SessionOf(S, B.disk.bin, path, LiveOf(h)) == SessionRun(old(SessionOf(S, B.disk.bin, path, None)), calls)
    ensures h != null ==> FileRun(old(StoredContent(S, B.disk.bin, path)), calls) == Some(h.data)
    ensures h == null ==> StoredContent(S, B.disk.bin, path) == FileRun(old(StoredContent(S, B.disk.bin, path)), calls)
  {
    hide LoadFile, Fits, SessionStep, OnlyFilesOf, FileStep;
    ghost var bin0, start := B.disk.bin, SessionOf(S, B.disk.bin, path, None);
    h := null;
    var i := 0;
    NothingChanged(S, bin0, path);
    assert calls[0..] == calls;
    while i < |calls|
      invariant 0 <= i <= |calls| && Healthy(S, B.disk.bin, path) && OnlyFilesOf(S, bin0, B.disk.bin, path)
      invariant h != null ==> fresh(h) && h.path == path
      invariant var s := SessionOf(S, B.disk.bin, path, LiveOf(h));
                && CallableRun(s, calls[i..]) && FitsRun(s, calls[i..])
                && SessionRun(s, calls[i..]) == SessionRun(start, calls)
    {
      ghost var bin := B.disk.bin;
      assert calls[i..][0] == calls[i] && calls[i..][1..] == calls[i + 1..];
      h := DoCall(S, B, path, h, calls[i]);
      OnlyFilesTrans(S, bin0, bin, B.disk.bin, path);
      i := i + 1;
    }
    SessionRefines(start, calls);
  }

  lemma NothingChanged(S: Store, bin: Bin, path: string)
    ensures OnlyFilesOf(S, bin, bin, path)
  {
  }
}
