/** One pooled read as a step system: its chunk tasks in any interleaving, among writers of the same file. */
module PooledRead {
  import opened Bytes
  import opened ChunkedFile
  import opened ChunkedRead

  /** `Passed` has found `err` unset; `Locked` and `Sized` hold the shared lock. */
  datatype TaskPc = NotStarted | Passed | Locked | Sized | Finished

  /**
   `versions` is history: the file, record and chunks, when the read has loaded the record and after each writer critical
   section since; `seen[i]` is the version that task `i` collected its chunk from.
   */
  datatype Read = Read(
    file: File, writer: bool, err: bool, tasks: seq<TaskPc>, slots: seq<seq<byte>>,
    versions: seq<File>, seen: seq<Option<nat>>)

  datatype Event =
    | Begin(i: nat)
    | Lock(i: nat)
    | Size(i: nat)
    | Load(i: nat)
    | WriterLock
    | WriterStore(ci: nat, blob: seq<byte>)
    | WriterRemove(ci: nat)
    | WriterSave(size: nat, n: nat, csize: nat)
    | WriterUnlock

  // ---------------------------------------------------------------- the request

  /** The bytes asked for, as the record of `f` clamps them. */
  function Want(f: File, size: nat, off: nat): nat
  {
    if off < f.size then Min(size, f.size - off) else 0
  }

  /** The place of the request in its first chunk. */
  function Skip(C: pos, off: nat): nat
  {
    off % C
  }

  lemma SkipIs(C: pos, off: nat)
    ensures Skip(C, off) < C && off / C * C + Skip(C, off) == off
  {
  }

  /** The number of tasks of a read that loads the record of `f`; none if the buffers for them cannot be had. */
  function Tasks(L: Layout, f: File, size: nat, off: nat): nat
  {
    if off >= f.size then 0
    else if off + Want(f, size, off) == 0 then
      var nc := BufferCount(L.C, 0, 0);
      if nc <= 1 then nc else 0
    else ChunkSpan(L.C, off, Want(f, size, off))
  }

  /** However the file grows, a read has no more tasks than this. */
  lemma TasksBound(L: Layout, f: File, size: nat, off: nat)
    ensures Tasks(L, f, size, off) <= size + 1
  {
    if off < f.size && 0 < off + Want(f, size, off) {
      SpanBound(L.C, off, Want(f, size, off));
    }
    hide BufferCount;
  }

  lemma SpanBound(C: pos, off: nat, want: nat)
    requires 0 < off + want
    ensures ChunkSpan(C, off, want) <= want + 1
  {
    if 0 < want {
      QuotientStep(off, want - 1, C);
    } else {
      DivMono(off - 1, off, C);
    }
  }

  lemma {:induction false} QuotientStep(a: nat, b: nat, C: pos)
    ensures (a + b) / C <= a / C + b
  {
    if 0 < b {
      QuotientStep(a, b - 1, C);
      var q := (a + b - 1) / C;
      ChunkOf(a + b - 1, q, C);
      ChunkOf(a + b, q, C);
      assert (q + 1) * C == q * C + C;
      ChunkOf(a + b, q + 1, C);
    }
  }

  /** What a read returns that has the clamp of `f` and the chunks of `v`. */
  function ReadAs(L: Layout, v: File, f: File, size: nat, off: nat): ReadResult
  {
    ReadFile(L, v.(size := f.size), size, off)
  }

  // ---------------------------------------------------------------- the steps

  function Init(f: File, nc: nat): Read
  {
    Read(f, false, false, seq(nc, _ => NotStarted), seq(nc, _ => []), [f], seq(nc, _ => None))
  }

  /** The read of a request that has loaded the record of `f`. */
  function Start(L: Layout, f: File, size: nat, off: nat): Read
  {
    Init(f, Tasks(L, f, size, off))
  }

  predicate At(s: Read, i: nat, pc: TaskPc)
  {
    i < |s.tasks| && s.tasks[i] == pc
  }

  predicate Enabled(s: Read, e: Event)
  {
    match e
    case Begin(i) => At(s, i, NotStarted)
    case Lock(i) => At(s, i, Passed) && !s.writer
    case Size(i) => At(s, i, Locked)
    case Load(i) => At(s, i, Sized)
    case WriterLock => !s.writer && Locked !in s.tasks && Sized !in s.tasks
    case WriterStore(_, _) => s.writer
    case WriterRemove(_) => s.writer
    case WriterSave(_, _, _) => s.writer
    case WriterUnlock => s.writer
  }

  predicate Shaped(s: Read)
  {
    |s.tasks| == |s.slots| == |s.seen| && 0 < |s.versions|
  }

  /** Task `i` ends with `chunk` in its slot. */
  function Collect(s: Read, i: nat, chunk: seq<byte>): Read
    requires Shaped(s) && i < |s.tasks|
  {
    s.(tasks := s.tasks[i := Finished], slots := s.slots[i := chunk], seen := s.seen[i := Some(|s.versions| - 1)])
  }

  function Next(L: Layout, fc: nat, s: Read, e: Event): Read
    requires Shaped(s) && Enabled(s, e)
  {
    match e
    case Begin(i) => s.(tasks := s.tasks[i := if s.err then Finished else Passed])
    case Lock(i) => s.(tasks := s.tasks[i := Locked])
    case Size(i) =>
      if DiskSize(s.file.blobs, fc + i) == 0 then Collect(s, i, Zeros(L.C)) else s.(tasks := s.tasks[i := Sized])
    case Load(i) =>
      var d := if fc + i in s.file.blobs then Decoded(L, s.file.blobs[fc + i]) else [];
      if d == [] then s.(tasks := s.tasks[i := Finished], err := true) else Collect(s, i, s.slots[i] + d)
    case WriterLock => s.(writer := true)
    case WriterStore(ci, blob) => s.(file := s.file.(blobs := s.file.blobs[ci := blob]))
    case WriterRemove(ci) => s.(file := s.file.(blobs := Without(s.file.blobs, ci)))
    case WriterSave(size, n, csize) => s.(file := s.file.(size := size, n := n, csize := csize))
    case WriterUnlock => s.(writer := false, versions := s.versions + [s.file])
  }

  // ---------------------------------------------------------------- the invariant

  /** What is known of task `i`: a filled slot is its chunk in one version; an unfilled finished one means `err`. */
  ghost predicate TaskOk(L: Layout, fc: nat, s: Read, i: nat)
    requires Shaped(s)
  {
    i < |s.tasks| ==>
      && (s.tasks[i] == Locked || s.tasks[i] == Sized ==> !s.writer)
      && (s.tasks[i] == Sized ==> DiskSize(s.file.blobs, fc + i) != 0)
      && (s.tasks[i] != Finished ==> s.slots[i] == [] && s.seen[i] == None)
      && (s.tasks[i] == Finished && s.seen[i] == None ==> s.err)
      && (s.seen[i].Some? ==>
            s.seen[i].value < |s.versions| && Fetch(L, s.versions[s.seen[i].value].blobs, fc + i) == Some(s.slots[i]))
  }

  /** In version `k`, task `i` collects `o`: its chunk, or None where the chunk file does not decode. */
  ghost predicate Gives(L: Layout, fc: nat, s: Read, k: nat, i: nat, o: Option<seq<byte>>)
  {
    && k < |s.versions| && i < |s.tasks|
    && match o
       case None => Undecodable(L, s.versions[k].blobs, fc + i)
       case Some(c) => Collected(L, s.versions[k].blobs, fc + i, c)
  }

  lemma GivesFetch(L: Layout, fc: nat, s: Read, k: nat, i: nat, o: Option<seq<byte>>)
    requires k < |s.versions| && i < |s.tasks|
    ensures Gives(L, fc, s, k, i, o) <==> Fetch(L, s.versions[k].blobs, fc + i) == o
  {
    match o
    case None => FetchFailsIff(L, s.versions[k].blobs, fc + i);
    case Some(c) => CollectedIs(L, s.versions[k].blobs, fc + i, c);
  }

  /** The slot of task `i` holds its chunk as some version has it. */
  ghost predicate FromOneVersion(L: Layout, fc: nat, s: Read, i: nat)
  {
    i < |s.slots| && exists k: nat :: Gives(L, fc, s, k, i, Some(s.slots[i]))
  }

  /** `err` is set only by a chunk that is present and does not decode in some version. */
  ghost predicate ErrJustified(L: Layout, fc: nat, s: Read)
  {
    s.err ==> exists k: nat, i: nat :: Gives(L, fc, s, k, i, None)
  }

  ghost predicate Inv(L: Layout, fc: nat, s: Read)
  {
    && Shaped(s)
    && (!s.writer ==> s.file == s.versions[|s.versions| - 1])
    && (forall i: nat :: TaskOk(L, fc, s, i))
    && ErrJustified(L, fc, s)
  }

  lemma InitInv(L: Layout, fc: nat, f: File, nc: nat)
    ensures Inv(L, fc, Init(f, nc))
  {
  }

  /** A task step changes nothing of the other tasks. */
  lemma OthersOk(L: Layout, fc: nat, s: Read, s': Read, i: nat)
    requires Inv(L, fc, s) && Shaped(s') && i < |s.tasks|
    requires |s'.tasks| == |s.tasks| && s'.versions == s.versions && s'.file == s.file && s'.writer == s.writer
    requires s.err ==> s'.err
    requires forall j :: 0 <= j < |s.tasks| && j != i ==>
               s'.tasks[j] == s.tasks[j] && s'.slots[j] == s.slots[j] && s'.seen[j] == s.seen[j]
    requires TaskOk(L, fc, s', i) && ErrJustified(L, fc, s')
    ensures Inv(L, fc, s')
  {
    forall j: nat ensures TaskOk(L, fc, s', j) {
      assert TaskOk(L, fc, s, j);
    }
  }

  lemma SameVersions(L: Layout, fc: nat, s: Read, s': Read)
    requires ErrJustified(L, fc, s) && |s'.tasks| == |s.tasks| && s.versions <= s'.versions && s'.err == s.err
    ensures ErrJustified(L, fc, s')
  {
    if s.err {
      var k: nat, i: nat :| Gives(L, fc, s, k, i, None);
      assert Gives(L, fc, s', k, i, None);
    }
  }

  lemma TaskStepInv(L: Layout, fc: nat, s: Read, e: Event)
    requires Inv(L, fc, s) && Enabled(s, e) && (e.Begin? || e.Lock? || e.Size? || e.Load?)
    ensures Inv(L, fc, Next(L, fc, s, e))
  {
    var s' := Next(L, fc, s, e);
    assert TaskOk(L, fc, s, e.i);
    if e.Load? {
      LoadJustified(L, fc, s, e.i);
    } else {
      SameVersions(L, fc, s, s');
    }
    OthersOk(L, fc, s, s', e.i);
  }

  lemma LoadJustified(L: Layout, fc: nat, s: Read, i: nat)
    requires Inv(L, fc, s) && At(s, i, Sized)
    ensures ErrJustified(L, fc, Next(L, fc, s, Load(i))) && TaskOk(L, fc, Next(L, fc, s, Load(i)), i)
  {
    var s' := Next(L, fc, s, Load(i));
    assert TaskOk(L, fc, s, i);
    var last := |s.versions| - 1;
    assert fc + i in s.file.blobs;
    assert s.slots[i] + Decoded(L, s.file.blobs[fc + i]) == Decoded(L, s.file.blobs[fc + i]);
    if s'.err && !s.err {
      GivesFetch(L, fc, s', last, i, None);
    } else {
      SameVersions(L, fc, s, s');
    }
  }

  lemma WriterStepInv(L: Layout, fc: nat, s: Read, e: Event)
    requires Inv(L, fc, s) && Enabled(s, e) && !(e.Begin? || e.Lock? || e.Size? || e.Load?)
    ensures Inv(L, fc, Next(L, fc, s, e))
  {
    var s' := Next(L, fc, s, e);
    forall i: nat ensures TaskOk(L, fc, s', i) {
      assert TaskOk(L, fc, s, i);
      assert i < |s.tasks| ==> s.tasks[i] in s.tasks;
    }
    SameVersions(L, fc, s, s');
  }

  // ---------------------------------------------------------------- runs

  ghost predicate Run(L: Layout, fc: nat, s: Read, es: seq<Event>)
    decreases |es|
  {
    es == [] || (Shaped(s) && Enabled(s, es[0]) && Run(L, fc, Next(L, fc, s, es[0]), es[1..]))
  }

  ghost function After(L: Layout, fc: nat, s: Read, es: seq<Event>): Read
    requires Run(L, fc, s, es)
    decreases |es|
  {
    if es == [] then s else After(L, fc, Next(L, fc, s, es[0]), es[1..])
  }

  lemma {:induction false} RunInv(L: Layout, fc: nat, s: Read, es: seq<Event>)
    requires Inv(L, fc, s) && Run(L, fc, s, es)
    ensures Inv(L, fc, After(L, fc, s, es)) && |After(L, fc, s, es).tasks| == |s.tasks|
    ensures s.versions <= After(L, fc, s, es).versions
    decreases |es|
  {
    if es != [] {
      var e := es[0];
      if e.Begin? || e.Lock? || e.Size? || e.Load? {
        TaskStepInv(L, fc, s, e);
      } else {
        WriterStepInv(L, fc, s, e);
      }
      RunInv(L, fc, Next(L, fc, s, e), es[1..]);
    }
  }

  ghost predicate AllFinished(s: Read)
  {
    forall i :: 0 <= i < |s.tasks| ==> s.tasks[i] == Finished
  }

  /** What `cfs_read` returns: at once where there is nothing to read or no memory, else once `wait_all` has returned. */
  function Result(L: Layout, s: Read, size: nat, off: nat): ReadResult
    requires Shaped(s)
  {
    var want := Want(s.versions[0], size, off);
    if off >= s.versions[0].size then Data([])
    else if off + want == 0 && BufferCount(L.C, 0, 0) > 1 then AllocFailure(BufferCount(L.C, 0, 0))
    else if s.err then IoError
    else Data(Assemble(s.slots, Skip(L.C, off), want))
  }

  /** Tasks that have all collected from version `v` give the sequential read of its chunks, with the clamp loaded. */
  lemma ResultIs(L: Layout, s: Read, v: File, size: nat, off: nat)
    requires Shaped(s) && |s.tasks| == Tasks(L, s.versions[0], size, off)
    requires var parts := Fetched(L, v.blobs, off / L.C, |s.tasks|);
             if s.err then None in parts else None !in parts && Values(parts) == s.slots
    ensures Result(L, s, size, off) == ReadAs(L, v, s.versions[0], size, off)
  {
    SkipIs(L.C, off);
    ChunkOf(off, off / L.C, L.C);
    ChunkOf(0, 0, L.C);
    hide Fetched, Values, Assemble, BufferCount, Skip;
  }

  /** Once all tasks have finished, every slot is its chunk in one version, or `err` is set. */
  lemma FinishedChunks(L: Layout, fc: nat, s: Read)
    requires Inv(L, fc, s) && AllFinished(s)
    ensures !s.err ==> forall i: nat :: i < |s.tasks| ==> FromOneVersion(L, fc, s, i)
  {
    if !s.err {
      forall i: nat | i < |s.tasks| ensures FromOneVersion(L, fc, s, i) {
        assert TaskOk(L, fc, s, i) && s.tasks[i] == Finished;
        GivesFetch(L, fc, s, s.seen[i].value, i, Some(s.slots[i]));
        assert Gives(L, fc, s, s.seen[i].value, i, Some(s.slots[i]));
      }
    }
  }

  /** The result is that of the chunks of version `k`, with the clamp of the version whose record was loaded. */
  ghost predicate HasVersion(L: Layout, s: Read, k: nat, size: nat, off: nat)
  {
    Shaped(s) && k < |s.versions| && Result(L, s, size, off) == ReadAs(L, s.versions[k], s.versions[0], size, off)
  }

  /** All tasks have collected from version `k`, or `err` is set for a chunk of it. */
  ghost predicate AllFrom(L: Layout, fc: nat, s: Read, k: nat)
  {
    && Shaped(s) && k < |s.versions|
    && (!s.err ==> forall i: nat :: i < |s.tasks| ==> Gives(L, fc, s, k, i, Some(s.slots[i])))
    && (s.err ==> exists i: nat :: Gives(L, fc, s, k, i, None))
  }

  lemma AllFromOne(L: Layout, s: Read, k: nat, size: nat, off: nat)
    requires AllFrom(L, off / L.C, s, k) && |s.tasks| == Tasks(L, s.versions[0], size, off)
    ensures HasVersion(L, s, k, size, off)
  {
    var fc := off / L.C;
    var parts := Fetched(L, s.versions[k].blobs, fc, |s.tasks|);
    hide Fetch, Tasks, Result, ReadFile;
    if s.err {
      var i: nat :| Gives(L, fc, s, k, i, None);
      GivesFetch(L, fc, s, k, i, None);
      assert parts[i] == None;
    } else {
      forall i: nat | i < |s.tasks| ensures parts[i] == Some(s.slots[i]) {
        assert Gives(L, fc, s, k, i, Some(s.slots[i]));
        GivesFetch(L, fc, s, k, i, Some(s.slots[i]));
      }
      assert Values(parts) == s.slots;
    }
    ResultIs(L, s, s.versions[k], size, off);
  }

  /** And if no writer has completed since the record was loaded, the result is the sequential one. */
  lemma FinishedAlone(L: Layout, s: Read, size: nat, off: nat)
    requires Inv(L, off / L.C, s) && AllFinished(s) && |s.versions| == 1
    requires |s.tasks| == Tasks(L, s.versions[0], size, off)
    ensures Result(L, s, size, off) == ReadFile(L, s.versions[0], size, off)
  {
    var fc, f := off / L.C, s.versions[0];
    FinishedChunks(L, fc, s);
    hide Tasks, Result, Fetch, ReadFile;
    forall i: nat | !s.err && i < |s.tasks| ensures Gives(L, fc, s, 0, i, Some(s.slots[i])) {
      assert FromOneVersion(L, fc, s, i);
    }
    if s.err {
      var k: nat, i: nat :| Gives(L, fc, s, k, i, None);
      assert Gives(L, fc, s, 0, i, None);
    }
    AllFromOne(L, s, 0, size, off);
    assert f.(size := f.size) == f;
  }

  /** A finished read of at most one chunk has one version's chunk, and the clamp of the record. */
  lemma FinishedOne(L: Layout, s: Read, size: nat, off: nat)
    requires Inv(L, off / L.C, s) && AllFinished(s) && |s.tasks| <= 1
    requires |s.tasks| == Tasks(L, s.versions[0], size, off)
    ensures exists k: nat :: HasVersion(L, s, k, size, off)
  {
    var fc := off / L.C;
    FinishedChunks(L, fc, s);
    hide Tasks, Result, Fetch, ReadFile, HasVersion;
    var k: nat := 0;
    if s.err {
      var l: nat, i: nat :| Gives(L, fc, s, l, i, None);
      k := l;
      assert Gives(L, fc, s, k, i, None);
    } else if |s.tasks| == 1 {
      assert FromOneVersion(L, fc, s, 0);
      var l: nat :| Gives(L, fc, s, l, 0, Some(s.slots[0]));
      k := l;
    }
    assert AllFrom(L, fc, s, k);
    AllFromOne(L, s, k, size, off);
  }

  /**
   With writers interleaved at will: every chunk the read collects is that chunk in the state when the record was
   loaded or after some complete writer critical section, and an error means that one such chunk did not decode.
   */
  lemma EachChunkFromOneVersion(L: Layout, fc: nat, f: File, nc: nat, es: seq<Event>)
    requires Run(L, fc, Init(f, nc), es) && AllFinished(After(L, fc, Init(f, nc), es))
    ensures var s := After(L, fc, Init(f, nc), es);
            && |s.slots| == |s.tasks| == nc && 0 < |s.versions| && s.versions[0] == f
            && (s.err ==> exists k: nat, i: nat :: Gives(L, fc, s, k, i, None))
            && (!s.err ==> forall i: nat :: i < nc ==> FromOneVersion(L, fc, s, i))
  {
    InitInv(L, fc, f, nc);
    RunInv(L, fc, Init(f, nc), es);
    FinishedChunks(L, fc, After(L, fc, Init(f, nc), es));
  }

  /** What is known of a finished run from the loading of the record on. */
  lemma RunOfRequest(L: Layout, f: File, size: nat, off: nat, es: seq<Event>)
    requires Run(L, off / L.C, Start(L, f, size, off), es)
    ensures var s := After(L, off / L.C, Start(L, f, size, off), es);
            && Inv(L, off / L.C, s) && Shaped(s) && s.versions[0] == f && |s.tasks| == Tasks(L, f, size, off)
  {
    hide Tasks;
    InitInv(L, off / L.C, f, Tasks(L, f, size, off));
    RunInv(L, off / L.C, Start(L, f, size, off), es);
  }

  ghost predicate NoWriter(es: seq<Event>)
  {
    forall i :: 0 <= i < |es| ==> es[i].Begin? || es[i].Lock? || es[i].Size? || es[i].Load?
  }

  lemma {:induction false} NoWriterOneVersion(L: Layout, fc: nat, s: Read, es: seq<Event>)
    requires Run(L, fc, s, es) && NoWriter(es)
    ensures After(L, fc, s, es).versions == s.versions
    decreases |es|
  {
    if es != [] {
      assert es[0].Begin? || es[0].Lock? || es[0].Size? || es[0].Load?;
      NoWriterOneVersion(L, fc, Next(L, fc, s, es[0]), es[1..]);
    }
  }

  /**
   Without an intervening writer every schedule of the tasks gives the sequential result: an error exactly when
   some present chunk does not decode, although tasks are skipped once `err` is set.
   */
  lemma ScheduleIndependent(L: Layout, f: File, size: nat, off: nat, es: seq<Event>)
    requires Run(L, off / L.C, Start(L, f, size, off), es) && NoWriter(es)
    requires AllFinished(After(L, off / L.C, Start(L, f, size, off), es))
    ensures Shaped(After(L, off / L.C, Start(L, f, size, off), es))
    ensures Result(L, After(L, off / L.C, Start(L, f, size, off), es), size, off) == ReadFile(L, f, size, off)
  {
    hide Tasks, Inv, Result, ReadFile;
    RunOfRequest(L, f, size, off, es);
    NoWriterOneVersion(L, off / L.C, Start(L, f, size, off), es);
    FinishedAlone(L, After(L, off / L.C, Start(L, f, size, off), es), size, off);
  }

  /** And it is an error exactly when some chunk that the request touches has a chunk file that does not decode. */
  lemma ScheduleFailsIff(L: Layout, f: File, size: nat, off: nat, es: seq<Event>)
    requires Run(L, off / L.C, Start(L, f, size, off), es) && NoWriter(es) && 0 < off + size
    requires AllFinished(After(L, off / L.C, Start(L, f, size, off), es))
    ensures Shaped(After(L, off / L.C, Start(L, f, size, off), es))
    ensures Result(L, After(L, off / L.C, Start(L, f, size, off), es), size, off) == IoError <==>
            && off < f.size
            && exists i: nat :: off / L.C <= i <= (off + Min(size, f.size - off) - 1) / L.C &&
                                Undecodable(L, f.blobs, i)
  {
    hide *;
    ScheduleIndependent(L, f, size, off, es);
    ReadFailsIff(L, f, size, off);
  }

  // ---------------------------------------------------------------- progress

  function TaskRank(pc: TaskPc): nat
  {
    match pc
    case NotStarted => 4
    case Passed => 3
    case Locked => 2
    case Sized => 1
    case Finished => 0
  }

  function Rank(ts: seq<TaskPc>): nat
  {
    if ts == [] then 0 else TaskRank(ts[0]) + Rank(ts[1..])
  }

  lemma {:induction false} RankUpdate(ts: seq<TaskPc>, i: nat, pc: TaskPc)
    requires i < |ts| && TaskRank(pc) < TaskRank(ts[i])
    ensures Rank(ts[i := pc]) < Rank(ts)
  {
    if i == 0 {
      assert ts[i := pc][1..] == ts[1..];
    } else {
      RankUpdate(ts[1..], i - 1, pc);
      assert ts[i := pc][1..] == ts[1..][i - 1 := pc];
    }
  }

  /** Every task step brings the read closer to its end, and writer steps do not set it back. */
  lemma StepRank(L: Layout, fc: nat, s: Read, e: Event)
    requires Shaped(s) && Enabled(s, e)
    ensures Rank(Next(L, fc, s, e).tasks) <= Rank(s.tasks)
    ensures e.Begin? || e.Lock? || e.Size? || e.Load? ==> Rank(Next(L, fc, s, e).tasks) < Rank(s.tasks)
  {
    if e.Begin? || e.Lock? || e.Size? || e.Load? {
      RankUpdate(s.tasks, e.i, Next(L, fc, s, e).tasks[e.i]);
    }
  }
}
