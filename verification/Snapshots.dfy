/** When a pooled read returns what one version of the file holds, whatever writers come between its tasks. */
module Snapshots {
  import opened Bytes
  import opened ChunkedFile
  import opened ChunkedRead
  import opened PooledRead
  import F = FileRuns

  ghost predicate ReadsVersion(L: Layout, s: Read, k: nat, size: nat, off: nat)
  {
    Shaped(s) && k < |s.versions| && Result(L, s, size, off) == ReadFile(L, s.versions[k], size, off)
  }

  /** The result is what reading one version of the file returns. */
  ghost predicate Snapshot(L: Layout, s: Read, size: nat, off: nat)
  {
    exists k: nat :: ReadsVersion(L, s, k, size, off)
  }

  /** The request has the same clamp in every version. */
  ghost predicate KeepsClamp(vs: seq<File>, size: nat, off: nat)
  {
    0 < |vs| && forall k :: 0 <= k < |vs| ==> Want(vs[k], size, off) == Want(vs[0], size, off)
  }

  lemma SameClamp(L: Layout, v: File, f: File, size: nat, off: nat)
    requires 0 < size && Want(v, size, off) == Want(f, size, off)
    ensures ReadAs(L, v, f, size, off) == ReadFile(L, v, size, off)
  {
    hide Fetched, Outcome;
  }

  /** A read of one chunk is a snapshot under every schedule, if no writer changes its clamp. */
  lemma OneChunkIsSnapshot(L: Layout, f: File, size: nat, off: nat, es: seq<Event>)
    requires 0 < size && Tasks(L, f, size, off) <= 1
    requires Run(L, off / L.C, Start(L, f, size, off), es)
    requires var s := After(L, off / L.C, Start(L, f, size, off), es);
             AllFinished(s) && KeepsClamp(s.versions, size, off)
    ensures Snapshot(L, After(L, off / L.C, Start(L, f, size, off), es), size, off)
  {
    var s := After(L, off / L.C, Start(L, f, size, off), es);
    hide Tasks, Inv, Result, ReadFile, Start, After, AllFinished, ReadAs, Want;
    RunOfRequest(L, f, size, off, es);
    FinishedOne(L, s, size, off);
    var k: nat :| HasVersion(L, s, k, size, off);
    SameClamp(L, s.versions[k], f, size, off);
    assert ReadsVersion(L, s, k, size, off);
  }

  // ---------------------------------------------------------------- schedules

  lemma RunCons(L: Layout, fc: nat, s: Read, e: Event, es: seq<Event>)
    requires Shaped(s) && Enabled(s, e) && Run(L, fc, Next(L, fc, s, e), es)
    ensures Run(L, fc, s, [e] + es) && After(L, fc, s, [e] + es) == After(L, fc, Next(L, fc, s, e), es)
  {
    assert ([e] + es)[1..] == es;
  }

  lemma {:induction false} RunJoin(L: Layout, fc: nat, s: Read, es: seq<Event>, es': seq<Event>)
    requires Run(L, fc, s, es) && Run(L, fc, After(L, fc, s, es), es')
    ensures Run(L, fc, s, es + es') && After(L, fc, s, es + es') == After(L, fc, After(L, fc, s, es), es')
    decreases |es|
  {
    if es == [] {
      assert es + es' == es';
    } else {
      RunJoin(L, fc, Next(L, fc, s, es[0]), es[1..], es');
      RunCons(L, fc, s, es[0], es[1..] + es');
      assert es + es' == [es[0]] + (es[1..] + es');
    }
  }

  /** Task `i` run alone to its end. */
  function TaskDone(L: Layout, fc: nat, s: Read, i: nat): Read
    requires Shaped(s) && i < |s.tasks|
  {
    match Fetch(L, s.file.blobs, fc + i)
    case None => s.(tasks := s.tasks[i := Finished], err := true)
    case Some(c) => Collect(s, i, c)
  }

  lemma TaskAlone(L: Layout, fc: nat, s: Read, i: nat) returns (es: seq<Event>)
    requires Shaped(s) && !s.writer && !s.err && At(s, i, NotStarted) && s.slots[i] == []
    ensures Run(L, fc, s, es) && After(L, fc, s, es) == TaskDone(L, fc, s, i)
  {
    var ts := s.tasks;
    var s1, s2, s3 := s.(tasks := ts[i := Passed]), s.(tasks := ts[i := Locked]), s.(tasks := ts[i := Sized]);
    var s4 := TaskDone(L, fc, s, i);
    hide Decoded;
    assert ts[i := Passed][i := Locked] == ts[i := Locked] && ts[i := Locked][i := Sized] == ts[i := Sized];
    assert ts[i := Locked][i := Finished] == ts[i := Finished] && ts[i := Sized][i := Finished] == ts[i := Finished];
    assert Next(L, fc, s, Begin(i)) == s1 && Next(L, fc, s1, Lock(i)) == s2;
    if DiskSize(s.file.blobs, fc + i) == 0 {
      assert Next(L, fc, s2, Size(i)) == s4;
      es := [Size(i)];
      RunCons(L, fc, s2, Size(i), []);
    } else {
      SizedTask(L, fc, s, s3, i);
      es := [Size(i)] + [Load(i)];
      RunCons(L, fc, s3, Load(i), []);
      RunCons(L, fc, s2, Size(i), [Load(i)]);
    }
    hide Next, TaskDone;
    RunCons(L, fc, s1, Lock(i), es);
    RunCons(L, fc, s, Begin(i), [Lock(i)] + es);
    es := [Begin(i)] + ([Lock(i)] + es);
  }

  lemma SizedTask(L: Layout, fc: nat, s: Read, s3: Read, i: nat)
    requires Shaped(s) && At(s, i, NotStarted) && s.slots[i] == [] && s3 == s.(tasks := s.tasks[i := Sized])
    requires DiskSize(s.file.blobs, fc + i) != 0
    ensures Next(L, fc, s3, Load(i)) == TaskDone(L, fc, s, i)
  {
    var d := Decoded(L, s.file.blobs[fc + i]);
    hide Decoded;
    assert [] + d == d && s.tasks[i := Sized][i := Finished] == s.tasks[i := Finished];
  }

  lemma KeyBound<V>(m: map<nat, V>) returns (n: nat)
    ensures forall k :: k in m ==> k < n
    decreases |m|
  {
    if m == map[] {
      n := 0;
    } else {
      var k :| k in m;
      assert Without(m, k).Keys == m.Keys - {k};
      n := KeyBound(Without(m, k));
      forall j | j in m && j != k ensures j < n {
        assert j in Without(m, k);
      }
      n := Max(n, k + 1);
    }
  }

  /** The steps of a writer that make the chunks from `i` up to `n` those of `bs`. */
  function Edits(bs: map<nat, seq<byte>>, i: nat, n: nat): seq<Event>
    decreases n - i
  {
    if i >= n then [] else [if i in bs then WriterStore(i, bs[i]) else WriterRemove(i)] + Edits(bs, i + 1, n)
  }

  lemma {:induction false} EditsRun(L: Layout, fc: nat, s: Read, bs: map<nat, seq<byte>>, i: nat, n: nat)
    requires Shaped(s) && s.writer && i <= n && forall k :: k in bs || k in s.file.blobs ==> k < n
    requires forall k: nat :: k < i ==> (k in bs <==> k in s.file.blobs) && (k in bs ==> bs[k] == s.file.blobs[k])
    ensures Run(L, fc, s, Edits(bs, i, n))
    ensures After(L, fc, s, Edits(bs, i, n)) == s.(file := s.file.(blobs := bs))
    decreases n - i
  {
    if i < n {
      var e := if i in bs then WriterStore(i, bs[i]) else WriterRemove(i);
      var s1 := Next(L, fc, s, e);
      assert s1.writer && s1 == s.(file := s.file.(blobs := s1.file.blobs));
      assert forall k: nat :: k != i ==> (k in s1.file.blobs <==> k in s.file.blobs);
      EditsRun(L, fc, s1, bs, i + 1, n);
      RunCons(L, fc, s, e, Edits(bs, i + 1, n));
    } else {
      assert s.file.blobs == bs;
    }
  }

  /** One critical section of a writer can leave any file. */
  lemma WriterRun(L: Layout, fc: nat, s: Read, g: File) returns (es: seq<Event>)
    requires Shaped(s) && Enabled(s, WriterLock)
    ensures Run(L, fc, s, es) && After(L, fc, s, es) == s.(file := g, versions := s.versions + [g])
  {
    var n := KeyBound(s.file.blobs);
    var m := KeyBound(g.blobs);
    n := Max(n, m);
    var s1 := s.(writer := true);
    var s2 := s1.(file := s1.file.(blobs := g.blobs));
    var s3 := s1.(file := g);
    EditsRun(L, fc, s1, g.blobs, 0, n);
    RunCons(L, fc, s3, WriterUnlock, []);
    RunCons(L, fc, s2, WriterSave(g.size, g.n, g.csize), [WriterUnlock]);
    es := [WriterSave(g.size, g.n, g.csize)] + [WriterUnlock];
    RunJoin(L, fc, s1, Edits(g.blobs, 0, n), es);
    RunCons(L, fc, s, WriterLock, Edits(g.blobs, 0, n) + es);
    es := [WriterLock] + (Edits(g.blobs, 0, n) + es);
  }

  /** Writers take the file from version `i - 1` to version `j - 1`. */
  lemma {:induction false} HistoryRun(L: Layout, fc: nat, s: Read, vs: seq<File>, i: nat, j: nat)
      returns (es: seq<Event>)
    requires Shaped(s) && Enabled(s, WriterLock) && 0 < i <= j <= |vs| && s.versions == vs[..i] && s.file == vs[i - 1]
    ensures Run(L, fc, s, es) && After(L, fc, s, es) == s.(file := vs[j - 1], versions := vs[..j])
    decreases j - i
  {
    if i == j {
      es := [];
    } else {
      var s1 := s.(file := vs[i], versions := s.versions + [vs[i]]);
      assert s1.versions == vs[..i + 1];
      es := WriterRun(L, fc, s, vs[i]);
      var more := HistoryRun(L, fc, s1, vs, i + 1, j);
      RunJoin(L, fc, s, es, more);
      es := es + more;
    }
  }

  // ---------------------------------------------------------------- one chunk: every history of the file

  /** A finished schedule of the request in which the versions of the file are `vs`. */
  ghost predicate FinishedWith(L: Layout, vs: seq<File>, size: nat, off: nat, es: seq<Event>)
  {
    && vs != [] && Run(L, off / L.C, Start(L, vs[0], size, off), es)
    && var s := After(L, off / L.C, Start(L, vs[0], size, off), es);
       AllFinished(s) && s.versions == vs
  }

  /** Whenever the task comes, the read is a snapshot. */
  ghost predicate AlwaysSnapshot(L: Layout, vs: seq<File>, size: nat, off: nat)
  {
    forall es :: FinishedWith(L, vs, size, off, es) ==>
      Snapshot(L, After(L, off / L.C, Start(L, vs[0], size, off), es), size, off)
  }

  /** The chunks of version `k` under the clamp of version 0 read as version `j` does. */
  ghost predicate ReadsAs(L: Layout, vs: seq<File>, k: nat, j: nat, size: nat, off: nat)
  {
    k < |vs| && j < |vs| && ReadAs(L, vs[k], vs[0], size, off) == ReadFile(L, vs[j], size, off)
  }

  /** Some version reads as the chunks of version `k` under the clamp of version 0. */
  ghost predicate SomeReadsAs(L: Layout, vs: seq<File>, k: nat, size: nat, off: nat)
  {
    exists j: nat :: ReadsAs(L, vs, k, j, size, off)
  }

  /** The tasks, of which there is at most one, run on version `k`. */
  lemma TaskPart(L: Layout, fc: nat, s: Read, vs: seq<File>, k: nat) returns (es: seq<Event>, t: Read)
    requires k < |vs| && |s.tasks| <= 1 && s == Init(vs[k], |s.tasks|).(versions := vs[..k + 1])
    ensures Run(L, fc, s, es) && After(L, fc, s, es) == t
    ensures Shaped(t) && |t.tasks| == |s.tasks| && Enabled(t, WriterLock) && AllFinished(t)
    ensures t.file == vs[k] && t.versions == vs[..k + 1] && TaskFrom(L, fc, t, vs[k])
  {
    if |s.tasks| == 1 {
      es := TaskAlone(L, fc, s, 0);
      t := TaskDone(L, fc, s, 0);
      hide Fetch;
      assert Locked !in t.tasks && Sized !in t.tasks;
    } else {
      es, t := [], s;
    }
  }

  /** What a read of at most one task has collected from `v`. */
  ghost predicate TaskFrom(L: Layout, fc: nat, t: Read, v: File)
    requires Shaped(t)
  {
    && (|t.tasks| == 0 ==> !t.err)
    && (|t.tasks| == 1 ==> match Fetch(L, v.blobs, fc) case None => t.err case Some(c) => !t.err && t.slots[0] == c)
  }

  /** The writers take the file to version `k`, and there the one task runs. */
  lemma UpToTask(L: Layout, fc: nat, s: Read, vs: seq<File>, k: nat) returns (es: seq<Event>, t: Read)
    requires k < |vs| && |s.tasks| <= 1 && s == Init(vs[0], |s.tasks|)
    ensures Run(L, fc, s, es) && After(L, fc, s, es) == t
    ensures Shaped(t) && |t.tasks| == |s.tasks| && Enabled(t, WriterLock) && AllFinished(t)
    ensures t.file == vs[k] && t.versions == vs[..k + 1] && TaskFrom(L, fc, t, vs[k])
  {
    hide Next, Run, After, Fetch, TaskFrom;
    es := HistoryRun(L, fc, s, vs, 1, k + 1);
    var task;
    task, t := TaskPart(L, fc, s.(file := vs[k], versions := vs[..k + 1]), vs, k);
    RunJoin(L, fc, s, es, task);
    es := es + task;
  }

  /** The schedule in which the one task runs on version `k`. */
  lemma TaskOnVersion(L: Layout, vs: seq<File>, k: nat, size: nat, off: nat) returns (es: seq<Event>)
    requires k < |vs| && Tasks(L, vs[0], size, off) <= 1
    ensures FinishedWith(L, vs, size, off, es)
    ensures HasVersion(L, After(L, off / L.C, Start(L, vs[0], size, off), es), k, size, off)
  {
    var fc, s := off / L.C, Start(L, vs[0], size, off);
    assert s == Init(vs[0], |s.tasks|) && |s.tasks| == Tasks(L, vs[0], size, off);
    hide Tasks, Result, ReadFile, Fetch, ReadAs, HasVersion, Next, Run, After, Start, TaskFrom, AllFrom;
    var t;
    es, t := UpToTask(L, fc, s, vs, k);
    var more := HistoryRun(L, fc, t, vs, k + 1, |vs|);
    RunJoin(L, fc, s, es, more);
    es := es + more;
    var u := t.(file := vs[|vs| - 1], versions := vs);
    assert vs[..|vs|] == vs;
    SameTask(L, fc, t, u, vs[k]);
    TaskDoneFrom(L, fc, u, vs, k);
    AllFromOne(L, u, k, size, off);
  }

  lemma SameTask(L: Layout, fc: nat, t: Read, u: Read, v: File)
    requires Shaped(t) && Shaped(u) && TaskFrom(L, fc, t, v)
    requires u.tasks == t.tasks && u.slots == t.slots && u.err == t.err
    ensures TaskFrom(L, fc, u, v)
  {
    hide Fetch;
  }

  lemma TaskDoneFrom(L: Layout, fc: nat, t: Read, vs: seq<File>, k: nat)
    requires Shaped(t) && t.versions == vs && k < |vs| && |t.tasks| <= 1 && TaskFrom(L, fc, t, vs[k])
    ensures AllFrom(L, fc, t, k)
  {
    hide Fetch, Undecodable, Collected;
    if t.err {
      GivesFetch(L, fc, t, k, 0, None);
    } else if t.tasks != [] {
      GivesFetch(L, fc, t, k, 0, Some(t.slots[0]));
    }
  }

  /**
   Exactly which one-chunk reads are snapshots, for any history of the file: those where the chunk of every version,
   cut by the clamp of the record loaded, reads as some version does.
   */
  lemma HistoryIff(L: Layout, vs: seq<File>, size: nat, off: nat)
    requires vs != [] && Tasks(L, vs[0], size, off) <= 1
    ensures AlwaysSnapshot(L, vs, size, off) <==>
            forall k: nat :: k < |vs| ==> SomeReadsAs(L, vs, k, size, off)
  {
    hide Tasks, Result, ReadFile, Run, After, Start, ReadAs, Inv, AllFinished;
    if AlwaysSnapshot(L, vs, size, off) {
      forall k: nat | k < |vs| ensures SomeReadsAs(L, vs, k, size, off) {
        var es := TaskOnVersion(L, vs, k, size, off);
        var s := After(L, off / L.C, Start(L, vs[0], size, off), es);
        var j: nat :| ReadsVersion(L, s, j, size, off);
        assert ReadsAs(L, vs, k, j, size, off);
      }
    } else {
      var es :| FinishedWith(L, vs, size, off, es)
                && !Snapshot(L, After(L, off / L.C, Start(L, vs[0], size, off), es), size, off);
      var s := After(L, off / L.C, Start(L, vs[0], size, off), es);
      RunOfRequest(L, vs[0], size, off, es);
      FinishedOne(L, s, size, off);
      var k: nat :| HasVersion(L, s, k, size, off);
      forall j: nat ensures !ReadsAs(L, vs, k, j, size, off) {
        assert !ReadsVersion(L, s, j, size, off);
      }
      assert k < |vs| && !SomeReadsAs(L, vs, k, size, off);
    }
  }

  // ---------------------------------------------------------------- one chunk: a truncate or a write in between

  /** The request is for at least one byte of `f`, all in one chunk. */
  ghost predicate OneChunk(L: Layout, f: File, size: nat, off: nat)
  {
    0 < size && off < f.size && ChunkSpan(L.C, off, Want(f, size, off)) == 1
  }

  lemma OneChunkFits(L: Layout, f: File, size: nat, off: nat)
    requires OneChunk(L, f, size, off)
    ensures Tasks(L, f, size, off) == 1 && 0 < Want(f, size, off) && Skip(L.C, off) + Want(f, size, off) <= L.C
    ensures (off + Want(f, size, off) - 1) / L.C == off / L.C
  {
    var end, fc := off + Want(f, size, off), off / L.C;
    ChunkOf(off, fc, L.C);
    ChunkOf(end - 1, (end - 1) / L.C, L.C);
    SkipIs(L.C, off);
    hide Skip;
  }

  lemma OneChunkAs(L: Layout, v: File, f: File, size: nat, off: nat)
    requires OneChunk(L, f, size, off)
    ensures ReadAs(L, v, f, size, off) ==
            Outcome(Fetched(L, v.blobs, off / L.C, 1), Skip(L.C, off), Want(f, size, off))
  {
    SkipIs(L.C, off);
    ChunkOf(off, off / L.C, L.C);
    hide Fetched, Outcome, Skip;
  }

  lemma OneFetched(L: Layout, blobs: map<nat, seq<byte>>, fc: nat)
    ensures Fetched(L, blobs, fc, 1) == [Fetch(L, blobs, fc)]
  {
    hide Fetch;
  }

  lemma OneOutcome(c: seq<byte>, skip: nat, want: nat)
    ensures Outcome([Some(c)], skip, want) == Data(Assemble([c], skip, want))
  {
    hide Assemble;
    assert Values([Some(c)]) == [c];
  }

  /** What a read makes of its one chunk, if that decodes as `c`. */
  lemma OneChunkReads(L: Layout, v: File, f: File, size: nat, off: nat, c: seq<byte>)
    requires OneChunk(L, f, size, off) && Fetch(L, v.blobs, off / L.C) == Some(c)
    ensures ReadAs(L, v, f, size, off) == Data(Assemble([c], Skip(L.C, off), Want(f, size, off)))
  {
    hide *;
    OneChunkAs(L, v, f, size, off);
    OneFetched(L, v.blobs, off / L.C);
    OneOutcome(c, Skip(L.C, off), Want(f, size, off));
  }

  lemma SameChunkReads(L: Layout, v: File, w: File, f: File, size: nat, off: nat)
    requires OneChunk(L, f, size, off) && Fetch(L, v.blobs, off / L.C) == Fetch(L, w.blobs, off / L.C)
    ensures ReadAs(L, v, f, size, off) == ReadAs(L, w, f, size, off)
  {
    hide *;
    OneChunkAs(L, v, f, size, off);
    OneChunkAs(L, w, f, size, off);
    OneFetched(L, v.blobs, off / L.C);
    OneFetched(L, w.blobs, off / L.C);
  }

  /** Between two versions, what counts is the second one's chunk. */
  lemma TwoVersions(L: Layout, f: File, g: File, size: nat, off: nat)
    requires OneChunk(L, f, size, off)
    ensures AlwaysSnapshot(L, [f, g], size, off) <==>
            ReadAs(L, g, f, size, off) == ReadFile(L, f, size, off) ||
            ReadAs(L, g, f, size, off) == ReadFile(L, g, size, off)
  {
    var vs := [f, g];
    hide *;
    OneChunkFits(L, f, size, off);
    HistoryIff(L, vs, size, off);
    FirstOfTwo(L, f, g, size, off);
    SecondOfTwo(L, f, g, size, off);
  }

  lemma FirstOfTwo(L: Layout, f: File, g: File, size: nat, off: nat)
    ensures SomeReadsAs(L, [f, g], 0, size, off)
  {
    ReadAsItself(L, f, size, off);
    hide ReadFile, ReadAs;
    assert ReadsAs(L, [f, g], 0, 0, size, off);
  }

  lemma SecondOfTwo(L: Layout, f: File, g: File, size: nat, off: nat)
    ensures SomeReadsAs(L, [f, g], 1, size, off) <==>
            ReadAs(L, g, f, size, off) == ReadFile(L, f, size, off) ||
            ReadAs(L, g, f, size, off) == ReadFile(L, g, size, off)
  {
    var vs := [f, g];
    hide ReadFile, ReadAs;
    assert ReadsAs(L, vs, 1, 0, size, off) <==> ReadAs(L, g, f, size, off) == ReadFile(L, f, size, off);
    assert ReadsAs(L, vs, 1, 1, size, off) <==> ReadAs(L, g, f, size, off) == ReadFile(L, g, size, off);
    assert forall j: nat :: ReadsAs(L, vs, 1, j, size, off) ==> j == 0 || j == 1;
  }

  lemma ZeroPart(C: pos, skip: nat, want: nat)
    requires skip + want <= C && 0 < want
    ensures Assemble([Zeros(C)], skip, want) == Zeros(want)
  {
    assert Assemble([], 0, 0) == [];
  }

  /**
   A one-chunk read that a truncate may overtake is a snapshot under every schedule exactly when the truncate keeps the
   chunk, or the range read as zeros before: the task finds a removed chunk as zeros, as many as the old record allows.
   */
  lemma TruncateOvertakes(L: Layout, f: File, ns: nat, size: nat, off: nat)
    requires WellFormed(L, f) && OneChunk(L, f, size, off)
    ensures AlwaysSnapshot(L, [f, Truncated(L, f, ns)], size, off) <==>
            off / L.C * L.C < ns || ReadFile(L, f, size, off) == Data(Zeros(Want(f, size, off)))
  {
    var g := Truncated(L, f, ns);
    CutChunkReads(L, f, ns, size, off);
    OneChunkSize(L, f, size, off);
    hide *;
    TwoVersions(L, f, g, size, off);
    assert |Zeros(Want(f, size, off))| == Want(f, size, off);
  }

  /** With its chunk kept, the read is that of the old file; with its chunk removed, zeros against nothing. */
  lemma CutChunkReads(L: Layout, f: File, ns: nat, size: nat, off: nat)
    requires WellFormed(L, f) && OneChunk(L, f, size, off)
    ensures off / L.C * L.C < ns ==> ReadAs(L, Truncated(L, f, ns), f, size, off) == ReadFile(L, f, size, off)
    ensures off / L.C * L.C >= ns ==>
              && ReadAs(L, Truncated(L, f, ns), f, size, off) == Data(Zeros(Want(f, size, off)))
              && ReadFile(L, Truncated(L, f, ns), size, off) == Data([])
  {
    SkipIs(L.C, off);
    OneChunkSize(L, f, size, off);
    hide *;
    TruncatedFetch(L, f, ns, off / L.C);
    if off / L.C * L.C < ns {
      SameChunkReads(L, Truncated(L, f, ns), f, f, size, off);
      ReadAsItself(L, f, size, off);
    } else {
      ZerosRead(L, Truncated(L, f, ns), f, size, off);
      PastTheEnd(L, f, ns, size, off);
    }
  }

  lemma ZerosRead(L: Layout, v: File, f: File, size: nat, off: nat)
    requires OneChunk(L, f, size, off) && Fetch(L, v.blobs, off / L.C) == Some(Zeros(L.C))
    ensures ReadAs(L, v, f, size, off) == Data(Zeros(Want(f, size, off)))
  {
    hide *;
    OneChunkFits(L, f, size, off);
    OneChunkReads(L, v, f, size, off, Zeros(L.C));
    ZeroPart(L.C, Skip(L.C, off), Want(f, size, off));
  }

  lemma ReadAsItself(L: Layout, f: File, size: nat, off: nat)
    ensures ReadAs(L, f, f, size, off) == ReadFile(L, f, size, off)
  {
    hide ReadFile;
    assert f.(size := f.size) == f;
  }

  lemma PastTheEnd(L: Layout, f: File, ns: nat, size: nat, off: nat)
    requires off < f.size && ns <= off
    ensures ReadFile(L, Truncated(L, f, ns), size, off) == Data([])
  {
    hide CutBlobs, DiskSum;
  }

  lemma TruncatedFetch(L: Layout, f: File, ns: nat, i: nat)
    requires WellFormed(L, f) && i * L.C < f.size
    ensures i * L.C < ns ==> Fetch(L, Truncated(L, f, ns).blobs, i) == Fetch(L, f.blobs, i)
    ensures i * L.C >= ns ==> Fetch(L, Truncated(L, f, ns).blobs, i) == Some(Zeros(L.C))
  {
    CeilDivIs(ns, i, L.C);
    assert GoodChunk(L, f, i);
    hide DiskSum, Decoded;
  }

  /** The write puts nothing new at position `p`. */
  predicate SameAt(L: Layout, f: File, buf: seq<byte>, o: nat, p: nat)
  {
    o <= p < o + |buf| ==> buf[p - o] == ByteAt(L, f, p)
  }

  /** The write leaves every byte that the old record lets the read have as it was. */
  ghost predicate Unchanged(L: Layout, f: File, buf: seq<byte>, o: nat, off: nat, want: nat)
  {
    forall p: nat :: off <= p < off + want ==> SameAt(L, f, buf, o, p)
  }

  /**
   On a file where all reads are exact, a one-chunk read that a write may overtake is a snapshot under every schedule
   exactly when the write does not change the clamp, or none of the bytes that the old record lets the read have.
   */
  lemma WriteOvertakes(L: Layout, f: File, buf: seq<byte>, o: nat, size: nat, off: nat)
    requires 0 < |buf| && WellFormed(L, f) && NoShortChunk(L, f) && OneChunk(L, f, size, off)
    ensures AlwaysSnapshot(L, [f, Written(L, f, buf, o)], size, off) <==>
            || Want(Written(L, f, buf, o), size, off) == Want(f, size, off)
            || Unchanged(L, f, buf, o, off, Want(f, size, off))
  {
    var g, want := Written(L, f, buf, o), Want(f, size, off);
    hide WellFormed, NoShortChunk, Written, AlwaysSnapshot, ReadAs, ReadFile, Unchanged, OneChunk;
    TwoVersions(L, f, g, size, off);
    if Want(g, size, off) == want {
      assert 0 < size by { OneChunkSize(L, f, size, off); }
      SameClamp(L, g, f, size, off);
    } else {
      GrownReads(L, f, buf, o, size, off);
    }
  }

  lemma OneChunkSize(L: Layout, f: File, size: nat, off: nat)
    requires OneChunk(L, f, size, off)
    ensures 0 < size && off < f.size && 0 < Want(f, size, off)
  {
  }

  /** The bytes from `off` on, `want` of them. */
  function BytesFrom(L: Layout, f: File, off: nat, want: nat): (b: seq<byte>)
    ensures |b| == want
  {
    seq(want, i requires 0 <= i < want => ByteAt(L, f, off + i))
  }

  lemma ReachingRead(L: Layout, v: File, f: File, size: nat, off: nat)
    requires WellFormed(L, v) && OneChunk(L, f, size, off)
    requires |Part(L, v, off / L.C)| >= Skip(L.C, off) + Want(f, size, off)
    ensures ReadAs(L, v, f, size, off) == Data(BytesFrom(L, v, off, Want(f, size, off)))
  {
    hide *;
    SkipIs(L.C, off);
    FetchPart(L, v, off / L.C);
    ReachingBytes(L, v, off / L.C, Skip(L.C, off), off, Want(f, size, off));
    OneChunkReads(L, v, f, size, off, Part(L, v, off / L.C));
  }

  lemma ReachingBytes(L: Layout, v: File, fc: nat, skip: nat, off: nat, want: nat)
    requires WellFormed(L, v) && skip < L.C && off == fc * L.C + skip && |Part(L, v, fc)| >= skip + want
    ensures Assemble([Part(L, v, fc)], skip, want) == BytesFrom(L, v, off, want)
  {
    hide WellFormed, Part, Assemble, ByteAt;
    PartsAssemble(L, v, fc, 1, skip, want);
    assert Parts(L, v, fc, 1) == [Part(L, v, fc)];
  }

  lemma GrownReads(L: Layout, f: File, buf: seq<byte>, o: nat, size: nat, off: nat)
    requires 0 < |buf| && WellFormed(L, f) && NoShortChunk(L, f) && OneChunk(L, f, size, off)
    requires Want(Written(L, f, buf, o), size, off) != Want(f, size, off)
    ensures var g := Written(L, f, buf, o);
            ReadAs(L, g, f, size, off) == ReadFile(L, f, size, off) ||
            ReadAs(L, g, f, size, off) == ReadFile(L, g, size, off)
            <==> Unchanged(L, f, buf, o, off, Want(f, size, off))
  {
    var g, want := Written(L, f, buf, o), Want(f, size, off);
    OneChunkSize(L, f, size, off);
    GrownEnd(L, f, buf, o, size, off);
    hide *;
    WrittenSize(L, f, buf, o);
    WrittenWellFormed(L, f, buf, o);
    OneChunkReaches(L, f, size, off);
    GrownReaches(L, f, buf, o, size, off);
    ReachingRead(L, f, f, size, off);
    ReachingRead(L, g, f, size, off);
    ReadAsItself(L, f, size, off);
    SameBytes(L, f, buf, o, off, want);
    if !Unchanged(L, f, buf, o, off, want) {
      GrownCovers(L, f, buf, o, off, want);
      CoveredRead(L, g, size, off);
      SliceLength(L, g, size, off);
    }
  }

  lemma GrownEnd(L: Layout, f: File, buf: seq<byte>, o: nat, size: nat, off: nat)
    requires 0 < |buf| && off < f.size && Want(Written(L, f, buf, o), size, off) != Want(f, size, off)
    ensures off + Want(f, size, off) == f.size < o + |buf| && Want(f, size, off) < Want(Written(L, f, buf, o), size, off)
  {
    WrittenSize(L, f, buf, o);
    hide Written;
  }

  lemma SliceLength(L: Layout, g: File, size: nat, off: nat)
    requires off < g.size
    ensures |Slice(Flat(L, g), off, size)| == Want(g, size, off)
  {
    SliceSize(Flat(L, g), off, size);
    hide Flat;
  }

  /** Where all reads are exact, the chunk of the request reaches to its end. */
  lemma OneChunkReaches(L: Layout, f: File, size: nat, off: nat)
    requires WellFormed(L, f) && NoShortChunk(L, f) && OneChunk(L, f, size, off)
    ensures |Part(L, f, off / L.C)| >= Skip(L.C, off) + Want(f, size, off)
  {
    OneChunkFits(L, f, size, off);
    OneChunkSize(L, f, size, off);
    SkipIs(L.C, off);
    hide WellFormed, NoShortChunk, Part, Skip, OneChunk, Tasks;
    CoveredParts(L, f, off + Want(f, size, off), off / L.C);
  }

  /** And in a file that a write has grown it still does. */
  lemma GrownReaches(L: Layout, f: File, buf: seq<byte>, o: nat, size: nat, off: nat)
    requires 0 < |buf| && WellFormed(L, f) && OneChunk(L, f, size, off)
    requires off + Want(f, size, off) < o + |buf| && |Part(L, f, off / L.C)| >= Skip(L.C, off) + Want(f, size, off)
    ensures |Part(L, Written(L, f, buf, o), off / L.C)| >= Skip(L.C, off) + Want(f, size, off)
  {
    OneChunkFits(L, f, size, off);
    SkipIs(L.C, off);
    hide *;
    GrownPart(L, f, buf, o, off / L.C, Skip(L.C, off) + Want(f, size, off));
  }

  lemma GrownPart(L: Layout, f: File, buf: seq<byte>, o: nat, fc: nat, end: nat)
    requires 0 < |buf| && WellFormed(L, f) && 0 < end <= L.C && fc * L.C + end <= o + |buf| && |Part(L, f, fc)| >= end
    ensures |Part(L, Written(L, f, buf, o), fc)| >= end
  {
    assert GoodChunk(L, f, fc);
    WrittenChunk(L, f, buf, o, fc);
    hide Written, Decoded;
  }

  lemma SameBytes(L: Layout, f: File, buf: seq<byte>, o: nat, off: nat, want: nat)
    requires 0 < |buf| && WellFormed(L, f)
    ensures BytesFrom(L, Written(L, f, buf, o), off, want) == BytesFrom(L, f, off, want)
            <==> Unchanged(L, f, buf, o, off, want)
  {
    hide *;
    if Unchanged(L, f, buf, o, off, want) {
      UnchangedBytes(L, f, buf, o, off, want);
    } else {
      ChangedBytes(L, f, buf, o, off, want);
    }
  }

  lemma UnchangedBytes(L: Layout, f: File, buf: seq<byte>, o: nat, off: nat, want: nat)
    requires 0 < |buf| && WellFormed(L, f) && Unchanged(L, f, buf, o, off, want)
    ensures BytesFrom(L, Written(L, f, buf, o), off, want) == BytesFrom(L, f, off, want)
  {
    var a, b := BytesFrom(L, Written(L, f, buf, o), off, want), BytesFrom(L, f, off, want);
    hide *;
    forall i | 0 <= i < want ensures a[i] == b[i] {
      UnchangedByte(L, f, buf, o, off, want, off + i);
    }
  }

  lemma UnchangedByte(L: Layout, f: File, buf: seq<byte>, o: nat, off: nat, want: nat, p: nat)
    requires 0 < |buf| && WellFormed(L, f) && Unchanged(L, f, buf, o, off, want) && off <= p < off + want
    ensures BytesFrom(L, Written(L, f, buf, o), off, want)[p - off] == BytesFrom(L, f, off, want)[p - off]
  {
    assert SameAt(L, f, buf, o, p);
    hide *;
    ByteFrom(L, Written(L, f, buf, o), off, want, p);
    ByteFrom(L, f, off, want, p);
    WrittenSameAt(L, f, buf, o, p);
  }

  lemma ChangedBytes(L: Layout, f: File, buf: seq<byte>, o: nat, off: nat, want: nat)
    requires 0 < |buf| && WellFormed(L, f) && !Unchanged(L, f, buf, o, off, want)
    ensures BytesFrom(L, Written(L, f, buf, o), off, want) != BytesFrom(L, f, off, want)
  {
    var p: nat :| off <= p < off + want && !SameAt(L, f, buf, o, p);
    hide *;
    ByteFrom(L, Written(L, f, buf, o), off, want, p);
    ByteFrom(L, f, off, want, p);
    WrittenSameAt(L, f, buf, o, p);
  }

  lemma WrittenSameAt(L: Layout, f: File, buf: seq<byte>, o: nat, p: nat)
    requires 0 < |buf| && WellFormed(L, f)
    ensures ByteAt(L, Written(L, f, buf, o), p) == ByteAt(L, f, p) <==> SameAt(L, f, buf, o, p)
  {
    hide Written, ByteAt, WellFormed;
    WrittenByteAt(L, f, buf, o, p);
  }

  lemma ByteFrom(L: Layout, f: File, off: nat, want: nat, p: nat)
    requires off <= p < off + want
    ensures BytesFrom(L, f, off, want)[p - off] == ByteAt(L, f, p)
  {
    hide ByteAt;
    assert off + (p - off) == p;
  }

  /** A write that overlaps the end of the file and grows it leaves no chunk short. */
  lemma GrownCovers(L: Layout, f: File, buf: seq<byte>, o: nat, off: nat, want: nat)
    requires 0 < |buf| && WellFormed(L, f) && NoShortChunk(L, f) && !Unchanged(L, f, buf, o, off, want)
    requires off + want == f.size <= o + |buf|
    ensures NoShortChunk(L, Written(L, f, buf, o))
  {
    hide WellFormed, NoShortChunk, Written;
    WriteLeavesNoShort(L, f, buf, o);
    DivMono(o, f.size - 1, L.C);
    DivMono(f.size - 1, o + |buf| - 1, L.C);
  }

  /** The steps of a truncate to nothing, and then of a read's task. */
  const OVERTAKEN := [WriterLock, WriterRemove(0), WriterSave(0, 0, 0), WriterUnlock, Begin(0), Lock(0), Size(0)]

  /**
   The clamp alone can spoil a read of one byte: a file of a nonzero byte, truncated to nothing between the loading of the
   record and the task. The read returns a zero, where the file held the nonzero byte before and is empty after.
   */
  lemma OvertakenRead(L: Layout, x: byte)
    requires x != 0
    ensures var f := Written(L, EMPTY, [x], 0);
            var g := Truncated(L, f, 0);
            && ReadFile(L, f, 1, 0) == Data([x]) && ReadFile(L, g, 1, 0) == Data([])
            && FinishedWith(L, [f, g], 1, 0, OVERTAKEN)
            && var s := After(L, 0, Start(L, f, 1, 0), OVERTAKEN);
            Shaped(s) && Result(L, s, 1, 0) == Data([0]) && !Snapshot(L, s, 1, 0)
  {
    var f := Written(L, EMPTY, [x], 0);
    var g := Truncated(L, f, 0);
    F.OneByte(L, x);
    hide Written, ReadFile, Decoded, WellFormed, Flat, Dense, CleanTail;
    PastTheEnd(L, f, 0, 1, 0);
    OvertakenRun(L, f);
  }

  lemma OneByteTasks(L: Layout, f: File)
    requires f.size == 1
    ensures Tasks(L, f, 1, 0) == 1 && Want(f, 1, 0) == 1 && 0 / L.C == 0
  {
    ChunkOf(0, 0, L.C);
  }

  /** The state in which the truncate leaves the read, and its end. */
  function Overtaken(f: File, g: File): Read
  {
    Read(g, false, false, [NotStarted], [[]], [f, g], [None])
  }

  lemma OvertakenRun(L: Layout, f: File)
    requires f.size == 1 && f.n == 1 && f.blobs.Keys == {0} && Truncated(L, f, 0) == File(0, 0, 0, map[])
    requires ReadFile(L, f, 1, 0) != Data([0]) && ReadFile(L, Truncated(L, f, 0), 1, 0) == Data([])
    ensures FinishedWith(L, [f, Truncated(L, f, 0)], 1, 0, OVERTAKEN)
    ensures var s := After(L, 0, Start(L, f, 1, 0), OVERTAKEN);
            Shaped(s) && Result(L, s, 1, 0) == Data([0]) && !Snapshot(L, s, 1, 0)
  {
    var g, s0 := Truncated(L, f, 0), Start(L, f, 1, 0);
    OneByteTasks(L, f);
    assert s0 == Read(f, false, false, [NotStarted], [[]], [f], [None]);
    OvertakenWriter(L, f, g, s0);
    OvertakenTask(L, f, g);
    var t := Collect(Overtaken(f, g), 0, Zeros(L.C));
    hide Next, ReadFile, Truncated, Start, Tasks, Run, After;
    RunJoin(L, 0, s0, OVERTAKEN[..4], OVERTAKEN[4..]);
    assert OVERTAKEN[..4] + OVERTAKEN[4..] == OVERTAKEN;
    assert t.slots == [Zeros(L.C)] && t.versions == [f, g];
    OvertakenResult(L, f, g, t);
  }

  lemma OvertakenResult(L: Layout, f: File, g: File, t: Read)
    requires Shaped(t) && !t.err && t.slots == [Zeros(L.C)] && t.versions == [f, g] && f.size == 1
    requires ReadFile(L, f, 1, 0) != Data([0]) && ReadFile(L, g, 1, 0) == Data([])
    ensures Result(L, t, 1, 0) == Data([0]) && !Snapshot(L, t, 1, 0)
  {
    ZeroPart(L.C, 0, 1);
    assert Zeros(1) == [0];
    hide ReadFile, Assemble, BufferCount;
    forall k: nat ensures !ReadsVersion(L, t, k, 1, 0) {
    }
  }

  lemma OvertakenWriter(L: Layout, f: File, g: File, s0: Read)
    requires s0 == Read(f, false, false, [NotStarted], [[]], [f], [None])
    requires f.blobs.Keys == {0} && g == File(0, 0, 0, map[])
    ensures Run(L, 0, s0, OVERTAKEN[..4]) && After(L, 0, s0, OVERTAKEN[..4]) == Overtaken(f, g)
  {
    var s1 := s0.(writer := true);
    var s2 := s1.(file := f.(blobs := map[]));
    var s3 := s1.(file := g);
    assert Without(f.blobs, 0) == map[];
    assert Next(L, 0, s0, WriterLock) == s1 && Next(L, 0, s1, WriterRemove(0)) == s2;
    assert Next(L, 0, s2, WriterSave(0, 0, 0)) == s3;
    assert Next(L, 0, s3, WriterUnlock) == Overtaken(f, g) by {
      assert [f] + [g] == [f, g];
    }
    hide Next;
    RunCons(L, 0, s3, WriterUnlock, []);
    RunCons(L, 0, s2, WriterSave(0, 0, 0), [WriterUnlock]);
    RunCons(L, 0, s1, WriterRemove(0), [WriterSave(0, 0, 0), WriterUnlock]);
    RunCons(L, 0, s0, WriterLock, [WriterRemove(0), WriterSave(0, 0, 0), WriterUnlock]);
    assert OVERTAKEN[..4] == [WriterLock] + [WriterRemove(0), WriterSave(0, 0, 0), WriterUnlock];
  }

  lemma OvertakenTask(L: Layout, f: File, g: File)
    requires g.blobs == map[]
    ensures Run(L, 0, Overtaken(f, g), OVERTAKEN[4..])
    ensures After(L, 0, Overtaken(f, g), OVERTAKEN[4..]) == Collect(Overtaken(f, g), 0, Zeros(L.C))
  {
    var s0 := Overtaken(f, g);
    var s1, s2 := s0.(tasks := [Passed]), s0.(tasks := [Locked]);
    assert [NotStarted][0 := Passed] == [Passed] && [Passed][0 := Locked] == [Locked];
    assert [NotStarted][0 := Finished] == [Finished] && [Locked][0 := Finished] == [Finished];
    assert Next(L, 0, s0, Begin(0)) == s1 && Next(L, 0, s1, Lock(0)) == s2;
    assert Next(L, 0, s2, Size(0)) == Collect(s0, 0, Zeros(L.C));
    hide Next;
    RunCons(L, 0, s2, Size(0), []);
    RunCons(L, 0, s1, Lock(0), [Size(0)]);
    RunCons(L, 0, s0, Begin(0), [Lock(0), Size(0)]);
    assert OVERTAKEN[4..] == [Begin(0)] + [Lock(0), Size(0)];
  }

  // ---------------------------------------------------------------- two chunks and more: a torn read of a real file

  function Filled(n: nat, x: byte): (s: seq<byte>)
    ensures |s| == n
  {
    seq(n, _ => x)
  }

  /** The file of `a` times `x`, and what one write of `y` over all of it makes of it. */
  function FirstFile(L: Layout, a: pos, x: byte): File
  {
    Written(L, EMPTY, Filled(a, x), 0)
  }

  function SecondFile(L: Layout, a: pos, x: byte, y: byte): File
  {
    Written(L, FirstFile(L, a, x), Filled(a, y), 0)
  }

  /** A file all of whose bytes are the same, with its chunks full but for the last. */
  ghost predicate AllSame(L: Layout, f: File, a: pos, x: byte)
  {
    && WellFormed(L, f) && Dense(L, f) && f.size == a
    && forall size: nat, off: nat :: 0 < size ==> ReadFile(L, f, size, off) == Data(Slice(Filled(a, x), off, size))
  }

  lemma TheFiles(L: Layout, a: pos, x: byte, y: byte)
    ensures AllSame(L, FirstFile(L, a, x), a, x) && AllSame(L, SecondFile(L, a, x, y), a, y)
  {
    F.EmptyFile(L);
    hide Written, WellFormed, Dense, ReadFile, Filled;
    F.WholeWrite(L, EMPTY, Filled(a, x));
    F.WholeWrite(L, FirstFile(L, a, x), Filled(a, y));
  }

  /** The place of a request in its chunks. */
  lemma RequestFits(L: Layout, f: File, size: nat, off: nat)
    requires 0 < size && off < f.size
    ensures var want, nc := Want(f, size, off), Tasks(L, f, size, off);
            && 0 < want == Min(size, f.size - off) && 0 < nc && (off + want - 1) / L.C == off / L.C + nc - 1
            && nc == ChunkSpan(L.C, off, want) && (2 <= nc ==> L.C < Skip(L.C, off) + want)
  {
    var want := Want(f, size, off);
    assert 0 < want && Tasks(L, f, size, off) == ChunkSpan(L.C, off, want);
    hide *;
    SpanReaches(L.C, off, want, (off + want - 1) / L.C, off / L.C);
    SpanIs(L.C, off, want);
  }

  lemma SpanReaches(C: pos, off: nat, want: nat, lc: nat, fc: nat)
    requires 0 < want && lc == (off + want - 1) / C && fc == off / C
    ensures fc <= lc && (fc < lc ==> C < Skip(C, off) + want)
  {
    hide Skip;
    SkipIs(C, off);
    ChunkOf(off + want - 1, lc, C);
    DivMono(off, off + want - 1, C);
    if fc < lc {
      NextChunk(fc, lc, C);
    }
  }

  lemma NextChunk(fc: nat, lc: nat, C: pos)
    requires fc < lc
    ensures fc * C + C <= lc * C
  {
    MulMono(fc + 1, lc, C);
    assert (fc + 1) * C == fc * C + C;
  }

  lemma ReadParts(L: Layout, f: File, size: nat, off: nat, want: nat, fc: nat, nc: nat)
    requires WellFormed(L, f) && 0 < size && off < f.size && want == Min(size, f.size - off) && fc == off / L.C
    requires nc == ChunkSpan(L.C, off, want)
    ensures ReadFile(L, f, size, off) == Data(Assemble(Parts(L, f, fc, nc), Skip(L.C, off), want))
  {
    hide Skip, WellFormed, ReadFile, Assemble, Parts, ChunkSpan;
    SkipIs(L.C, off);
    ReadFileIs(L, f, size, off, want, fc, nc);
  }

  lemma SameRead(L: Layout, f: File, a: pos, x: byte, size: nat, off: nat)
    requires AllSame(L, f, a, x) && 0 < size && off < a
    ensures WellFormed(L, f) && Dense(L, f) && f.size == a
    ensures Want(f, size, off) == Min(size, a - off) && ReadFile(L, f, size, off) == Data(Filled(Min(size, a - off), x))
  {
    hide WellFormed, Dense, ReadFile, Filled, Slice;
    SameSlice(a, x, off, size);
  }

  /** A chunk before the last one of a request is full. */
  lemma FullPart(L: Layout, f: File, end: nat, fc: nat, lc: nat)
    requires WellFormed(L, f) && Dense(L, f) && 0 < end <= f.size && fc < lc == (end - 1) / L.C
    ensures |Part(L, f, fc)| == L.C
  {
    hide *;
    DenseIsCovered(L, f);
    CoveredParts(L, f, end, lc);
  }

  lemma SameSlice(a: nat, x: byte, off: nat, size: nat)
    requires off < a
    ensures Slice(Filled(a, x), off, size) == Filled(Min(size, a - off), x)
  {
  }

  lemma DenseIsCovered(L: Layout, f: File)
    requires WellFormed(L, f) && Dense(L, f)
    ensures NoShortChunk(L, f)
  {
    forall i: nat | i in f.blobs ensures Covered(L, f, i) {
      assert GoodChunk(L, f, i);
    }
  }

  /** On these chunk files, tasks from `fc` on collect these parts. */
  ghost predicate Collects(L: Layout, blobs: map<nat, seq<byte>>, fc: nat, parts: seq<seq<byte>>)
  {
    forall j :: 0 <= j < |parts| ==> Fetch(L, blobs, fc + j) == Some(parts[j])
  }

  lemma CollectsAt(L: Layout, blobs: map<nat, seq<byte>>, fc: nat, parts: seq<seq<byte>>, j: nat)
    requires Collects(L, blobs, fc, parts) && j < |parts|
    ensures Fetch(L, blobs, fc + j) == Some(parts[j])
  {
    hide Fetch;
  }

  lemma PartsCollect(L: Layout, f: File, fc: nat, nc: nat)
    requires WellFormed(L, f)
    ensures Collects(L, f.blobs, fc, Parts(L, f, fc, nc))
  {
    hide Fetch, Part, WellFormed, Parts;
    forall j | 0 <= j < nc ensures Fetch(L, f.blobs, fc + j) == Some(Parts(L, f, fc, nc)[j]) {
      FetchIsPart(L, f, fc, nc, j);
    }
  }

  /** The remaining tasks run in order on one version, where every chunk decodes. */
  lemma {:induction false} TailRun(L: Layout, fc: nat, s: Read, i: nat, parts: seq<seq<byte>>)
      returns (es: seq<Event>)
    requires Shaped(s) && !s.writer && !s.err && i <= |s.tasks| == |parts|
    requires forall j :: 0 <= j < i ==> s.tasks[j] == Finished
    requires forall j :: i <= j < |s.tasks| ==> s.tasks[j] == NotStarted && s.slots[j] == []
    requires Collects(L, s.file.blobs, fc, parts)
    ensures Run(L, fc, s, es)
    ensures var t := After(L, fc, s, es);
            && Shaped(t) && |t.tasks| == |s.tasks| && AllFinished(t) && !t.err && t.versions == s.versions
            && t.slots == s.slots[..i] + parts[i..]
    decreases |s.tasks| - i
  {
    if i == |s.tasks| {
      es := [];
      assert s.slots[..i] + parts[i..] == s.slots;
    } else {
      var t := Collect(s, i, parts[i]);
      CollectsAt(L, s.file.blobs, fc, parts, i);
      es := TaskAlone(L, fc, s, i);
      hide Fetch, Run, After, Collects;
      OneMore(s.slots, parts, i);
      var more := TailRun(L, fc, t, i + 1, parts);
      RunJoin(L, fc, s, es, more);
      es := es + more;
    }
  }

  lemma OneMore<T>(a: seq<T>, b: seq<T>, i: nat)
    requires i < |a| == |b|
    ensures a[i := b[i]][..i + 1] + b[i + 1..] == a[..i] + b[i..]
  {
  }

  /** The schedule: the first task, one writer, the other tasks. */
  lemma TornRun(L: Layout, fc: nat, f: File, g: File, ps: seq<seq<byte>>, qs: seq<seq<byte>>)
      returns (es: seq<Event>)
    requires 0 < |ps| == |qs|
    requires Collects(L, f.blobs, fc, ps) && Collects(L, g.blobs, fc, qs)
    ensures Run(L, fc, Init(f, |ps|), es)
    ensures var t := After(L, fc, Init(f, |ps|), es);
            && Shaped(t) && |t.tasks| == |ps| && AllFinished(t) && !t.err && t.versions == [f, g]
            && t.slots == [ps[0]] + qs[1..]
  {
    var s := Init(f, |ps|);
    CollectsAt(L, f.blobs, fc, ps, 0);
    es := TaskAlone(L, fc, s, 0);
    var t := Collect(s, 0, ps[0]);
    hide Fetch, Run, After, Next, Collects;
    assert Locked !in t.tasks && Sized !in t.tasks;
    var more := WriterRun(L, fc, t, g);
    RunJoin(L, fc, s, es, more);
    es := es + more;
    var u := t.(file := g, versions := [f, g]);
    assert t.versions + [g] == [f, g];
    more := TailRun(L, fc, u, 1, qs);
    RunJoin(L, fc, s, es, more);
    es := es + more;
    assert u.slots[..1] == [ps[0]];
  }

  /** Packed with its first part from one file and the others from another, a read is that of neither. */
  lemma TornParts(ps: seq<seq<byte>>, qs: seq<seq<byte>>, C: pos, skip: nat, want: nat, x: byte, y: byte)
    requires x != y && 2 <= |ps| == |qs| && |ps[0]| == |qs[0]| == C && skip < C < skip + want
    requires Assemble(ps, skip, want) == Filled(want, x) && Assemble(qs, skip, want) == Filled(want, y)
    ensures var a := Assemble([ps[0]] + qs[1..], skip, want); a != Filled(want, x) && a != Filled(want, y)
  {
    var torn, take := [ps[0]] + qs[1..], C - skip;
    assert torn[1..] == qs[1..];
    var a, b, c := Assemble(torn, skip, want), Assemble(ps, skip, want), Assemble(qs, skip, want);
    assert a == ps[0][skip..] + Assemble(qs[1..], 0, want - take);
    assert b == ps[0][skip..] + Assemble(ps[1..], 0, want - take);
    assert c == qs[0][skip..] + Assemble(qs[1..], 0, want - take);
    assert |a| == |c| && a[0] == b[0] == x && a[want - 1] == c[want - 1] == y;
  }

  /** The read is finished, the file has had these two versions, and the result is that of neither. */
  ghost predicate Torn(L: Layout, f: File, g: File, size: nat, off: nat, es: seq<Event>)
  {
    FinishedWith(L, [f, g], size, off, es) && !Snapshot(L, After(L, off / L.C, Start(L, f, size, off), es), size, off)
  }

  /**
   A read of two or more chunks is not a snapshot: a file of one byte `x` over and over, one write of `y` over all of it
   between the first task and the others, and the read begins with an `x` and ends with a `y`, where either version alone
   gives the one or the other throughout. The size of the file, and so the clamp, stays.
   */
  lemma TornRead(L: Layout, a: pos, size: nat, off: nat, x: byte, y: byte)
    requires x != y && 0 < size && off < a && 2 <= ChunkSpan(L.C, off, Min(size, a - off))
    ensures var f, g, want := FirstFile(L, a, x), SecondFile(L, a, x, y), Min(size, a - off);
            && f.size == g.size == a
            && ReadFile(L, f, size, off) == Data(Filled(want, x)) && ReadFile(L, g, size, off) == Data(Filled(want, y))
            && exists es :: Torn(L, f, g, size, off, es)
  {
    var f, g := FirstFile(L, a, x), SecondFile(L, a, x, y);
    TheFiles(L, a, x, y);
    hide *;
    SameRead(L, f, a, x, size, off);
    SameRead(L, g, a, y, size, off);
    SameFileTorn(L, f, g, size, off, x, y);
  }

  /** Two such files, of one size. */
  lemma SameFileTorn(L: Layout, f: File, g: File, size: nat, off: nat, x: byte, y: byte)
    requires WellFormed(L, f) && Dense(L, f) && WellFormed(L, g) && Dense(L, g) && f.size == g.size
    requires x != y && 0 < size && off < f.size && 2 <= ChunkSpan(L.C, off, Min(size, f.size - off))
    requires var want := Min(size, f.size - off);
             ReadFile(L, f, size, off) == Data(Filled(want, x)) && ReadFile(L, g, size, off) == Data(Filled(want, y))
    ensures exists es :: Torn(L, f, g, size, off, es)
  {
    var fc, want := off / L.C, Min(size, f.size - off);
    var nc := ChunkSpan(L.C, off, want);
    TwoChunkCount(L, f, size, off);
    hide *;
    TwoChunkParts(L, f, size, off, want, fc, nc);
    TwoChunkParts(L, g, size, off, want, fc, nc);
    TornBetween(L, f, g, size, off, Parts(L, f, fc, nc), Parts(L, g, fc, nc), x, y);
  }

  lemma TwoChunkCount(L: Layout, f: File, size: nat, off: nat)
    requires 0 < size && off < f.size && 2 <= ChunkSpan(L.C, off, Min(size, f.size - off))
    ensures Tasks(L, f, size, off) == ChunkSpan(L.C, off, Min(size, f.size - off))
    ensures Want(f, size, off) == Min(size, f.size - off)
    ensures Skip(L.C, off) < L.C < Skip(L.C, off) + Want(f, size, off)
  {
    RequestFits(L, f, size, off);
    SkipIs(L.C, off);
    hide *;
  }

  /** The parts of such a read: what the tasks collect, of which the first is full. */
  lemma TwoChunkParts(L: Layout, f: File, size: nat, off: nat, want: nat, fc: nat, nc: nat)
    requires WellFormed(L, f) && Dense(L, f) && 0 < size && off < f.size
    requires want == Min(size, f.size - off) && fc == off / L.C && nc == ChunkSpan(L.C, off, want) && 2 <= nc
    ensures ReadFile(L, f, size, off) == Data(Assemble(Parts(L, f, fc, nc), Skip(L.C, off), want))
    ensures |Parts(L, f, fc, nc)[0]| == L.C && Collects(L, f.blobs, fc, Parts(L, f, fc, nc))
  {
    EndOfRequest(L, f, size, off, want, fc, nc);
    hide *;
    ReadParts(L, f, size, off, want, fc, nc);
    FullPart(L, f, off + want, fc, fc + nc - 1);
    PartsAt(L, f, fc, nc, 0);
    PartsCollect(L, f, fc, nc);
  }

  lemma EndOfRequest(L: Layout, f: File, size: nat, off: nat, want: nat, fc: nat, nc: nat)
    requires 0 < size && off < f.size && want == Min(size, f.size - off) && fc == off / L.C
    requires nc == ChunkSpan(L.C, off, want)
    ensures 0 < want && off + want <= f.size && (off + want - 1) / L.C == fc + nc - 1
  {
    RequestFits(L, f, size, off);
    hide Tasks, ChunkSpan, Skip;
  }

  lemma TornBetween(L: Layout, f: File, g: File, size: nat, off: nat, ps: seq<seq<byte>>, qs: seq<seq<byte>>,
                    x: byte, y: byte)
    requires 2 <= |ps| == |qs| && |ps[0]| == |qs[0]| == L.C
    requires x != y && 0 < size && off < f.size && |ps| == Tasks(L, f, size, off)
    requires Collects(L, f.blobs, off / L.C, ps) && Collects(L, g.blobs, off / L.C, qs)
    requires var want, skip := Want(f, size, off), Skip(L.C, off);
             && skip < L.C < skip + want
             && Assemble(ps, skip, want) == Filled(want, x) && Assemble(qs, skip, want) == Filled(want, y)
             && ReadFile(L, f, size, off) == Data(Filled(want, x)) && ReadFile(L, g, size, off) == Data(Filled(want, y))
    ensures exists es :: Torn(L, f, g, size, off, es)
  {
    hide *;
    var es := TornRun(L, off / L.C, f, g, ps, qs);
    TornParts(ps, qs, L.C, Skip(L.C, off), Want(f, size, off), x, y);
    TornIs(L, f, g, size, off, es, [ps[0]] + qs[1..], Filled(Want(f, size, off), x), Filled(Want(f, size, off), y));
  }

  lemma TornIs(L: Layout, f: File, g: File, size: nat, off: nat, es: seq<Event>, slots: seq<seq<byte>>,
               xs: seq<byte>, ys: seq<byte>)
    requires var nc := Tasks(L, f, size, off);
             && Run(L, off / L.C, Init(f, nc), es)
             && var t := After(L, off / L.C, Init(f, nc), es);
                Shaped(t) && AllFinished(t) && !t.err && t.versions == [f, g] && t.slots == slots
    requires 0 < size && off < f.size
    requires ReadFile(L, f, size, off) == Data(xs) && ReadFile(L, g, size, off) == Data(ys)
    requires var a := Assemble(slots, Skip(L.C, off), Want(f, size, off)); a != xs && a != ys
    ensures Torn(L, f, g, size, off, es)
  {
    hide Run, After, Init, Tasks, Want, ReadFile, Assemble, Snapshot;
    NeitherVersion(L, f, g, After(L, off / L.C, Init(f, Tasks(L, f, size, off)), es), size, off, xs, ys);
  }

  lemma FetchIsPart(L: Layout, f: File, fc: nat, nc: nat, j: nat)
    requires WellFormed(L, f) && j < nc
    ensures Fetch(L, f.blobs, fc + j) == Some(Parts(L, f, fc, nc)[j])
  {
    hide *;
    PartsAt(L, f, fc, nc, j);
    FetchPart(L, f, fc + j);
  }

  lemma PartsAt(L: Layout, f: File, fc: nat, nc: nat, j: nat)
    requires j < nc
    ensures Parts(L, f, fc, nc)[j] == Part(L, f, fc + j)
  {
    hide Part;
  }

  lemma NeitherVersion(L: Layout, f: File, g: File, t: Read, size: nat, off: nat, xs: seq<byte>, ys: seq<byte>)
    requires Shaped(t) && !t.err && t.versions == [f, g] && 0 < size && off < f.size
    requires ReadFile(L, f, size, off) == Data(xs) && ReadFile(L, g, size, off) == Data(ys)
    requires var a := Assemble(t.slots, Skip(L.C, off), Want(f, size, off)); a != xs && a != ys
    ensures !Snapshot(L, t, size, off)
  {
    hide ReadFile, Assemble;
    forall k: nat ensures !ReadsVersion(L, t, k, size, off) {
    }
  }

  /** Every finished schedule on a file of size `a` whose clamp no writer changes is a snapshot. */
  ghost predicate SnapshotsAt(L: Layout, a: nat, size: nat, off: nat)
  {
    forall vs: seq<File>, es ::
      vs != [] && vs[0].size == a && KeepsClamp(vs, size, off) && FinishedWith(L, vs, size, off, es) ==>
        Snapshot(L, After(L, off / L.C, Start(L, vs[0], size, off), es), size, off)
  }

  /**
   With the clamp unchanged, a read is a snapshot under every schedule and any writers exactly when it touches one chunk.
   */
  lemma SnapshotIff(L: Layout, a: pos, size: nat, off: nat)
    requires 0 < size && off < a
    ensures SnapshotsAt(L, a, size, off) <==> ChunkSpan(L.C, off, Min(size, a - off)) <= 1
  {
    hide Written, Run, After, Start, Snapshot, AllFinished, KeepsClamp, FinishedWith, SnapshotsAt, ChunkSpan;
    hide Torn, ReadFile;
    if ChunkSpan(L.C, off, Min(size, a - off)) <= 1 {
      OneChunkSnapshots(L, a, size, off);
    } else {
      TornRead(L, a, size, off, 0, 1);
      TwoChunkFails(L, FirstFile(L, a, 0), SecondFile(L, a, 0, 1), a, size, off);
    }
  }

  lemma OneChunkSnapshots(L: Layout, a: pos, size: nat, off: nat)
    requires 0 < size && off < a && ChunkSpan(L.C, off, Min(size, a - off)) <= 1
    ensures SnapshotsAt(L, a, size, off)
  {
    hide Run, After, Start, Snapshot, AllFinished, KeepsClamp;
    forall vs: seq<File>, es |
      vs != [] && vs[0].size == a && KeepsClamp(vs, size, off) && FinishedWith(L, vs, size, off, es)
      ensures Snapshot(L, After(L, off / L.C, Start(L, vs[0], size, off), es), size, off)
    {
      OneChunkIsSnapshot(L, vs[0], size, off, es);
    }
  }

  lemma TwoChunkFails(L: Layout, f: File, g: File, a: pos, size: nat, off: nat)
    requires f.size == g.size == a && exists es :: Torn(L, f, g, size, off, es)
    ensures !SnapshotsAt(L, a, size, off)
  {
    hide Run, After, Start, Snapshot, FinishedWith;
    assert KeepsClamp([f, g], size, off);
    var es :| Torn(L, f, g, size, off, es);
    assert [f, g][0] == f;
  }
}
