/**
 Runs outside the guards of `MountRuns`, each from the empty mount:
 - renamed to a name with a space, a file reads as empty, and unlinking it leaves its chunk file;
 - renamed onto itself, it loses its record and its chunk file;
 - renamed to the statistics path, it reads as the statistics;
 - renamed and created again, it shares its id with the new file.
 */
module MountFailures {
  import opened Bytes
  import opened FileIds
  import opened ChunkedFile
  import opened ChunkedRead
  import opened FileRuns
  import opened Namespace
  import opened NamespaceSteps
  import opened Mount
  import opened MountRuns
  import opened Numerals

  /** Chunk size and clock are within their widths, and the path survives the text format. */
  ghost predicate Ordinary(L: Layout, p: string, now: int)
  {
    L.C < TWO_64 && -LL <= now < LL && TextMeta.IsToken(p)
  }

  function FirstTwo(p: string, x: byte, mode: nat, now: int): seq<Op>
  {
    [Create(p, mode, now), Write(p, [x], 0, now)]
  }

  lemma RunHead(L: Layout, t: Mounted, op: Op, ops: seq<Op>)
    ensures RunOn(L, t, [op] + ops) == RunOn(L, ApplyOn(L, t, op).0, ops)
    ensures RunOn(L, ApplyOn(L, t, op).0, []) == ApplyOn(L, t, op).0
  {
    hide ApplyOn;
    assert ([op] + ops)[0] == op && ([op] + ops)[1..] == ops;
  }

  lemma RunThree(L: Layout, t: Mounted, a: Op, b: Op, c: Op)
    ensures RunOn(L, t, [a, b]) == ApplyOn(L, ApplyOn(L, t, a).0, b).0
    ensures RunOn(L, t, [a, b] + [c]) == ApplyOn(L, RunOn(L, t, [a, b]), c).0
  {
    hide ApplyOn, RunOn;
    assert [a, b] == [a] + ([b] + []) && [a, b] + [c] == [a] + ([b] + ([c] + []));
    var t1 := ApplyOn(L, t, a).0;
    RunHead(L, t, a, [b] + []);
    RunHead(L, t1, b, []);
    RunHead(L, t, a, [b] + ([c] + []));
    RunHead(L, t1, b, [c] + []);
    RunHead(L, ApplyOn(L, t1, b).0, c, []);
  }

  lemma CreatedFits(L: Layout, p: string, mode: nat, now: int)
    requires Ordinary(L, p, now)
    ensures InWidths(L, EMPTY_MOUNT, Create(p, mode, now)) && NameGuard(L, EMPTY_MOUNT, Create(p, mode, now))
    ensures TokenOp(Create(p, mode, now)) && Norm(p) == p
  {
    EmptySound(L);
    assert NewRecord(L, p, mode, now).mode < 512;
    assert Norm(p) == p;
    hide PathId, TextMeta.SaveText, Loaded, TextMeta.IsToken, NameFits;
    NewFits(L, EMPTY_MOUNT, p, mode, now);
    var s := Apply(L, EMPTY_FS, Create(p, mode, now)).0;
    assert s.metas == map[PathId(p) := NewRecord(L, p, mode, now)];
  }

  /** The loaded state after a create. */
  function CreatedState(L: Layout, p: string, mode: nat, now: int): Fs
  {
    Fs(map[p := PathId(p)], map[PathId(p) := NewRecord(L, p, mode, now)], map[])
  }

  lemma CreatedIs(L: Layout, p: string, mode: nat, now: int)
    requires Ordinary(L, p, now)
    ensures var t := ApplyOn(L, EMPTY_MOUNT, Create(p, mode, now)).0;
            Sound(L, t) && Canonical(t) && Loaded(t) == CreatedState(L, p, mode, now)
  {
    EmptySound(L);
    CreatedFits(L, p, mode, now);
    hide Loaded, InWidths, NameGuard, Sound, Canonical, PathId, ApplyOn, Keeps, Alike;
    StepActs(L, EMPTY_MOUNT, Create(p, mode, now));
    StepSound(L, EMPTY_MOUNT, Create(p, mode, now));
    assert Apply(L, EMPTY_FS, Create(p, mode, now)).0 == CreatedState(L, p, mode, now);
  }

  /** The loaded state after the write of one byte. */
  function WrittenState(L: Layout, p: string, x: byte, mode: nat, now: int): Fs
  {
    var f, id := Written(L, EMPTY, [x], 0), PathId(p);
    Fs(map[p := id], map[id := Updated(NewRecord(L, p, mode, now), f, now)], PutBlobs(map[], id, f.blobs))
  }

  lemma WrittenApplies(L: Layout, p: string, x: byte, mode: nat, now: int)
    requires p != "" && PathId(p) != ""
    ensures WriteFs(L, CreatedState(L, p, mode, now), p, [x], 0, now) == (WrittenState(L, p, x, mode, now), Done(1))
  {
    var s, id, m := CreatedState(L, p, mode, now), PathId(p), NewRecord(L, p, mode, now);
    assert BlobsOf(s.blobs, id) == map[];
    assert FileOf(s, id) == EMPTY && m.pathId == id;
    hide Written, PathId, PutBlobs, FileOf, BlobsOf, NewRecord, Updated, CreatedState, WrittenState, PutFile, WriteFs;
    CreatedParts(L, p, mode, now);
    WrittenParts(L, p, x, mode, now);
    WriteIsPut(L, s, p, x, now);
    PutOnly(s, p, id, m, Written(L, EMPTY, [x], 0), now);
  }

  lemma WriteIsPut(L: Layout, s: Fs, p: string, x: byte, now: int)
    requires p in s.index && s.index[p] != "" && s.index[p] in s.metas && FileOf(s, s.index[p]) == EMPTY
    ensures WriteFs(L, s, p, [x], 0, now) == (PutFile(s, s.index[p], Written(L, EMPTY, [x], 0), now), Done(1))
  {
    hide Written, PutFile, FileOf;
  }

  lemma PutOnly(s: Fs, p: string, id: string, m: FileMeta, f: File, now: int)
    requires s == Fs(map[p := id], map[id := m], map[]) && m.pathId == id
    ensures PutFile(s, id, f, now) == Fs(map[p := id], map[id := Updated(m, f, now)], PutBlobs(map[], id, f.blobs))
  {
    hide PutBlobs, Updated;
    assert map[id := m][id := Updated(m, f, now)] == map[id := Updated(m, f, now)];
  }

  lemma CreatedParts(L: Layout, p: string, mode: nat, now: int)
    ensures CreatedState(L, p, mode, now) ==
              Fs(map[p := PathId(p)], map[PathId(p) := NewRecord(L, p, mode, now)], map[])
  {
  }

  lemma WrittenParts(L: Layout, p: string, x: byte, mode: nat, now: int)
    ensures var f, id := Written(L, EMPTY, [x], 0), PathId(p);
            WrittenState(L, p, x, mode, now) ==
            Fs(map[p := id], map[id := Updated(NewRecord(L, p, mode, now), f, now)], PutBlobs(map[], id, f.blobs))
  {
  }

  lemma WrittenBounded(L: Layout, p: string, x: byte, mode: nat, now: int)
    requires Ordinary(L, p, now)
    ensures var s := WrittenState(L, p, x, mode, now);
            s.metas.Keys == {PathId(p)} && TextMeta.Bounded(s.metas[PathId(p)])
  {
    OneByteTable(L, x);
    hide Written, PathId;
  }

  lemma WrittenStateIs(L: Layout, p: string, x: byte, mode: nat, now: int)
    ensures var s, id := WrittenState(L, p, x, mode, now), PathId(p);
            && s.index == map[p := id] && id in s.metas && s.metas[id].pathId == id && s.metas[id].nChunks == 1
            && (id, 0) in s.blobs && Abs(L, s) == map[p := [x]]
  {
    var f, id, m := Written(L, EMPTY, [x], 0), PathId(p), NewRecord(L, p, mode, now);
    hide Written, PathId, PutBlobs, BlobsOf, Flat, WrittenState, FileOf, Abs;
    WrittenParts(L, p, x, mode, now);
    OneByte(L, x);
    PutBlobsOf(map[], id, f.blobs, id);
    PutBlobAt(map[], id, f.blobs, id, 0);
    OneFile(L, WrittenState(L, p, x, mode, now), p, id, Updated(m, f, now), f);
  }

  lemma OneFile(L: Layout, s: Fs, p: string, id: string, m: FileMeta, f: File)
    requires s.index == map[p := id] && s.metas == map[id := m]
    requires f == File(m.logicalSize, m.nChunks, m.compressedSize, BlobsOf(s.blobs, id))
    ensures Abs(L, s) == map[p := Flat(L, f)]
  {
    hide BlobsOf, Flat;
  }

  /** One path, one record that loads, one chunk file, one byte. */
  ghost predicate OneByteMount(L: Layout, t: Mounted, p: string, x: byte)
  {
    var id := PathId(p);
    && Sound(L, t) && Canonical(t) && t.index == map[p := id] && Content(L, t) == map[p := [x]]
    && id != "" && id in Loaded(t).metas && LoadRecord(t.texts, id) == Found(Loaded(t).metas[id]) && (id, 0) in t.blobs
    && Loaded(t).metas[id].pathId == id && Loaded(t).metas[id].nChunks == 1
  }

  lemma WriteLeaves(L: Layout, p: string, x: byte, mode: nat, now: int)
    requires Ordinary(L, p, now)
    ensures var t1 := ApplyOn(L, EMPTY_MOUNT, Create(p, mode, now)).0;
            var t := ApplyOn(L, t1, Write(p, [x], 0, now)).0;
            && Sound(L, t) && Canonical(t) && Loaded(t) == WrittenState(L, p, x, mode, now)
            && NameGuard(L, t1, Write(p, [x], 0, now)) && InWidths(L, t1, Write(p, [x], 0, now))
  {
    var t1, op := ApplyOn(L, EMPTY_MOUNT, Create(p, mode, now)).0, Write(p, [x], 0, now);
    hide *;
    OrdinaryName(L, p, now);
    IdNotEmpty(p);
    CreatedIs(L, p, mode, now);
    WrittenApplies(L, p, x, mode, now);
    WrittenBounded(L, p, x, mode, now);
    AllBounded(WrittenState(L, p, x, mode, now), PathId(p));
    WriteAllowed(L, t1, p, x, now);
    StepActs(L, t1, op);
    StepSound(L, t1, op);
  }

  lemma OrdinaryName(L: Layout, p: string, now: int)
    requires Ordinary(L, p, now)
    ensures p != ""
  {
  }

  lemma IdNotEmpty(p: string)
    ensures PathId(p) != ""
  {
  }

  lemma AllBounded(s: Fs, id: string)
    requires s.metas.Keys == {id} && TextMeta.Bounded(s.metas[id])
    ensures forall x :: x in s.metas ==> TextMeta.Bounded(s.metas[x])
  {
    hide TextMeta.Bounded;
    assert forall x :: x in s.metas ==> x == id;
  }

  lemma WriteAllowed(L: Layout, t: Mounted, p: string, x: byte, now: int)
    requires p != ""
    requires var s := WriteFs(L, Loaded(t), p, [x], 0, now).0;
             forall id :: id in s.metas ==> TextMeta.Bounded(s.metas[id])
    ensures var op := Write(p, [x], 0, now);
            NameGuard(L, t, op) && InWidths(L, t, op) && TokenOp(op) &&
            Apply(L, Loaded(t), op) == WriteFs(L, Loaded(t), p, [x], 0, now)
  {
    hide Loaded, TextMeta.Bounded, WriteFs;
    assert Norm(p) == p;
  }

  /** What the two operations leave. */
  lemma FirstTwoLeave(L: Layout, p: string, x: byte, mode: nat, now: int)
    requires Ordinary(L, p, now)
    ensures OneByteMount(L, RunOn(L, EMPTY_MOUNT, FirstTwo(p, x, mode, now)), p, x)
  {
    var t1, op := ApplyOn(L, EMPTY_MOUNT, Create(p, mode, now)).0, Write(p, [x], 0, now);
    var t := ApplyOn(L, t1, op).0;
    RunThree(L, EMPTY_MOUNT, Create(p, mode, now), op, op);
    WriteLeaves(L, p, x, mode, now);
    WrittenStateIs(L, p, x, mode, now);
    hide Loaded, Sound, Canonical, ApplyOn, WrittenState, RunOn, PathId, TextMeta.IsToken, RecordOf, Abs;
    LoadedParts(t);
    IndexedRecord(L, t, p);
  }

  /** They are a run within all guards, under either discipline. */
  lemma FirstTwoGuarded(d: Discipline, L: Layout, p: string, x: byte, mode: nat, now: int)
    requires Ordinary(L, p, now)
    ensures var ops := FirstTwo(p, x, mode, now);
            && NamesRun(L, EMPTY_MOUNT, ops) && WidthsRun(L, EMPTY_MOUNT, ops) && GuardedRun(d, L, EMPTY_MOUNT, ops)
            && forall i :: 0 <= i < |ops| ==> TokenOp(ops[i])
  {
    var e1, e2 := Create(p, mode, now), Write(p, [x], 0, now);
    var t1 := ApplyOn(L, EMPTY_MOUNT, e1).0;
    hide NamesRun, WidthsRun, GuardedRun, NameGuard, InWidths, Guard, ApplyOn, TokenOp, FirstTwo, Ordinary;
    hide Loaded, PathId, WrittenState, Sound, Canonical;
    CreatedFits(L, p, mode, now);
    WriteLeaves(L, p, x, mode, now);
    WriteAtStart(d, L, EMPTY_MOUNT, p, mode, x, now);
    WriteAtStart(d, L, t1, p, mode, x, now);
    RunOfTwo(d, L, EMPTY_MOUNT, e1, e2);
    TwoTokens(p, x, mode, now);
  }

  lemma WriteAtStart(d: Discipline, L: Layout, t: Mounted, p: string, mode: nat, x: byte, now: int)
    ensures NameGuard(L, t, Create(p, mode, now)) ==> Guard(d, L, Loaded(t), Create(p, mode, now))
    ensures Guard(d, L, Loaded(t), Write(p, [x], 0, now))
  {
    if NameGuard(L, t, Create(p, mode, now)) {
      GuardsAgree(L, t, Create(p, mode, now));
    }
    hide NameGuard, Abs, Allowed, Loaded, PathId;
    if Norm(p) in Abs(L, Loaded(t)) {
      AllowedIs(L.C, Abs(L, Loaded(t))[Norm(p)], [x], 0);
    }
  }

  lemma RunOfTwo(d: Discipline, L: Layout, t: Mounted, a: Op, b: Op)
    requires StepGuard(d, L, t, a) && StepGuard(d, L, ApplyOn(L, t, a).0, b)
    ensures NamesRun(L, t, [a, b]) && WidthsRun(L, t, [a, b]) && GuardedRun(d, L, t, [a, b])
  {
    hide NameGuard, InWidths, Guard, ApplyOn;
    var t1 := ApplyOn(L, t, a).0;
    assert [b][0] == b && [b][1..] == [];
    assert NamesRun(L, t1, [b]) && WidthsRun(L, t1, [b]) && GuardedRun(d, L, t1, [b]);
    assert [a, b][0] == a && [a, b][1..] == [b];
  }

  lemma TwoTokens(p: string, x: byte, mode: nat, now: int)
    requires TokenOp(Create(p, mode, now))
    ensures forall i :: 0 <= i < |FirstTwo(p, x, mode, now)| ==> TokenOp(FirstTwo(p, x, mode, now)[i])
    ensures FirstTwo(p, x, mode, now) == [Create(p, mode, now), Write(p, [x], 0, now)]
  {
  }

  /** The run of one more operation. */
  lemma Third(L: Layout, p: string, x: byte, mode: nat, now: int, op: Op)
    ensures RunOn(L, EMPTY_MOUNT, FirstTwo(p, x, mode, now) + [op]) ==
            ApplyOn(L, RunOn(L, EMPTY_MOUNT, FirstTwo(p, x, mode, now)), op).0
  {
    hide RunOn, ApplyOn;
    RunThree(L, EMPTY_MOUNT, Create(p, mode, now), Write(p, [x], 0, now), op);
  }

  // ---------------------------------------------------------------- a name with a space

  /** A rename to a name that is not indexed. */
  lemma MoveLeaves(L: Layout, t: Mounted, p: string, x: byte, q: string)
    requires OneByteMount(L, t, p, x) && p != q && p != "" && q != ""
    ensures var id := PathId(p);
            && id in Loaded(t).metas && Loaded(t).metas[id].pathId == id
            && var u := Renamed(t, p, q, id, Loaded(t).metas[id]);
            && ApplyOn(L, t, Rename(p, q)) == (u, Done(0)) && u.index == map[q := id] && id != "" && id in u.texts
            && u.texts[id] == TextMeta.SaveText(Loaded(t).metas[id].(logicalPath := q)) && (id, 0) in u.blobs
  {
    hide RecordOf, Sound, Canonical, Content, PathId, TextMeta.SaveText, Loaded;
    LoadedParts(t);
  }

  /**
   Renaming a file to a name with a space loses its content: the record loads as that of an empty file, so a read
   returns nothing, and unlinking the name leaves the chunk file behind.
   */
  lemma SpacedRename(L: Layout, p: string, x: byte, mode: nat, now: int, a: string, b: string)
    requires Ordinary(L, p, now) && TextMeta.IsToken(a) && TextMeta.IsToken(b) && !TextMeta.IsKey(b)
    ensures var q, t2 := a + " " + b, RunOn(L, EMPTY_MOUNT, FirstTwo(p, x, mode, now));
            && Content(L, t2) == map[p := [x]]
            && ApplyOn(L, t2, Rename(p, q)).1 == Done(0) && Emptied(L, ApplyOn(L, t2, Rename(p, q)).0, p, q)
  {
    FirstTwoLeave(L, p, x, mode, now);
    hide RunOn, ApplyOn, Emptied, PathId;
    SpacedMove(L, RunOn(L, EMPTY_MOUNT, FirstTwo(p, x, mode, now)), p, x, a, b);
  }

  /** The name `q` reads as empty, and can be unlinked with the chunk file of `p` left on disk. */
  ghost predicate Emptied(L: Layout, t: Mounted, p: string, q: string)
  {
    && q in t.index && ReadFileOn(L, t, q, 1, 0) == Data([])
    && UnlinkOn(t, q).1 == Done(0) && UnlinkOn(t, q).0.index == map[] && (PathId(p), 0) in UnlinkOn(t, q).0.blobs
  }

  lemma SpacedMove(L: Layout, t: Mounted, p: string, x: byte, a: string, b: string)
    requires OneByteMount(L, t, p, x) && TextMeta.IsToken(p)
    requires TextMeta.IsToken(a) && TextMeta.IsToken(b) && !TextMeta.IsKey(b)
    ensures var r := ApplyOn(L, t, Rename(p, a + " " + b)); r.1 == Done(0) && Emptied(L, r.0, p, a + " " + b)
  {
    var q, id := a + " " + b, PathId(p);
    SpacedIsNoToken(a, b);
    IdIsToken(p);
    assert p != "";
    OneByteBounded(L, t, p, x, q);
    hide OneByteMount, PathId, TextMeta.IsToken, TextMeta.IsKey, RecordOf, Loaded, ApplyOn, TextMeta.SaveText;
    MoveLeaves(L, t, p, x, q);
    TextMeta.SpacedRecord(Loaded(t).metas[id].(logicalPath := q), a, b);
    RecordIs(TextMeta.SaveText(Loaded(t).metas[id].(logicalPath := q)));
    SpacedReads(L, ApplyOn(L, t, Rename(p, q)).0, p, q, id, a);
  }

  lemma OneByteBounded(L: Layout, t: Mounted, p: string, x: byte, q: string)
    requires OneByteMount(L, t, p, x)
    ensures PathId(p) in Loaded(t).metas && TextMeta.Bounded(Loaded(t).metas[PathId(p)].(logicalPath := q))
  {
    LoadedParts(t);
    ReadableRecord(t, PathId(p));
    SameBounds(Loaded(t).metas[PathId(p)], q);
    hide OneByteMount, PathId, Loaded, TextMeta.Bounded, Readable;
  }

  lemma RecordIs(text: string)
    ensures RecordOf(text) == TextMeta.LoadText(text, DEFAULT_META)
  {
    hide TextMeta.LoadText;
  }

  lemma SpacedIsNoToken(a: string, b: string)
    ensures !TextMeta.IsToken(a + " " + b) && a + " " + b != ""
  {
    assert (a + " " + b)[|a|] == ' ';
  }

  lemma SpacedReads(L: Layout, t: Mounted, p: string, q: string, id: string, a: string)
    requires t.index == map[q := id] && id == PathId(p) && id != "" && id in t.texts && (id, 0) in t.blobs
    requires RecordOf(t.texts[id]) == Some(DEFAULT_META.(pathId := id, logicalPath := a))
    ensures Emptied(L, t, p, q)
  {
    hide RecordOf, PathId;
  }

  // ---------------------------------------------------------------- a name onto itself

  /** Renaming a file onto itself succeeds, and loses its record and its chunk file; the path stays, unreadable. */
  lemma SelfRename(L: Layout, p: string, x: byte, mode: nat, now: int)
    requires Ordinary(L, p, now)
    ensures var t2, id := RunOn(L, EMPTY_MOUNT, FirstTwo(p, x, mode, now)), PathId(p);
            var r := ApplyOn(L, t2, Rename(p, p));
            && Content(L, t2) == map[p := [x]]
            && r.1 == Done(0) && p in r.0.index && r.0.index[p] == id
            && id !in r.0.texts && (id, 0) !in r.0.blobs && ReadFileOn(L, r.0, p, 1, 0) == NoEntry
  {
    FirstTwoLeave(L, p, x, mode, now);
    assert p != "";
    hide RunOn, ApplyOn, PathId, Content, ReadFileOn;
    SelfMove(L, RunOn(L, EMPTY_MOUNT, FirstTwo(p, x, mode, now)), p, x);
  }

  lemma SelfMove(L: Layout, t: Mounted, p: string, x: byte)
    requires OneByteMount(L, t, p, x) && p != ""
    ensures var r, id := ApplyOn(L, t, Rename(p, p)), PathId(p);
            && r.1 == Done(0) && p in r.0.index && r.0.index[p] == id
            && id !in r.0.texts && (id, 0) !in r.0.blobs && ReadFileOn(L, r.0, p, 1, 0) == NoEntry
  {
    hide Sound, Canonical, Content, RecordOf, PathId, TextMeta.SaveText, Loaded;
    OntoItself(t, p);
  }

  /**
   Writes and truncates of `p` find no file, an unlink drops its index entry, and a rename moves that and saves a
   default record, under no id.
   */
  ghost predicate Lost(L: Layout, t: Mounted, p: string, id: string, buf: seq<byte>, n: nat, now: int, q: string)
  {
    && ApplyOn(L, t, Write(p, buf, n, now)) == (t, if buf == [] then Done(0) else ENOENT)
    && ApplyOn(L, t, Truncate(p, n, now)) == (t, ENOENT)
    && ApplyOn(L, t, Unlink(p)).1 == Done(0) && ApplyOn(L, t, Unlink(p)).0.index == map[]
    && ApplyOn(L, t, Rename(p, q)).1 == Done(0) && ApplyOn(L, t, Rename(p, q)).0.index == map[q := id]
    && "" in ApplyOn(L, t, Rename(p, q)).0.texts && id !in ApplyOn(L, t, Rename(p, q)).0.texts
  }

  /** What is then left of the file. */
  lemma SelfRenameLosesFile(L: Layout, p: string, x: byte, mode: nat, now: int, buf: seq<byte>, n: nat, q: string)
    requires Ordinary(L, p, now) && q != "" && q != p
    ensures var t := ApplyOn(L, RunOn(L, EMPTY_MOUNT, FirstTwo(p, x, mode, now)), Rename(p, p)).0;
            Lost(L, t, p, PathId(p), buf, n, now, q)
  {
    var t1 := RunOn(L, EMPTY_MOUNT, FirstTwo(p, x, mode, now));
    hide *;
    FirstTwoLeave(L, p, x, mode, now);
    IdNotEmpty(p);
    OrdinaryName(L, p, now);
    SelfMove(L, t1, p, x);
    SelfMoveIndex(L, t1, p, x);
    LostFile(L, ApplyOn(L, t1, Rename(p, p)).0, p, PathId(p), buf, n, now, q);
  }

  lemma SelfMoveIndex(L: Layout, t: Mounted, p: string, x: byte)
    requires OneByteMount(L, t, p, x) && p != ""
    ensures ApplyOn(L, t, Rename(p, p)).0.index == map[p := PathId(p)]
  {
    hide Sound, Canonical, Content, RecordOf, PathId, TextMeta.SaveText, Loaded;
    OntoItself(t, p);
  }

  lemma LostFile(L: Layout, t: Mounted, p: string, id: string, buf: seq<byte>, n: nat, now: int, q: string)
    requires p != "" && q != "" && q != p && t.index == map[p := id] && id != "" && id !in t.texts
    ensures Lost(L, t, p, id, buf, n, now, q)
  {
    hide RecordOf, RemoveChunks, TextMeta.SaveText;
  }

  // ---------------------------------------------------------------- the statistics path

  /** A file renamed to the statistics path keeps its content, but reads return the statistics: here an `l` for it. */
  lemma ShadowedFile(L: Layout, ratio: (nat, nat) -> string, p: string, x: byte, mode: nat, now: int)
    requires Ordinary(L, p, now) && p != STATS_VPATH
    ensures var t := RunOn(L, EMPTY_MOUNT, FirstTwo(p, x, mode, now) + [Rename(p, STATS_VPATH)]);
            && Sound(L, t) && Content(L, t) == map[STATS_VPATH := [x]]
            && ReadOn(L, ratio, t, STATS_VPATH, 1, 0) == Data([0x6c])
  {
    FirstTwoLeave(L, p, x, mode, now);
    assert p != "";
    hide RunOn, ApplyOn, ReadOn, Content, Sound;
    Third(L, p, x, mode, now, Rename(p, STATS_VPATH));
    ShadowMove(L, ratio, RunOn(L, EMPTY_MOUNT, FirstTwo(p, x, mode, now)), p, x);
  }

  lemma ShadowMove(L: Layout, ratio: (nat, nat) -> string, t: Mounted, p: string, x: byte)
    requires OneByteMount(L, t, p, x) && p != "" && p != STATS_VPATH
    ensures var u := ApplyOn(L, t, Rename(p, STATS_VPATH)).0;
            && Sound(L, u) && Content(L, u) == map[STATS_VPATH := [x]]
            && ReadOn(L, ratio, u, STATS_VPATH, 1, 0) == Data([0x6c])
  {
    StatsIsToken();
    hide PathId, Loaded, Sound, Canonical, Content, ApplyOn, ReadOn, TextMeta.IsToken, RecordOf;
    TokenRename(L, t, p, STATS_VPATH);
    assert Without(map[p := [x]], p)[STATS_VPATH := [x]] == map[STATS_VPATH := [x]];
    StatsBegin(L, ratio, ApplyOn(L, t, Rename(p, STATS_VPATH)).0);
  }

  /** A rename to a free token path moves the content, and leaves canonical texts. */
  lemma TokenRename(L: Layout, t: Mounted, from: string, to: string)
    requires Sound(L, t) && Canonical(t) && from in t.index && from != to && from != "" && to != "" && to !in t.index
    requires TextMeta.IsToken(to)
    ensures var u := ApplyOn(L, t, Rename(from, to)).0;
            && Sound(L, u) && Canonical(u) && from in Content(L, t)
            && Content(L, u) == Without(Content(L, t), from)[to := Content(L, t)[from]]
  {
    var op := Rename(from, to);
    assert Norm(from) == from && Norm(to) == to && TokenOp(op);
    LoadedParts(t);
    hide Canonical, Loaded, ApplyOn, Apply, Abs, RenameFs, TextMeta.IsToken;
    hide NameGuard, InWidths, Keeps, Inv, Readable, Alike;
    RenameWidths(L, t, from, to);
    IdGuardHolds(L, t, from, to);
    TokenGuard(L, t, op);
    StepSound(L, t, op);
    StepActs(L, t, op);
    KeepsContent(L, t, op);
    RenameAbs(L, Loaded(t), from, to);
    RenameIs(L, Loaded(t), from, to);
  }

  lemma IdGuardHolds(L: Layout, t: Mounted, from: string, to: string)
    requires from != to && from != "" && to != ""
    ensures IdGuard(Loaded(t), Rename(from, to))
  {
    hide Loaded;
  }

  lemma RenameIs(L: Layout, s: Fs, from: string, to: string)
    requires from != "" && to != ""
    ensures Apply(L, s, Rename(from, to)) == RenameFs(s, from, to)
  {
    hide RenameFs;
  }

  lemma StatsIsToken()
    ensures TextMeta.IsToken(STATS_VPATH)
  {
  }

  lemma RenameWidths(L: Layout, t: Mounted, from: string, to: string)
    requires Sound(L, t) && from in t.index && from != to && from != "" && to != "" && to !in t.index
    ensures InWidths(L, t, Rename(from, to))
  {
    hide Sound, Loaded, TextMeta.IsToken, RecordOf, RenameFs, TextMeta.Bounded;
    LoadedBoundedAll(L, t);
    RenamedBounded(L, t, from, to);
    assert Norm(from) == from && Norm(to) == to;
  }

  lemma LoadedBoundedAll(L: Layout, t: Mounted)
    requires Sound(L, t)
    ensures forall id :: id in Loaded(t).metas ==> TextMeta.Bounded(Loaded(t).metas[id])
  {
    LoadedParts(t);
    forall id | id in t.texts ensures TextMeta.Bounded(Loaded(t).metas[id]) {
      ReadableRecord(t, id);
    }
    hide Loaded, TextMeta.Bounded, Readable, Inv;
  }

  lemma RenamedBounded(L: Layout, t: Mounted, from: string, to: string)
    requires Sound(L, t) && from in t.index && from != to && to !in t.index
    requires forall id :: id in Loaded(t).metas ==> TextMeta.Bounded(Loaded(t).metas[id])
    ensures var s := RenameFs(Loaded(t), from, to).0; forall id :: id in s.metas ==> TextMeta.Bounded(s.metas[id])
  {
    IndexedRecord(L, t, from);
    LoadedParts(t);
    hide Sound, Loaded, RecordOf, TextMeta.Bounded;
    MovedBounded(Loaded(t), from, to);
  }

  lemma MovedBounded(s: Fs, from: string, to: string)
    requires from in s.index && s.index[from] != "" && s.index[from] in s.metas && to !in s.index
    requires forall id :: id in s.metas ==> TextMeta.Bounded(s.metas[id])
    ensures var u := RenameFs(s, from, to).0; forall id :: id in u.metas ==> TextMeta.Bounded(u.metas[id])
  {
    var m := s.metas[s.index[from]];
    assert TextMeta.Bounded(m.(logicalPath := to));
    hide TextMeta.Bounded;
  }

  lemma StatsBegin(L: Layout, ratio: (nat, nat) -> string, t: Mounted)
    requires Sound(L, t) && Canonical(t)
    ensures ReadOn(L, ratio, t, STATS_VPATH, 1, 0) == Data([0x6c])
  {
    hide Sound, Canonical, Stats.StatsOf, Stats.Sum, Print, Stats.StatsText, Stats.AsBytes, ReadFileOn, Loaded;
    StatsAreExact(L, t);
    var sums := Stats.StatsOf(t.index, t.texts).value;
    FirstLetter(sums, ratio(sums.logical, sums.compressed));
  }

  lemma FirstLetter(sums: Stats.Totals, ratio: string)
    ensures var b := Stats.AsBytes(Stats.StatsText(sums, ratio)); Slice(b, 0, 1) == [0x6c]
  {
    var text := Stats.StatsText(sums, ratio);
    assert text[0] == 'l';
    hide Stats.StatsText;
    assert Slice(Stats.AsBytes(text), 0, 1)[0] == 0x6c;
  }

  // ---------------------------------------------------------------- a live id

  /** Creating a path that was renamed away gives both paths one id, and empties the file that had it. */
  lemma RecreateSharesId(L: Layout, p: string, x: byte, mode: nat, now: int, q: string)
    requires Ordinary(L, p, now) && TextMeta.IsToken(q) && p != q
    ensures var t := RunOn(L, EMPTY_MOUNT, FirstTwo(p, x, mode, now) + [Rename(p, q)]);
            var r := ApplyOn(L, t, Create(p, mode, now));
            && r.1 == Done(0) && p in r.0.index && q in r.0.index && r.0.index[p] == r.0.index[q]
            && ReadFileOn(L, r.0, q, 1, 0) == Data([])
  {
    FirstTwoLeave(L, p, x, mode, now);
    NewPrints(L, p, mode, now);
    assert p != "" && q != "";
    hide RunOn, ApplyOn, ReadFileOn, PathId, OneByteMount, TextMeta.IsToken, RecordOf, TextMeta.SaveText;
    var t2 := RunOn(L, EMPTY_MOUNT, FirstTwo(p, x, mode, now));
    Third(L, p, x, mode, now, Rename(p, q));
    MoveLeaves(L, t2, p, x, q);
    Recreated(L, ApplyOn(L, t2, Rename(p, q)).0, p, q, mode, now);
  }

  lemma NewPrints(L: Layout, p: string, mode: nat, now: int)
    requires Ordinary(L, p, now)
    ensures RecordOf(TextMeta.SaveText(NewRecord(L, p, mode, now))) == Some(NewRecord(L, p, mode, now))
  {
    IdIsToken(p);
    hide PathId, TextMeta.IsToken;
    SavedLoads(NewRecord(L, p, mode, now));
  }

  lemma Recreated(L: Layout, t: Mounted, p: string, q: string, mode: nat, now: int)
    requires t.index == map[q := PathId(p)] && p != q && p != "" && PathId(p) != ""
    requires RecordOf(TextMeta.SaveText(NewRecord(L, p, mode, now))) == Some(NewRecord(L, p, mode, now))
    ensures var r := ApplyOn(L, t, Create(p, mode, now));
            && r.1 == Done(0) && p in r.0.index && q in r.0.index && r.0.index[p] == r.0.index[q]
            && ReadFileOn(L, r.0, q, 1, 0) == Data([])
  {
    hide RecordOf, PathId, TextMeta.SaveText;
  }
}
