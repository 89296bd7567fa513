/** Runs of the mounted operations on the texts on disk: agreement, content, reads, statistics and restarts. */
module MountRuns {
  import opened Bytes
  import opened FileIds
  import opened ChunkedFile
  import opened ChunkedRead
  import opened Namespace
  import opened NamespaceSteps
  import opened Mount
  import Listing

  // ---------------------------------------------------------------- one operation

  /**
   A create does not meet a live id, a rename names two paths, and the words of the new name let the record come back from
   its text as one that describes the file.
   */
  ghost predicate NameGuard(L: Layout, t: Mounted, op: Op)
  {
    match op
    case Create(p, mode, now) =>
      || Norm(p) in t.index
      || (PathId(Norm(p)) !in t.texts &&
          NameFits(L, NewRecord(L, Norm(p), mode, now), BlobsOf(t.blobs, PathId(Norm(p)))))
    case Rename(from, to) =>
      || Norm(from) !in t.index
      || (Norm(from) != Norm(to) && t.index[Norm(from)] in Loaded(t).metas &&
          NameFits(L, Loaded(t).metas[t.index[Norm(from)]].(logicalPath := Norm(to)),
                   BlobsOf(t.blobs, t.index[Norm(from)])))
    case _ => true
  }

  /** The new name has no whitespace. */
  predicate TokenOp(op: Op)
  {
    match op
    case Create(p, _, _) => TextMeta.IsToken(Norm(p))
    case Rename(_, to) => TextMeta.IsToken(Norm(to))
    case _ => true
  }

  /** For such names, what is left of the guard is that a live id is not created again, and no path moved onto itself. */
  lemma TokenGuard(L: Layout, t: Mounted, op: Op)
    requires Sound(L, t) && TokenOp(op)
    ensures NameGuard(L, t, op) <==> IdGuard(Loaded(t), op)
  {
    LoadedParts(t);
    match op
    case Create(p, mode, now) =>
      hide Loaded, TextMeta.IsToken, WellFormed, NameFits, BlobsOf, PathId;
      if PathId(Norm(p)) !in t.texts {
        NewFits(L, t, Norm(p), mode, now);
      }
    case Rename(from, to) =>
      hide Loaded, TextMeta.IsToken, WellFormed, NameFits, BlobsOf;
      if Norm(from) in t.index {
        assert IndexedPath(Loaded(t), Norm(from)) && GoodFile(L, Loaded(t), t.index[Norm(from)]);
        TokenFits(L, Loaded(t).metas[t.index[Norm(from)]].(logicalPath := Norm(to)),
                  BlobsOf(t.blobs, t.index[Norm(from)]));
      }
    case _ =>
  }

  lemma NewFits(L: Layout, t: Mounted, p: string, mode: nat, now: int)
    requires Sound(L, t) && TextMeta.IsToken(p) && PathId(p) !in t.texts
    ensures NameFits(L, NewRecord(L, p, mode, now), BlobsOf(t.blobs, PathId(p)))
  {
    LoadedParts(t);
    hide Loaded, TextMeta.IsToken, NameFits, BlobsOf, PathId, Readable;
    EmptyFileBlobs(L, Loaded(t), PathId(p));
    CeilDivBounds(0, L.C);
    TokenFits(L, NewRecord(L, p, mode, now), BlobsOf(t.blobs, PathId(p)));
  }

  /** The sizes and times of the records fit the 64 bits that the program keeps them in. */
  ghost predicate InWidths(L: Layout, t: Mounted, op: Op)
  {
    var s := Apply(L, Loaded(t), op).0;
    forall id :: id in s.metas ==> TextMeta.Bounded(s.metas[id])
  }

  lemma GuardsAgree(L: Layout, t: Mounted, op: Op)
    requires NameGuard(L, t, op)
    ensures IdGuard(Loaded(t), op)
  {
    hide Loaded, NameFits, BlobsOf;
    LoadedParts(t);
  }

  /** The record that an operation on an indexed file saves. */
  lemma SavedFile(L: Layout, t: Mounted, p: string, f: File, now: int)
    requires Sound(L, t) && p in t.index && t.index[p] in t.texts
    requires TextMeta.Bounded(Updated(Loaded(t).metas[t.index[p]], f, now))
    ensures Printable(Updated(Loaded(t).metas[t.index[p]], f, now))
  {
    hide TextMeta.Bounded, TextMeta.IsToken;
    ReadableRecord(t, t.index[p]);
  }

  lemma IndexedRecord(L: Layout, t: Mounted, p: string)
    requires Sound(L, t)
    ensures p in t.index <==> PathToId(t.index, p) != ""
    ensures p in t.index ==>
              && t.index[p] in t.texts && LoadRecord(t.texts, t.index[p]) == Found(Loaded(t).metas[t.index[p]])
              && Loaded(t).metas[t.index[p]].pathId == t.index[p]
              && TableOf(t, t.index[p], Loaded(t).metas[t.index[p]]) == FileOf(Loaded(t), t.index[p])
  {
    hide RecordOf, BlobsOf;
    assert IndexedPath(Loaded(t), p);
    if p in t.index {
      ReadableRecord(t, t.index[p]);
      assert OwnedMeta(Loaded(t), t.index[p]);
    }
  }

  lemma PutBounded(s: Fs, id: string, f: File, now: int)
    requires id in s.metas
    requires forall x :: x in PutFile(s, id, f, now).metas ==> TextMeta.Bounded(PutFile(s, id, f, now).metas[x])
    ensures TextMeta.Bounded(Updated(s.metas[id], f, now))
  {
    assert s.metas[id].pathId in PutFile(s, id, f, now).metas;
    hide TextMeta.Bounded, PutBlobs, Updated;
  }

  lemma WriteActs(L: Layout, t: Mounted, p: string, buf: seq<byte>, off: nat, now: int)
    requires Sound(L, t)
    requires var s := WriteFs(L, Loaded(t), p, buf, off, now).0;
             forall id :: id in s.metas ==> TextMeta.Bounded(s.metas[id])
    ensures Loaded(WriteOn(L, t, p, buf, off, now).0) == WriteFs(L, Loaded(t), p, buf, off, now).0
    ensures WriteOn(L, t, p, buf, off, now).1 == WriteFs(L, Loaded(t), p, buf, off, now).1
    ensures Readable(WriteOn(L, t, p, buf, off, now).0) && (Canonical(t) ==> Canonical(WriteOn(L, t, p, buf, off, now).0))
  {
    hide Loaded, Canonical, Readable, Written, StoreFile, PutFile, FileOf, TextMeta.Bounded;
    LoadedParts(t);
    IndexedRecord(L, t, p);
    if 0 < |buf| && p in t.index {
      var id := t.index[p];
      var f := Written(L, FileOf(Loaded(t), id), buf, off);
      PutBounded(Loaded(t), id, f, now);
      SavedFile(L, t, p, f, now);
      StoreActs(t, id, f, now);
    }
  }

  lemma TruncateActs(L: Layout, t: Mounted, p: string, ns: nat, now: int)
    requires Sound(L, t)
    requires var s := TruncateFs(L, Loaded(t), p, ns, now).0;
             forall id :: id in s.metas ==> TextMeta.Bounded(s.metas[id])
    ensures Loaded(TruncateOn(L, t, p, ns, now).0) == TruncateFs(L, Loaded(t), p, ns, now).0
    ensures TruncateOn(L, t, p, ns, now).1 == TruncateFs(L, Loaded(t), p, ns, now).1
    ensures Readable(TruncateOn(L, t, p, ns, now).0) && (Canonical(t) ==> Canonical(TruncateOn(L, t, p, ns, now).0))
  {
    hide Loaded, Canonical, Readable, Truncated, StoreFile, PutFile, FileOf, TextMeta.Bounded;
    LoadedParts(t);
    IndexedRecord(L, t, p);
    if p in t.index {
      var id := t.index[p];
      var f := Truncated(L, FileOf(Loaded(t), id), ns);
      PutBounded(Loaded(t), id, f, now);
      SavedFile(L, t, p, f, now);
      StoreActs(t, id, f, now);
    }
  }

  lemma NewBounded(L: Layout, s: Fs, p: string, mode: nat, now: int)
    requires PathToId(s.index, p) == ""
    requires var u := CreateFs(L, s, p, mode, now).0;
             forall x :: x in u.metas ==> TextMeta.Bounded(u.metas[x])
    ensures TextMeta.Bounded(NewRecord(L, p, mode, now))
  {
    assert PathId(p) in CreateFs(L, s, p, mode, now).0.metas;
    hide TextMeta.Bounded, PathId;
  }

  /**
   Under the guard, an operation on the texts is the operation on the records they load as, up to how the record of a name
   with whitespace counts; for a name without, exactly.
   */
  lemma StepActs(L: Layout, t: Mounted, op: Op)
    requires Sound(L, t) && NameGuard(L, t, op) && InWidths(L, t, op)
    ensures var u, s := ApplyOn(L, t, op), Apply(L, Loaded(t), op);
            && Alike(L, Loaded(u.0), s.0) && u.1 == s.1 && Readable(u.0)
            && (TokenOp(op) ==> Loaded(u.0) == s.0 && (Canonical(t) ==> Canonical(u.0)))
  {
    hide Loaded, Canonical, Readable, Inv, TextMeta.Bounded, TextMeta.IsToken;
    hide Printable, PathId, Alike, NameFits, BlobsOf;
    hide WriteOn, WriteFs, TruncateOn, TruncateFs, UnlinkOn, UnlinkFs, RenameOn, RenameFs;
    LoadedParts(t);
    AlikeItself(L, Apply(L, Loaded(t), op).0);
    match op
    case Create(p, mode, now) =>
      IndexedRecord(L, t, Norm(p));
      if Norm(p) !in t.index {
        NewBounded(L, Loaded(t), Norm(p), mode, now);
        CreateActs(L, t, Norm(p), mode, now);
      }
    case Write(p, buf, off, now) => WriteActs(L, t, Norm(p), buf, off, now);
    case Truncate(p, ns, now) => TruncateActs(L, t, Norm(p), ns, now);
    case Unlink(p) => UnlinkActs(t, Norm(p));
    case Rename(from, to) =>
      IndexedRecord(L, t, Norm(from));
      if Norm(from) in t.index {
        RenameActs(L, t, Norm(from), Norm(to));
      } else {
        NoRename(t, Norm(from), Norm(to));
      }
  }

  lemma NoRename(t: Mounted, from: string, to: string)
    requires PathToId(t.index, from) == ""
    ensures RenameOn(t, from, to) == (t, ENOENT) && RenameFs(Loaded(t), from, to) == (Loaded(t), ENOENT)
  {
    hide RecordOf;
  }

  // ---------------------------------------------------------------- and outside the guard

  /**
   After the operation index, records and chunk files agree, with no orphan, and every path has the bytes that the
   operation gives it on records.
   */
  ghost predicate Keeps(L: Layout, t: Mounted, op: Op)
  {
    Inv(L, Loaded(ApplyOn(L, t, op).0)) && Content(L, ApplyOn(L, t, op).0) == Abs(L, Apply(L, Loaded(t), op).0)
  }

  /** What the mount means to its users. */
  ghost function Content(L: Layout, t: Mounted): map<string, seq<byte>>
  {
    Abs(L, Loaded(t))
  }

  lemma MissingRecord(L: Layout, t: Mounted, p: string)
    requires p in t.index && t.index[p] !in t.texts
    ensures !Inv(L, Loaded(t))
  {
    hide RecordOf;
    assert !IndexedPath(Loaded(t), p);
  }

  /** A record that does not come back as one that describes the file breaks the agreement or the content. */
  lemma BadName(L: Layout, u: Mounted, s: Fs, p: string, m: FileMeta)
    requires p in u.index && u.index[p] == m.pathId && m.pathId in u.texts
    requires u.texts[m.pathId] == TextMeta.SaveText(m)
    requires TextMeta.Bounded(m) && TextMeta.IsToken(m.pathId)
    requires p in s.index && s.index[p] == m.pathId && m.pathId in s.metas
    requires s.metas[m.pathId].logicalSize == m.logicalSize
    requires !NameFits(L, m, BlobsOf(u.blobs, m.pathId))
    ensures !(Inv(L, Loaded(u)) && Abs(L, Loaded(u)) == Abs(L, s))
  {
    var id := m.pathId;
    SavedText(m);
    LoadedParts(u);
    LoadedIs(u, id);
    hide RecordOf, TextMeta.IsToken, TextMeta.SaveText, TextMeta.NamedRecord, TextMeta.Bounded, WellFormed, BlobsOf, Flat;
    ContentSize(L, s, p);
    ContentSize(L, Loaded(u), p);
    var r := TextMeta.NamedRecord(m, DEFAULT_META).GetOr(DEFAULT_META);
    if r.pathId != id {
      assert !OwnedMeta(Loaded(u), id);
    } else if r.logicalSize == m.logicalSize {
      assert id != DEFAULT_META.pathId by {
        hide *;
        NotEmpty(id);
      }
      assert !GoodFile(L, Loaded(u), id);
    }
  }

  lemma ContentSize(L: Layout, s: Fs, p: string)
    requires p in s.index && s.index[p] in s.metas
    ensures p in Abs(L, s) && |Abs(L, s)[p]| == s.metas[s.index[p]].logicalSize
  {
    hide ByteAt, BlobsOf;
  }

  lemma NotEmpty(id: string)
    requires TextMeta.IsToken(id)
    ensures id != DEFAULT_META.pathId
  {
  }

  lemma LoadedIs(u: Mounted, id: string)
    requires id in u.texts
    ensures id in Loaded(u).metas && Loaded(u).metas[id] == RecordOf(u.texts[id]).GetOr(DEFAULT_META)
  {
    hide RecordOf;
  }

  /** A second path for a live id breaks the agreement. */
  lemma SharedId(L: Layout, s: Fs, u: Fs, p: string, id: string)
    requires Inv(L, s) && id in s.metas && p !in s.index && u.index == s.index[p := id]
    ensures !Inv(L, u)
  {
    assert OwnedMeta(s, id);
    hide WellFormed, BlobsOf;
    var q :| q in s.index && s.index[q] == id;
    assert !OnePath(u, p, q);
  }

  lemma CreateFails(L: Layout, t: Mounted, p: string, mode: nat, now: int)
    requires Sound(L, t) && p !in t.index && TextMeta.Bounded(NewRecord(L, p, mode, now))
    requires PathId(p) in t.texts || !NameFits(L, NewRecord(L, p, mode, now), BlobsOf(t.blobs, PathId(p)))
    ensures var u := CreateOn(L, t, p, mode, now).0;
            !(Inv(L, Loaded(u)) && Abs(L, Loaded(u)) == Abs(L, CreateFs(L, Loaded(t), p, mode, now).0))
  {
    IndexedRecord(L, t, p);
    LoadedParts(t);
    IdIsToken(p);
    var u := CreateOn(L, t, p, mode, now).0;
    LoadedParts(u);
    if PathId(p) in t.texts {
      hide Inv, PathId, Loaded, NameFits, TextMeta.SaveText, TextMeta.Bounded, TextMeta.IsToken, BlobsOf, Abs;
      SharedId(L, Loaded(t), Loaded(u), p, PathId(p));
    } else {
      hide Inv, PathId, Loaded, NameFits, TextMeta.SaveText, TextMeta.Bounded, TextMeta.IsToken, BlobsOf, Abs;
      BadName(L, u, CreateFs(L, Loaded(t), p, mode, now).0, p, NewRecord(L, p, mode, now));
    }
  }

  lemma RenameFails(L: Layout, t: Mounted, from: string, to: string)
    requires Sound(L, t) && from in t.index && t.index[from] in Loaded(t).metas
    requires from != to ==> TextMeta.Bounded(Loaded(t).metas[t.index[from]])
    requires from == to ||
             !NameFits(L, Loaded(t).metas[t.index[from]].(logicalPath := to), BlobsOf(t.blobs, t.index[from]))
    ensures var u := RenameOn(t, from, to).0;
            !(Inv(L, Loaded(u)) && Abs(L, Loaded(u)) == Abs(L, RenameFs(Loaded(t), from, to).0))
  {
    hide Loaded, Readable, Inv, UnlinkOn, RecordOf, RenameOn, NameFits, BlobsOf, Abs, RenameFs;
    IndexedRecord(L, t, from);
    if from == to {
      OntoItself(t, from);
      MissingRecord(L, RenameOn(t, from, from).0, from);
    } else {
      MovedAway(L, t, from, to);
    }
  }

  lemma MovedAway(L: Layout, t: Mounted, from: string, to: string)
    requires Sound(L, t) && from in t.index && from != to && t.index[from] in Loaded(t).metas
    requires TextMeta.Bounded(Loaded(t).metas[t.index[from]])
    requires !NameFits(L, Loaded(t).metas[t.index[from]].(logicalPath := to), BlobsOf(t.blobs, t.index[from]))
    ensures var u := RenameOn(t, from, to).0;
            !(Inv(L, Loaded(u)) && Abs(L, Loaded(u)) == Abs(L, RenameFs(Loaded(t), from, to).0))
  {
    hide Loaded, Canonical, Readable, Inv, TextMeta.IsToken, UnlinkOn, RecordOf, NameFits, BlobsOf, Abs, DropTarget;
    hide TextMeta.Bounded, TextMeta.SaveText;
    IndexedRecord(L, t, from);
    LoadedParts(t);
    DropActs(L, t, to);
    DropSourceKeeps(L, t, from, to);
    var id, u := t.index[from], if PathToId(t.index, to) == "" then t else UnlinkOn(t, to).0;
    IndexedRecord(L, u, from);
    LoadedParts(u);
    var m := Loaded(t).metas[id].(logicalPath := to);
    assert TextMeta.Bounded(m) && TextMeta.IsToken(m.pathId) by {
      SameBounds(Loaded(t).metas[id], to);
      ReadableRecord(t, id);
    }
    BadName(L, Renamed(u, from, to, id, Loaded(u).metas[id]), RenameFs(Loaded(t), from, to).0, to, m);
  }

  lemma DropSourceKeeps(L: Layout, t: Mounted, from: string, to: string)
    requires Sound(L, t) && from in t.index && from != to && t.index[from] in Loaded(t).metas
    ensures var u, id := if PathToId(t.index, to) == "" then t else UnlinkOn(t, to).0, t.index[from];
            && id in Loaded(u).metas && Loaded(u).metas[id] == Loaded(t).metas[id]
            && BlobsOf(u.blobs, id) == BlobsOf(t.blobs, id)
  {
    hide Loaded, Canonical, Readable, Inv, UnlinkOn, BlobsOf, DropTarget;
    LoadedParts(t);
    DropActs(L, t, to);
    DropKeeps(L, Loaded(t), from, to);
    var u := if PathToId(t.index, to) == "" then t else UnlinkOn(t, to).0;
    LoadedParts(u);
  }

  lemma SameBounds(m: FileMeta, to: string)
    ensures TextMeta.Bounded(m) <==> TextMeta.Bounded(m.(logicalPath := to))
  {
  }

  /** Renamed onto itself, a path loses its record and keeps its index entry. */
  lemma OntoItself(t: Mounted, p: string)
    requires PathToId(t.index, p) != "" && LoadRecord(t.texts, PathToId(t.index, p)).Found?
    ensures var r := RenameOn(t, p, p).0;
            && r == MoveOn(UnlinkOn(t, p).0, p, p, t.index[p]).0 && RenameOn(t, p, p).1 == Done(0)
            && p in r.index && r.index[p] == t.index[p] && t.index[p] !in r.texts
  {
    hide RecordOf, TextMeta.SaveText, RemoveChunks;
  }

  /**
   An operation keeps the agreement of index, records and chunk files, and gives every path its bytes, exactly when its
   guard holds: no live id is created again, no path is renamed onto itself, and the words of a new name let the record
   come back.
   */
  lemma StepSound(L: Layout, t: Mounted, op: Op)
    requires Sound(L, t) && InWidths(L, t, op)
    ensures Keeps(L, t, op) <==> NameGuard(L, t, op)
    ensures NameGuard(L, t, op) ==> Sound(L, ApplyOn(L, t, op).0)
  {
    if NameGuard(L, t, op) {
      hide Loaded, ApplyOn, Apply, Inv, Canonical, Readable, NameGuard, InWidths, Abs, Alike;
      GuardsAgree(L, t, op);
      StepInv(L, Loaded(t), op);
      StepActs(L, t, op);
      AlikeMeans(Sparse, L, Loaded(ApplyOn(L, t, op).0), Apply(L, Loaded(t), op).0);
    } else {
      hide Loaded, Inv, Canonical, Readable, CreateOn, CreateFs, RenameOn, RenameFs;
      hide TextMeta.Bounded, PathId, Abs, NameFits, BlobsOf;
      LoadedParts(t);
      match op
      case Create(p, mode, now) =>
        IndexedRecord(L, t, Norm(p));
        NewBounded(L, Loaded(t), Norm(p), mode, now);
        CreateFails(L, t, Norm(p), mode, now);
      case Rename(from, to) =>
        IndexedRecord(L, t, Norm(from));
        ReadableRecord(t, t.index[Norm(from)]);
        RenameFails(L, t, Norm(from), Norm(to));
    }
  }

  /**
   For a new name none of whose words is taken for a key: a rename keeps content and agreement exactly when the name has
   an odd number of words, or the file is empty.
   */
  lemma KeylessRename(L: Layout, t: Mounted, from: string, to: string)
    requires Sound(L, t) && InWidths(L, t, Rename(from, to)) && from in t.index && from != "" && to != "" && from != to
    requires TextMeta.Keyless(TextMeta.Tokens(to)) && TextMeta.Tokens(to) != []
    ensures from in Content(L, t)
    ensures Keeps(L, t, Rename(from, to)) <==> |TextMeta.Tokens(to)| % 2 == 1 || |Content(L, t)[from]| == 0
  {
    var id := t.index[from];
    LoadedParts(t);
    IndexedFile(L, Loaded(t), from);
    assert Norm(from) == from && Norm(to) == to;
    hide Loaded, TextMeta.Tokens, TextMeta.Keyless, NameFits, WellFormed, BlobsOf, InWidths, Keeps, Inv, Readable, Abs;
    RenameGuard(L, t, from, to);
    hide NameGuard;
    StepSound(L, t, Rename(from, to));
    KeylessFits(L, Loaded(t).metas[id].(logicalPath := to), BlobsOf(t.blobs, id));
    ContentSize(L, Loaded(t), from);
  }

  lemma RenameGuard(L: Layout, t: Mounted, from: string, to: string)
    requires from in t.index && t.index[from] in Loaded(t).metas && from != "" && to != "" && from != to
    ensures NameGuard(L, t, Rename(from, to)) <==>
            NameFits(L, Loaded(t).metas[t.index[from]].(logicalPath := to), BlobsOf(t.blobs, t.index[from]))
  {
    hide Loaded, NameFits, BlobsOf;
  }

  lemma IndexedFile(L: Layout, s: Fs, p: string)
    requires Inv(L, s) && p in s.index
    ensures s.index[p] in s.metas && WellFormed(L, FileOf(s, s.index[p]))
  {
    assert IndexedPath(s, p) && GoodFile(L, s, s.index[p]);
    hide WellFormed, BlobsOf;
  }

  /** And a create at such a name always does, if the id is free. */
  lemma KeylessCreate(L: Layout, t: Mounted, p: string, mode: nat, now: int)
    requires Sound(L, t) && InWidths(L, t, Create(p, mode, now)) && p !in t.index && p != "" && PathId(p) !in t.texts
    requires TextMeta.Keyless(TextMeta.Tokens(p)) && TextMeta.Tokens(p) != []
    ensures Keeps(L, t, Create(p, mode, now))
  {
    LoadedParts(t);
    assert Norm(p) == p;
    CeilDivBounds(0, L.C);
    hide Loaded, TextMeta.Tokens, TextMeta.Keyless, NameFits, BlobsOf, InWidths, Keeps, Readable, Abs, PathId;
    EmptyFileBlobs(L, Loaded(t), PathId(p));
    KeylessFits(L, NewRecord(L, p, mode, now), BlobsOf(t.blobs, PathId(p)));
    StepSound(L, t, Create(p, mode, now));
  }

  // ---------------------------------------------------------------- whole runs: agreement

  function RunOn(L: Layout, t: Mounted, ops: seq<Op>): Mounted
    decreases |ops|
  {
    if ops == [] then t else RunOn(L, ApplyOn(L, t, ops[0]).0, ops[1..])
  }

  /** Every record the run should save is within its widths. */
  ghost predicate WidthsRun(L: Layout, t: Mounted, ops: seq<Op>)
    decreases |ops|
  {
    ops == [] || (InWidths(L, t, ops[0]) && WidthsRun(L, ApplyOn(L, t, ops[0]).0, ops[1..]))
  }

  ghost predicate NamesRun(L: Layout, t: Mounted, ops: seq<Op>)
    decreases |ops|
  {
    ops == [] || (NameGuard(L, t, ops[0]) && NamesRun(L, ApplyOn(L, t, ops[0]).0, ops[1..]))
  }

  /** Every step of the run keeps the agreement, and gives every path its bytes. */
  ghost predicate KeptThroughout(L: Layout, t: Mounted, ops: seq<Op>)
    decreases |ops|
  {
    ops == [] || (Keeps(L, t, ops[0]) && KeptThroughout(L, ApplyOn(L, t, ops[0]).0, ops[1..]))
  }

  /**
   A run of any creates, writes, truncates, unlinks and renames keeps every path's bytes, without an orphan, at every step
   exactly when every step meets the guard on names.
   */
  lemma {:induction false} RunInvIff(L: Layout, t: Mounted, ops: seq<Op>)
    requires Sound(L, t) && WidthsRun(L, t, ops)
    ensures KeptThroughout(L, t, ops) <==> NamesRun(L, t, ops)
    ensures NamesRun(L, t, ops) ==> Sound(L, RunOn(L, t, ops))
    decreases |ops|
  {
    hide Inv, Readable, Loaded, ApplyOn, NameGuard, InWidths, Keeps, Sound;
    if ops != [] {
      StepSound(L, t, ops[0]);
      if NameGuard(L, t, ops[0]) {
        RunInvIff(L, ApplyOn(L, t, ops[0]).0, ops[1..]);
      }
    }
  }

  /** While no new name has whitespace, every text stays what `save` writes for the record it loads as. */
  lemma {:induction false} RunStaysCanonical(L: Layout, t: Mounted, ops: seq<Op>)
    requires Sound(L, t) && Canonical(t) && WidthsRun(L, t, ops) && NamesRun(L, t, ops)
    requires forall i :: 0 <= i < |ops| ==> TokenOp(ops[i])
    ensures Sound(L, RunOn(L, t, ops)) && Canonical(RunOn(L, t, ops))
    decreases |ops|
  {
    hide Inv, Readable, Loaded, ApplyOn, NameGuard, InWidths, Keeps, Sound, Canonical, Alike, TokenOp;
    if ops != [] {
      assert TokenOp(ops[0]);
      StepActs(L, t, ops[0]);
      StepSound(L, t, ops[0]);
      RunStaysCanonical(L, ApplyOn(L, t, ops[0]).0, ops[1..]);
    }
  }

  lemma EmptySound(L: Layout)
    ensures Sound(L, EMPTY_MOUNT) && Canonical(EMPTY_MOUNT) && Loaded(EMPTY_MOUNT) == EMPTY_FS
  {
    EmptyInv(L);
    assert Loaded(EMPTY_MOUNT) == EMPTY_FS;
  }

  /**
   After such a run from the empty mount no text or chunk file is orphaned, no two paths share an id, and the compressed
   size in every text is the sum of the sizes on disk.
   */
  lemma RunLeavesNoOrphans(L: Layout, ops: seq<Op>)
    requires NamesRun(L, EMPTY_MOUNT, ops) && WidthsRun(L, EMPTY_MOUNT, ops)
    ensures var t := RunOn(L, EMPTY_MOUNT, ops);
            && (forall p, q :: p in t.index && q in t.index && t.index[p] == t.index[q] ==> p == q)
            && (forall id :: id in t.texts <==> exists p :: p in t.index && t.index[p] == id)
            && (forall id :: id in t.texts ==> RecordOf(t.texts[id]).Some?)
            && (forall k :: k in t.blobs ==> k.0 in t.texts && k.1 < RecordOf(t.texts[k.0]).value.nChunks)
            && (forall id :: id in t.texts ==>
                  var m := RecordOf(t.texts[id]).value;
                  m.compressedSize == DiskSum(BlobsOf(t.blobs, id), m.nChunks))
  {
    EmptySound(L);
    RunInvIff(L, EMPTY_MOUNT, ops);
    SoundMeans(L, RunOn(L, EMPTY_MOUNT, ops));
  }

  lemma SoundMeans(L: Layout, t: Mounted)
    requires Sound(L, t)
    ensures forall p, q :: p in t.index && q in t.index && t.index[p] == t.index[q] ==> p == q
    ensures forall id :: id in t.texts <==> exists p :: p in t.index && t.index[p] == id
    ensures forall id :: id in t.texts ==> RecordOf(t.texts[id]).Some?
    ensures forall k :: k in t.blobs ==> k.0 in t.texts && k.1 < RecordOf(t.texts[k.0]).value.nChunks
    ensures forall id :: id in t.texts ==>
              var m := RecordOf(t.texts[id]).value;
              m.compressedSize == DiskSum(BlobsOf(t.blobs, id), m.nChunks)
  {
    LoadedParts(t);
    NoOrphans(L, Loaded(t));
    forall id | id in t.texts
      ensures RecordOf(t.texts[id]).Some? && RecordOf(t.texts[id]).value == Loaded(t).metas[id]
      ensures Loaded(t).metas[id].compressedSize == DiskSum(BlobsOf(t.blobs, id), Loaded(t).metas[id].nChunks)
    {
      ReadableRecord(t, id);
      assert GoodFile(L, Loaded(t), id);
    }
    hide RecordOf, Inv, Readable, Loaded, BlobsOf, DiskSum;
  }

  // ---------------------------------------------------------------- whole runs: content

  ghost predicate GoodMount(d: Discipline, L: Layout, t: Mounted)
  {
    Sound(L, t) && Good(d, L, Loaded(t))
  }

  ghost predicate StepGuard(d: Discipline, L: Layout, t: Mounted, op: Op)
  {
    NameGuard(L, t, op) && InWidths(L, t, op) && Guard(d, L, Loaded(t), op)
  }

  /** One guarded operation on the texts: content and status are those of the map from paths to byte strings. */
  lemma StepMeans(d: Discipline, L: Layout, t: Mounted, op: Op)
    requires GoodMount(d, L, t) && StepGuard(d, L, t, op)
    ensures GoodMount(d, L, ApplyOn(L, t, op).0)
    ensures Content(L, ApplyOn(L, t, op).0) == AbsStep(Content(L, t), op)
    ensures ApplyOn(L, t, op).1 == AbsStatus(Content(L, t), op)
  {
    hide Inv, Readable, Loaded, ApplyOn, Apply, NameGuard, InWidths, Good, Guard, Abs, Alike;
    StepSound(L, t, op);
    StepActs(L, t, op);
    StepRefines(d, L, Loaded(t), op);
    GoodInv(d, L, Apply(L, Loaded(t), op).0);
    AlikeMeans(d, L, Loaded(ApplyOn(L, t, op).0), Apply(L, Loaded(t), op).0);
  }

  lemma GoodInv(d: Discipline, L: Layout, s: Fs)
    requires Good(d, L, s)
    ensures Inv(L, s)
  {
  }

  function RunAbs(a: map<string, seq<byte>>, ops: seq<Op>): map<string, seq<byte>>
    decreases |ops|
  {
    if ops == [] then a else RunAbs(AbsStep(a, ops[0]), ops[1..])
  }

  /** The results of the operations of a run, in order, on the texts and on the map from paths to byte strings. */
  function StatusesOn(L: Layout, t: Mounted, ops: seq<Op>): seq<Status>
    decreases |ops|
  {
    if ops == [] then [] else [ApplyOn(L, t, ops[0]).1] + StatusesOn(L, ApplyOn(L, t, ops[0]).0, ops[1..])
  }

  function StatusesAbs(a: map<string, seq<byte>>, ops: seq<Op>): seq<Status>
    decreases |ops|
  {
    if ops == [] then [] else [AbsStatus(a, ops[0])] + StatusesAbs(AbsStep(a, ops[0]), ops[1..])
  }

  ghost predicate GuardedRun(d: Discipline, L: Layout, t: Mounted, ops: seq<Op>)
    decreases |ops|
  {
    ops == [] || (StepGuard(d, L, t, ops[0]) && GuardedRun(d, L, ApplyOn(L, t, ops[0]).0, ops[1..]))
  }

  /** Every guarded run on the texts keeps the invariants, and has the results and content of that run on byte strings. */
  lemma {:induction false} RunMeans(d: Discipline, L: Layout, t: Mounted, ops: seq<Op>)
    requires GoodMount(d, L, t) && GuardedRun(d, L, t, ops)
    ensures GoodMount(d, L, RunOn(L, t, ops))
    ensures Content(L, RunOn(L, t, ops)) == RunAbs(Content(L, t), ops)
    ensures StatusesOn(L, t, ops) == StatusesAbs(Content(L, t), ops)
    decreases |ops|
  {
    hide GoodMount, StepGuard, ApplyOn, Content, AbsStep, AbsStatus;
    if ops != [] {
      StepMeans(d, L, t, ops[0]);
      RunMeans(d, L, ApplyOn(L, t, ops[0]).0, ops[1..]);
    }
  }

  lemma EmptyGood(d: Discipline, L: Layout)
    ensures GoodMount(d, L, EMPTY_MOUNT) && Content(L, EMPTY_MOUNT) == map[]
  {
    EmptySound(L);
    assert Abs(L, EMPTY_FS) == map[];
  }

  /** An operation within the guard on names leaves the bytes of every path it does not name unchanged. */
  lemma OthersUnchanged(L: Layout, t: Mounted, op: Op, q: string)
    requires Sound(L, t) && NameGuard(L, t, op) && InWidths(L, t, op) && q in Content(L, t)
    requires q != Norm(if op.Rename? then op.from else op.path) && (op.Rename? ==> q != Norm(op.to))
    ensures q in Content(L, ApplyOn(L, t, op).0) && Content(L, ApplyOn(L, t, op).0)[q] == Content(L, t)[q]
  {
    hide Inv, Readable, Loaded, ApplyOn, Apply, NameGuard, InWidths, Abs, IdGuard, Keeps;
    GuardsAgree(L, t, op);
    StepSound(L, t, op);
    KeepsContent(L, t, op);
    OtherFilesUnchanged(L, Loaded(t), op, q);
  }

  lemma KeepsContent(L: Layout, t: Mounted, op: Op)
    requires Keeps(L, t, op)
    ensures Content(L, ApplyOn(L, t, op).0) == Abs(L, Apply(L, Loaded(t), op).0)
  {
    hide Inv, ApplyOn, Apply;
  }

  // ---------------------------------------------------------------- reading what was written

  /** A path with content is read from its own table. */
  lemma ReadsItsTable(L: Layout, t: Mounted, p: string, size: nat, off: nat)
    requires Sound(L, t)
    ensures p in Content(L, t) <==> p in t.index
    ensures p in t.index ==>
              && t.index[p] in Loaded(t).metas
              && WellFormed(L, FileOf(Loaded(t), t.index[p]))
              && Content(L, t)[p] == Flat(L, FileOf(Loaded(t), t.index[p]))
              && ReadFileOn(L, t, p, size, off) == ReadFile(L, FileOf(Loaded(t), t.index[p]), size, off)
    ensures p !in t.index ==> ReadFileOn(L, t, p, size, off) == NoEntry
  {
    LoadedParts(t);
    IndexedInv(L, Loaded(t), p);
    IndexedRecord(L, t, p);
    hide Loaded, Readable, Inv, ReadFile, Flat, WellFormed, TableOf, FileOf;
  }

  /** After any gapless run, a read of at least one byte of any path but the statistics path is the abstract slice. */
  lemma GaplessReads(L: Layout, ratio: (nat, nat) -> string, ops: seq<Op>, p: string, size: nat, off: nat)
    requires GuardedRun(Gapless, L, EMPTY_MOUNT, ops) && 0 < size && Norm(p) != STATS_VPATH
    ensures var a := RunAbs(map[], ops);
            ReadOn(L, ratio, RunOn(L, EMPTY_MOUNT, ops), p, size, off) ==
            if Norm(p) in a then Data(Slice(a[Norm(p)], off, size)) else NoEntry
  {
    EmptyGood(Gapless, L);
    RunMeans(Gapless, L, EMPTY_MOUNT, ops);
    hide RunOn, RunAbs, GuardedRun;
    GaplessRead(L, RunOn(L, EMPTY_MOUNT, ops), Norm(p), size, off);
  }

  lemma GaplessRead(L: Layout, t: Mounted, p: string, size: nat, off: nat)
    requires GoodMount(Gapless, L, t) && 0 < size
    ensures ReadFileOn(L, t, p, size, off) ==
            if p in Content(L, t) then Data(Slice(Content(L, t)[p], off, size)) else NoEntry
  {
    ReadsItsTable(L, t, p, size, off);
    if p in t.index {
      DenseReadsExact(L, FileOf(Loaded(t), t.index[p]), size, off);
    }
  }

  /**
   After any sparse run such a read finds exactly the paths of the abstract map, never fails, and returns a prefix of
   the slice where only its last chunk may be short.
   */
  lemma SparseReads(L: Layout, ratio: (nat, nat) -> string, ops: seq<Op>, p: string, size: nat, off: nat)
    requires GuardedRun(Sparse, L, EMPTY_MOUNT, ops) && 0 < size && Norm(p) != STATS_VPATH
    ensures var a, t := RunAbs(map[], ops), RunOn(L, EMPTY_MOUNT, ops);
            var r := ReadOn(L, ratio, t, p, size, off);
            if Norm(p) !in a then r == NoEntry
            else
              && Norm(p) in t.index && t.index[Norm(p)] in Loaded(t).metas
              && ReadsPrefix(L, FileOf(Loaded(t), t.index[Norm(p)]), r, a[Norm(p)], size, off)
  {
    EmptyGood(Sparse, L);
    RunMeans(Sparse, L, EMPTY_MOUNT, ops);
    hide RunOn, RunAbs, GuardedRun, ReadsPrefix, Good, Content, ReadFileOn, Readable, Inv, FileOf, Loaded;
    var t := RunOn(L, EMPTY_MOUNT, ops);
    ReadsItsTable(L, t, Norm(p), size, off);
    if Norm(p) in t.index {
      AnyRead(L, FileOf(Loaded(t), t.index[Norm(p)]), size, off);
    }
  }

  /**
   The statistics path hides a file of its name: reads of a path return its content exactly when the path is another
   one, or the content happens to be the statistics text.
   */
  lemma ReadsOwnBytesIff(L: Layout, ratio: (nat, nat) -> string, t: Mounted, p: string)
    requires GoodMount(Gapless, L, t) && Norm(p) in Content(L, t)
    ensures (forall size: nat, off: nat :: 0 < size ==>
               ReadOn(L, ratio, t, p, size, off) == Data(Slice(Content(L, t)[Norm(p)], off, size)))
            <==> Norm(p) != STATS_VPATH || StatsBytes(ratio, t) == Some(Content(L, t)[Norm(p)])
  {
    hide GoodMount, StatsBytes, ReadFileOn, Content;
    var c := Content(L, t)[Norm(p)];
    if Norm(p) != STATS_VPATH {
      forall size: nat, off: nat | 0 < size ensures ReadOn(L, ratio, t, p, size, off) == Data(Slice(c, off, size)) {
        GaplessRead(L, t, Norm(p), size, off);
      }
    } else if StatsBytes(ratio, t).Some? && StatsBytes(ratio, t).value != c {
      WholeSlices(StatsBytes(ratio, t).value, c);
    } else if StatsBytes(ratio, t) == None {
      assert ReadOn(L, ratio, t, p, 1, 0) == ReadThrown;
    }
  }

  lemma WholeSlices(a: seq<byte>, b: seq<byte>)
    requires a != b
    ensures exists size: nat :: 0 < size && Slice(a, 0, size) != Slice(b, 0, size)
  {
    var size := |a| + |b|;
    assert a != [] ==> Slice(a, 0, size) == a;
    assert b != [] ==> Slice(b, 0, size) == b;
    assert 0 < size;
    assert Slice(a, 0, size) != Slice(b, 0, size);
  }

  // ---------------------------------------------------------------- statistics

  lemma SumsOfText(L: Layout, t: Mounted, p: string)
    requires Sound(L, t) && Canonical(t) && p in t.index
    ensures var sums := Stats.TextTotals(t.texts, t.index[p]);
            sums.Some? && sums.value.logical == Stats.LogicalOf(Loaded(t))(p)
                       && sums.value.compressed == Stats.CompressedOf(Loaded(t))(p)
  {
    IndexedRecord(L, t, p);
    var id := t.index[p];
    assert CanonicalText(t.texts[id]);
    ReadableRecord(t, id);
    LoadedParts(t);
    Stats.SavedTotals(Loaded(t).metas[id], Stats.NOTHING);
    hide Loaded, RecordOf, Stats.AddTokens, Inv, Readable, Canonical;
    hide TextMeta.SaveText, TextMeta.Tokens, TextMeta.IsToken;
    Stats.PlusLaws(Stats.Totals(Loaded(t).metas[id].logicalSize, Loaded(t).metas[id].compressedSize),
                   Stats.NOTHING, Stats.NOTHING);
  }

  /**
   On every sound mount with canonical texts nothing throws, and the totals are, modulo 2^64, the sum of the logical sizes
   and the number of bytes in all chunk files there are.
   */
  lemma StatsAreExact(L: Layout, t: Mounted)
    requires Sound(L, t) && Canonical(t)
    ensures var s := Loaded(t);
            Stats.StatsOf(t.index, t.texts) ==
            Some(Stats.Totals(Stats.Sum(t.index.Keys, Stats.LogicalOf(s)) % TWO_64,
                              Stats.Sum(t.blobs.Keys, Stats.BlobSize(t.blobs)) % TWO_64))
  {
    hide Inv, Canonical, Readable, Loaded, Stats.TextTotals, Stats.LogicalOf, Stats.CompressedOf, Stats.Sum;
    forall p | p in t.index
      ensures var sums := Stats.TextTotals(t.texts, t.index[p]);
              sums.Some? && sums.value.logical == Stats.LogicalOf(Loaded(t))(p)
                         && sums.value.compressed == Stats.CompressedOf(Loaded(t))(p)
    {
      SumsOfText(L, t, p);
    }
    LoadedParts(t);
    Stats.SumAgree(t.index.Keys, Stats.LogicalIn(t.index, t.texts), Stats.LogicalOf(Loaded(t)));
    Stats.SumAgree(t.index.Keys, Stats.CompressedIn(t.index, t.texts), Stats.CompressedOf(Loaded(t)));
    Stats.CompressedTotal(L, Loaded(t));
  }

  /** So they are after any run in which every new name is free of whitespace. */
  lemma StatsAfterRun(L: Layout, ops: seq<Op>)
    requires NamesRun(L, EMPTY_MOUNT, ops) && WidthsRun(L, EMPTY_MOUNT, ops)
    requires forall i :: 0 <= i < |ops| ==> TokenOp(ops[i])
    ensures var t := RunOn(L, EMPTY_MOUNT, ops);
            Stats.StatsOf(t.index, t.texts) ==
            Some(Stats.Totals(Stats.Sum(t.index.Keys, Stats.LogicalOf(Loaded(t))) % TWO_64,
                              Stats.Sum(t.blobs.Keys, Stats.BlobSize(t.blobs)) % TWO_64))
  {
    EmptySound(L);
    hide Sound, Canonical, NamesRun, WidthsRun, RunOn, TokenOp, Stats.StatsOf, Stats.Sum, Loaded;
    RunStaysCanonical(L, EMPTY_MOUNT, ops);
    StatsAreExact(L, RunOn(L, EMPTY_MOUNT, ops));
  }

  // ---------------------------------------------------------------- restart

  /** The mount after a restart: the index is what its file loads as, the texts and chunk files are where they were. */
  function Restarted(indexFile: string, t: Mounted): Mounted
  {
    t.(index := TextMeta.LoadLines(Listing.Lines(indexFile)))
  }

  /** A restart changes nothing exactly when no indexed path has a tab or a newline, and no id a newline. */
  lemma RestartIff(indexFile: string, t: Mounted)
    requires TextMeta.IndexFile(indexFile, t.index)
    ensures Restarted(indexFile, t) == t <==> forall p :: p in t.index ==> TextMeta.CleanEntry((p, t.index[p]))
  {
    hide TextMeta.LoadLines, TextMeta.CleanEntry, TextMeta.IndexFile;
    TextMeta.IndexFileLoads(indexFile, t.index);
  }

  /** A sound mount survives a restart exactly when no indexed path has a tab or a newline. */
  lemma SoundRestarts(L: Layout, indexFile: string, t: Mounted)
    requires Sound(L, t) && TextMeta.IndexFile(indexFile, t.index)
    ensures Restarted(indexFile, t) == t <==> forall p :: p in t.index ==> '\t' !in p && '\n' !in p
  {
    RestartIff(indexFile, t);
    forall p | p in t.index ensures TextMeta.CleanEntry((p, t.index[p])) <==> '\t' !in p && '\n' !in p {
      IndexedRecord(L, t, p);
      ReadableRecord(t, t.index[p]);
      TextMeta.TokensAreClean(t.index[p], t.index[p]);
    }
    hide TextMeta.CleanEntry, TextMeta.IndexFile, Inv, Readable, Loaded, Restarted;
  }
}
