/**
 Each operation of the namespace, on its records, refines the same operation on a map from paths to byte strings:
 - under two disciplines, one for files without gaps and one for files with clean tails;
 - with the guards on ids that keep the invariant, and those on writes and truncates that keep the discipline;
 - up to records that describe the same files;
 - and leaving all other paths as they were.
 */
module NamespaceSteps {
  import opened Bytes
  import opened FileIds
  import opened ChunkedFile
  import opened ChunkedRead
  import opened FileRuns
  import opened Namespace

  /** What the mount means to its users. */
  ghost function Abs(L: Layout, s: Fs): map<string, seq<byte>>
  {
    map p | p in s.index && s.index[p] in s.metas :: Flat(L, FileOf(s, s.index[p]))
  }

  function AbsStep(a: map<string, seq<byte>>, op: Op): map<string, seq<byte>>
  {
    match op
    case Create(p, _, _) => if Norm(p) in a then a else a[Norm(p) := []]
    case Write(p, buf, off, _) => if Norm(p) in a then a[Norm(p) := FlatStep(a[Norm(p)], WriteOp(buf, off))] else a
    case Truncate(p, ns, _) => if Norm(p) in a then a[Norm(p) := Resized(a[Norm(p)], ns)] else a
    case Unlink(p) => Without(a, Norm(p))
    case Rename(from, to) =>
      if Norm(from) in a then Without(a, Norm(from))[Norm(to) := a[Norm(from)]] else a
  }

  function AbsStatus(a: map<string, seq<byte>>, op: Op): Status
  {
    match op
    case Create(p, _, _) => if Norm(p) in a then EEXIST else Done(0)
    case Write(p, buf, _, _) => if |buf| == 0 || Norm(p) in a then Done(|buf|) else ENOENT
    case Truncate(p, _, _) => if Norm(p) in a then Done(0) else ENOENT
    case Unlink(p) => if Norm(p) in a then Done(0) else ENOENT
    case Rename(from, _) => if Norm(from) in a then Done(0) else ENOENT
  }

  /**
   Two disciplines under which the store is a byte string per path: `Sparse` allows writes anywhere and asks
   truncates to be tidy; `Gapless` allows any shrink but no gap.
   */
  datatype Discipline = Sparse | Gapless

  ghost predicate Kept(d: Discipline, L: Layout, f: File)
  {
    match d
    case Sparse => CleanTail(L, f)
    case Gapless => Dense(L, f)
  }

  predicate Allowed(d: Discipline, C: pos, s: seq<byte>, op: FileOp)
  {
    match d
    case Sparse => Tidy(C, s, op)
    case Gapless => InBounds(s, op)
  }

  /**
   The sparse discipline allows every write, every growth and every cut to a multiple of the chunk size; the gapless one
   the writes that start within the file and the cuts.
   */
  lemma AllowedIs(C: pos, s: seq<byte>, buf: seq<byte>, n: nat)
    ensures Allowed(Sparse, C, s, WriteOp(buf, n))
    ensures |s| <= n || n % C == 0 ==> Allowed(Sparse, C, s, TruncateOp(n))
    ensures Allowed(Gapless, C, s, WriteOp(buf, n)) <==> n <= |s|
    ensures Allowed(Gapless, C, s, TruncateOp(n)) <==> n <= |s|
  {
    if n % C == 0 {
      CeilDivBounds(n, C);
      MultipleIs(n, CeilDiv(n, C), C);
    }
  }

  lemma MultipleIs(n: nat, q: nat, C: pos)
    requires n % C == 0 && q * C < n + C && n <= q * C
    ensures q * C == n
  {
    var d := q - n / C;
    assert d * C == q * C - n;
    if 1 <= d {
      MulMono(1, d, C);
    }
  }

  /** A create does not meet a live id, and a rename does not name one path twice. */
  predicate IdGuard(s: Fs, op: Op)
  {
    match op
    case Create(p, _, _) => Norm(p) in s.index || PathId(Norm(p)) !in s.metas
    case Rename(from, to) => Norm(from) !in s.index || Norm(from) != Norm(to)
    case _ => true
  }

  /** The operation is one that the code gets right in state `s`. */
  ghost predicate Guard(d: Discipline, L: Layout, s: Fs, op: Op)
  {
    && IdGuard(s, op)
    && var a := Abs(L, s);
    match op
    case Write(p, buf, off, _) => Norm(p) in a ==> Allowed(d, L.C, a[Norm(p)], WriteOp(buf, off))
    case Truncate(p, ns, _) => Norm(p) in a ==> Allowed(d, L.C, a[Norm(p)], TruncateOp(ns))
    case _ => true
  }

  /** Only cuts, and without gaps also writes, are guarded by more than the ids. */
  lemma GuardIs(d: Discipline, L: Layout, s: Fs, op: Op)
    requires op.Truncate? ==> (Norm(op.path) !in Abs(L, s) || (d == Sparse && op.ns % L.C == 0))
    requires op.Write? ==> (Norm(op.path) !in Abs(L, s) || d == Sparse)
    ensures Guard(d, L, s, op) <==> IdGuard(s, op)
  {
    hide Abs, IdGuard, Allowed;
    match op
    case Write(p, buf, off, _) =>
      if Norm(p) in Abs(L, s) {
        AllowedIs(L.C, Abs(L, s)[Norm(p)], buf, off);
      }
    case Truncate(p, ns, _) =>
      if Norm(p) in Abs(L, s) {
        AllowedIs(L.C, Abs(L, s)[Norm(p)], [], ns);
      }
    case _ =>
  }

  ghost predicate Good(d: Discipline, L: Layout, s: Fs)
  {
    Inv(L, s) && forall id :: id in s.metas ==> Kept(d, L, FileOf(s, id))
  }

  lemma IndexedInv(L: Layout, s: Fs, p: string)
    requires Inv(L, s)
    ensures p in s.index <==> p in Abs(L, s)
    ensures p in s.index ==>
              && PathToId(s.index, p) != "" && s.index[p] == PathToId(s.index, p)
              && s.index[p] in s.metas && s.metas[s.index[p]].pathId == s.index[p]
              && WellFormed(L, FileOf(s, s.index[p]))
    ensures p !in s.index ==> PathToId(s.index, p) == ""
  {
    assert IndexedPath(s, p);
    if p in s.index {
      assert OwnedMeta(s, s.index[p]) && GoodFile(L, s, s.index[p]);
    }
  }

  lemma FileStepKept(d: Discipline, L: Layout, f: File, op: FileOp)
    requires WellFormed(L, f) && Kept(d, L, f) && Allowed(d, L.C, Flat(L, f), op)
    ensures WellFormed(L, Step(L, f, op)) && Kept(d, L, Step(L, f, op))
    ensures Flat(L, Step(L, f, op)) == FlatStep(Flat(L, f), op)
  {
    StepWellFormed(L, f, op);
    match d
    case Sparse => SparseStep(L, f, op);
    case Gapless => DenseStep(L, f, op);
  }

  lemma AbsKeys(L: Layout, s: Fs)
    requires Inv(L, s)
    ensures Abs(L, s).Keys == s.index.Keys
    ensures forall p :: p in s.index ==> s.index[p] in s.metas
  {
    forall p | p in s.index ensures s.index[p] in s.metas {
      assert IndexedPath(s, p);
    }
  }

  lemma OneIdOnePath(L: Layout, s: Fs, p: string)
    requires Inv(L, s) && p in s.index
    ensures forall q :: q in s.index && q != p ==> s.index[q] != s.index[p]
  {
    forall q | q in s.index && q != p ensures s.index[q] != s.index[p] {
      assert OnePath(s, q, p);
    }
  }

  /** Replacing one file's table changes that file and no other. */
  lemma PutFileKeeps(L: Layout, s: Fs, p: string, f: File, now: int)
    requires Inv(L, s) && p in s.index && s.index[p] in s.metas && WellFormed(L, f)
    ensures var t := PutFile(s, s.index[p], f, now);
            && Inv(L, t) && t.index == s.index && t.metas.Keys == s.metas.Keys
            && forall x :: x in t.metas ==> FileOf(t, x) == if x == s.index[p] then f else FileOf(s, x)
  {
    var id := s.index[p];
    assert OwnedMeta(s, id);
    PutFileInv(L, s, id, f, now);
    forall x | x in s.metas ensures FileOf(PutFile(s, id, f, now), x) == if x == id then f else FileOf(s, x) {
      PutFileOf(s, id, f, now, x);
    }
  }

  lemma PutFileAbs(L: Layout, s: Fs, p: string, f: File, now: int)
    requires Inv(L, s) && p in s.index && s.index[p] in s.metas && WellFormed(L, f)
    ensures Abs(L, PutFile(s, s.index[p], f, now)) == Abs(L, s)[p := Flat(L, f)]
  {
    hide Flat, BlobsOf, WellFormed, PutBlobs;
    PutFileKeeps(L, s, p, f, now);
    AbsKeys(L, s);
    OneIdOnePath(L, s, p);
  }

  lemma FileOpRefines(d: Discipline, L: Layout, s: Fs, p: string, op: FileOp, now: int)
    requires Good(d, L, s) && p in s.index && s.index[p] in s.metas
    requires Allowed(d, L.C, Flat(L, FileOf(s, s.index[p])), op)
    ensures var t := PutFile(s, s.index[p], Step(L, FileOf(s, s.index[p]), op), now);
            Good(d, L, t) && Abs(L, t) == Abs(L, s)[p := FlatStep(Flat(L, FileOf(s, s.index[p])), op)]
  {
    IndexedInv(L, s, p);
    FileStepKept(d, L, FileOf(s, s.index[p]), op);
    PutFileKeeps(L, s, p, Step(L, FileOf(s, s.index[p]), op), now);
    PutFileAbs(L, s, p, Step(L, FileOf(s, s.index[p]), op), now);
  }

  /** Files of `t` are files of `s`, but for `id`. */
  lemma GoodIs(d: Discipline, L: Layout, s: Fs, t: Fs, id: string)
    requires Good(d, L, s) && Inv(L, t)
    requires id in t.metas ==> Kept(d, L, FileOf(t, id))
    requires forall x :: x in t.metas && x != id ==> x in s.metas && FileOf(t, x) == FileOf(s, x)
    ensures Good(d, L, t)
  {
  }

  lemma CreateAbs(L: Layout, s: Fs, p: string, m: FileMeta)
    requires Inv(L, s) && p !in s.index && m.pathId !in s.metas && m.pathId != ""
    requires m.logicalSize == 0 && m.nChunks == 0 && m.compressedSize == 0
    ensures Abs(L, s.(metas := s.metas[m.pathId := m], index := s.index[p := m.pathId])) == Abs(L, s)[p := []]
  {
    AddFileInv(L, s, p, m);
    AbsKeys(L, s);
    assert Flat(L, EMPTY) == [];
  }

  lemma CreateRefines(d: Discipline, L: Layout, s: Fs, p: string, mode: nat, now: int)
    requires Good(d, L, s) && p !in s.index && PathId(p) !in s.metas
    ensures var t := CreateFs(L, s, p, mode, now).0; Good(d, L, t) && Abs(L, t) == Abs(L, s)[p := []]
  {
    var m := NewRecord(L, p, mode, now);
    AddFileInv(L, s, p, m);
    CreateAbs(L, s, p, m);
    EmptyFileKept(d, L);
    GoodIs(d, L, s, CreateFs(L, s, p, mode, now).0, m.pathId);
  }

  lemma EmptyFileKept(d: Discipline, L: Layout)
    ensures Kept(d, L, EMPTY) && Flat(L, EMPTY) == []
  {
    CeilDivBounds(0, L.C);
  }

  lemma UnlinkAbs(L: Layout, s: Fs, p: string)
    requires Inv(L, s) && p in s.index
    ensures Inv(L, UnlinkFs(s, p).0) && Abs(L, UnlinkFs(s, p).0) == Without(Abs(L, s), p)
  {
    hide Flat, BlobsOf, WellFormed, RemoveChunks;
    UnlinkInv(L, s, p);
    IndexedInv(L, s, p);
    AbsKeys(L, s);
    OneIdOnePath(L, s, p);
  }

  lemma UnlinkRefines(d: Discipline, L: Layout, s: Fs, p: string)
    requires Good(d, L, s) && p in s.index
    ensures var t := UnlinkFs(s, p).0; Good(d, L, t) && Abs(L, t) == Without(Abs(L, s), p)
  {
    hide Flat, BlobsOf, WellFormed, RemoveChunks, Dense, CleanTail, Abs;
    UnlinkAbs(L, s, p);
    UnlinkInv(L, s, p);
    IndexedInv(L, s, p);
  }

  lemma RenameRefines(d: Discipline, L: Layout, s: Fs, from: string, to: string)
    requires Good(d, L, s) && from in s.index && from != to
    ensures var t := RenameFs(s, from, to).0;
            Good(d, L, t) && from in Abs(L, s) && Abs(L, t) == Without(Abs(L, s), from)[to := Abs(L, s)[from]]
  {
    hide Abs, Moved, DropTarget, Kept;
    DropTargetInv(L, s, to);
    DropTargetGood(d, L, s, to);
    MoveGood(d, L, DropTarget(s, to), from, to);
    RenameAbs(L, s, from, to);
  }

  lemma OverwriteTarget<V>(a: map<string, V>, from: string, to: string)
    requires from in a && from != to
    ensures from in Without(a, to)
    ensures Without(Without(a, to), from)[to := Without(a, to)[from]] == Without(a, from)[to := a[from]]
  {
  }

  lemma DropTargetGood(d: Discipline, L: Layout, s: Fs, to: string)
    requires Good(d, L, s)
    ensures Good(d, L, DropTarget(s, to))
  {
    IndexedInv(L, s, to);
    if to in s.index {
      UnlinkRefines(d, L, s, to);
    }
  }

  lemma MovedAbs(L: Layout, t: Fs, from: string, to: string)
    requires Inv(L, t) && from in t.index && to !in t.index && from != to
    ensures from in Abs(L, t)
    ensures Abs(L, Moved(t, from, to, t.index[from])) == Without(Abs(L, t), from)[to := Abs(L, t)[from]]
  {
    hide Flat, BlobsOf, WellFormed;
    IndexedInv(L, t, from);
    AbsKeys(L, t);
  }

  lemma RenameAbs(L: Layout, s: Fs, from: string, to: string)
    requires Inv(L, s) && from in s.index && from != to
    ensures from in Abs(L, s) && Abs(L, RenameFs(s, from, to).0) == Without(Abs(L, s), from)[to := Abs(L, s)[from]]
  {
    hide Abs, Moved, WellFormed;
    IndexedInv(L, s, from);
    IndexedInv(L, s, to);
    DropTargetInv(L, s, to);
    var t := DropTarget(s, to);
    if to in s.index {
      UnlinkAbs(L, s, to);
    } else {
      assert Without(Abs(L, s), to) == Abs(L, s);
    }
    MovedAbs(L, t, from, to);
    OverwriteTarget(Abs(L, s), from, to);
  }

  lemma MoveGood(d: Discipline, L: Layout, t: Fs, from: string, to: string)
    requires Good(d, L, t) && from in t.index && to !in t.index && from != to
    ensures Good(d, L, Moved(t, from, to, t.index[from]))
  {
    var id := t.index[from];
    IndexedInv(L, t, from);
    MoveInv(L, t, from, to, id);
    GoodIs(d, L, t, Moved(t, from, to, id), id);
  }

  /** One guarded operation: the invariants stay, and content and result are those of the abstract map. */
  lemma StepRefines(d: Discipline, L: Layout, s: Fs, op: Op)
    requires Good(d, L, s) && Guard(d, L, s, op)
    ensures Good(d, L, Apply(L, s, op).0)
    ensures Abs(L, Apply(L, s, op).0) == AbsStep(Abs(L, s), op)
    ensures Apply(L, s, op).1 == AbsStatus(Abs(L, s), op)
  {
    hide Flat, BlobsOf, WellFormed, Kept, Inv, PutBlobs;
    match op
    case Create(p, mode, now) =>
      IndexedInv(L, s, Norm(p));
      if Norm(p) !in s.index {
        CreateRefines(d, L, s, Norm(p), mode, now);
      }
    case Write(p, buf, off, now) =>
      IndexedInv(L, s, Norm(p));
      if Norm(p) in s.index && 0 < |buf| {
        FileOpRefines(d, L, s, Norm(p), WriteOp(buf, off), now);
      }
    case Truncate(p, ns, now) =>
      IndexedInv(L, s, Norm(p));
      if Norm(p) in s.index {
        FileOpRefines(d, L, s, Norm(p), TruncateOp(ns), now);
      }
    case Unlink(p) =>
      IndexedInv(L, s, Norm(p));
      if Norm(p) in s.index {
        UnlinkRefines(d, L, s, Norm(p));
      } else {
        assert Without(Abs(L, s), Norm(p)) == Abs(L, s);
      }
    case Rename(from, to) =>
      IndexedInv(L, s, Norm(from));
      if Norm(from) in s.index {
        RenameRefines(d, L, s, Norm(from), Norm(to));
      }
  }

  // ---------------------------------------------------------------- steps of any writes and truncates

  /** The namespace invariant survives an operation exactly when its id guard holds. */
  lemma StepInv(L: Layout, s: Fs, op: Op)
    requires Inv(L, s)
    ensures Inv(L, Apply(L, s, op).0) <==> IdGuard(s, op)
  {
    hide Inv, CreateFs, WriteFs, TruncateFs, UnlinkFs, RenameFs;
    match op
    case Create(p, mode, now) => CreateInv(L, s, Norm(p), mode, now);
    case Write(p, buf, off, now) => WriteInv(L, s, Norm(p), buf, off, now);
    case Truncate(p, ns, now) => TruncateInv(L, s, Norm(p), ns, now);
    case Unlink(p) => UnlinkInv(L, s, Norm(p));
    case Rename(from, to) => RenameInv(L, s, Norm(from), Norm(to));
  }

  /** An operation that keeps the invariant leaves the bytes of every path it does not name unchanged. */
  lemma OtherFilesUnchanged(L: Layout, s: Fs, op: Op, q: string)
    requires Inv(L, s) && IdGuard(s, op) && q in Abs(L, s)
    requires q != Norm(if op.Rename? then op.from else op.path) && (op.Rename? ==> q != Norm(op.to))
    ensures q in Abs(L, Apply(L, s, op).0) && Abs(L, Apply(L, s, op).0)[q] == Abs(L, s)[q]
  {
    hide Abs, Flat, Inv, PutFile;
    var p := Norm(if op.Rename? then op.from else op.path);
    IndexedInv(L, s, p);
    if p in s.index {
      OthersAtIndexed(L, s, op, p, q);
    } else if op.Create? {
      CreateAbs(L, s, p, NewRecord(L, p, op.mode, op.now));
    }
  }

  lemma OthersAtIndexed(L: Layout, s: Fs, op: Op, p: string, q: string)
    requires Inv(L, s) && IdGuard(s, op) && q in Abs(L, s) && p in s.index
    requires p == Norm(if op.Rename? then op.from else op.path) && q != p && (op.Rename? ==> q != Norm(op.to))
    ensures q in Abs(L, Apply(L, s, op).0) && Abs(L, Apply(L, s, op).0)[q] == Abs(L, s)[q]
  {
    IndexedInv(L, s, p);
    hide Abs, Flat, Inv, RenameFs, UnlinkFs, WriteFs, TruncateFs;
    match op
    case Write(_, buf, off, now) => WriteKeepsOthers(L, s, p, buf, off, now, q);
    case Truncate(_, ns, now) => TruncateKeepsOthers(L, s, p, ns, now, q);
    case Unlink(_) => UnlinkAbs(L, s, p);
    case Rename(from, to) => RenameAbs(L, s, p, Norm(to));
    case Create(_, _, _) =>
  }

  lemma PutFileKeepsOthers(L: Layout, s: Fs, p: string, f: File, now: int, q: string)
    requires Inv(L, s) && p in s.index && s.index[p] in s.metas && WellFormed(L, f) && q in Abs(L, s) && q != p
    ensures var t := PutFile(s, s.index[p], f, now); q in Abs(L, t) && Abs(L, t)[q] == Abs(L, s)[q]
  {
    hide *;
    PutFileAbs(L, s, p, f, now);
  }

  lemma WriteKeepsOthers(L: Layout, s: Fs, p: string, buf: seq<byte>, off: nat, now: int, q: string)
    requires Inv(L, s) && p in s.index && q in Abs(L, s) && q != p
    ensures var t := WriteFs(L, s, p, buf, off, now).0; q in Abs(L, t) && Abs(L, t)[q] == Abs(L, s)[q]
  {
    hide *;
    IndexedInv(L, s, p);
    var f := FileOf(s, s.index[p]);
    if 0 < |buf| {
      WrittenWellFormed(L, f, buf, off);
      PutFileKeepsOthers(L, s, p, Written(L, f, buf, off), now, q);
    }
    WriteFsIs(L, s, p, buf, off, now);
  }

  lemma WriteFsIs(L: Layout, s: Fs, p: string, buf: seq<byte>, off: nat, now: int)
    requires p in s.index && PathToId(s.index, p) != "" && s.index[p] in s.metas
    ensures WriteFs(L, s, p, buf, off, now).0 ==
            if |buf| == 0 then s else PutFile(s, s.index[p], Written(L, FileOf(s, s.index[p]), buf, off), now)
  {
    hide PutFile, Written, FileOf;
  }

  lemma TruncateKeepsOthers(L: Layout, s: Fs, p: string, ns: nat, now: int, q: string)
    requires Inv(L, s) && p in s.index && q in Abs(L, s) && q != p
    ensures var t := TruncateFs(L, s, p, ns, now).0; q in Abs(L, t) && Abs(L, t)[q] == Abs(L, s)[q]
  {
    hide *;
    IndexedInv(L, s, p);
    var f := FileOf(s, s.index[p]);
    TruncatedWellFormed(L, f, ns);
    PutFileKeepsOthers(L, s, p, Truncated(L, f, ns), now, q);
    TruncateFsIs(L, s, p, ns, now);
  }

  lemma TruncateFsIs(L: Layout, s: Fs, p: string, ns: nat, now: int)
    requires p in s.index && PathToId(s.index, p) != "" && s.index[p] in s.metas
    ensures TruncateFs(L, s, p, ns, now).0 == PutFile(s, s.index[p], Truncated(L, FileOf(s, s.index[p]), ns), now)
  {
    hide PutFile, Truncated, FileOf;
  }

  /** The chunks `fc` up to but not including `lc` are each stored full or not at all. */
  ghost predicate NoShortPart(L: Layout, f: File, fc: nat, lc: nat)
  {
    forall i: nat :: fc <= i < lc ==> |Part(L, f, i)| == L.C
  }

  /**
   A read result of a file whose flat content is `flat`: no failure, and a prefix of the slice whenever the chunks it
   touches, except the last, are stored full or not at all.
   */
  ghost predicate ReadsPrefix(L: Layout, f: File, r: ReadResult, flat: seq<byte>, size: nat, off: nat)
  {
    && r.Data?
    && (off < |flat| && NoShortPart(L, f, off / L.C, LastChunk(L.C, Min(off + size, |flat|))) ==>
          r.bytes <= Slice(flat, off, size))
  }

  lemma AnyRead(L: Layout, f: File, size: nat, off: nat)
    requires WellFormed(L, f) && 0 < size
    ensures ReadsPrefix(L, f, ReadFile(L, f, size, off), Flat(L, f), size, off)
  {
    hide ReadFile, WellFormed, Flat, NoShortPart, Slice, LastChunk;
    if off < f.size {
      assert off + Min(size, f.size - off) == Min(off + size, f.size);
      AnyReadInside(L, f, size, off, Min(size, f.size - off), off / L.C, LastChunk(L.C, Min(off + size, f.size)));
    } else {
      PastEnd(L, f, size, off);
    }
  }

  lemma AnyReadInside(L: Layout, f: File, size: nat, off: nat, want: nat, fc: nat, lc: nat)
    requires WellFormed(L, f) && 0 < size && off < f.size && want == Min(size, f.size - off)
    requires fc == off / L.C && lc == LastChunk(L.C, off + want)
    ensures ReadFile(L, f, size, off).Data?
    ensures NoShortPart(L, f, fc, lc) ==> ReadFile(L, f, size, off).bytes <= Slice(Flat(L, f), off, size)
  {
    hide ReadFile, WellFormed, Part, Flat, Slice, ChunkSpan;
    ReadFileIs(L, f, size, off, want, fc, ChunkSpan(L.C, off, want));
    if NoShortPart(L, f, fc, lc) {
      ReadIsPrefix(L, f, size, off, want, fc, lc);
    }
  }

  // ---------------------------------------------------------------- states that are alike

  /** States that are alike have the same content, and both are gapless, or clean, if one is. */
  lemma AlikeMeans(d: Discipline, L: Layout, s: Fs, t: Fs)
    requires Alike(L, s, t) && Inv(L, t)
    ensures Inv(L, s) && Abs(L, s) == Abs(L, t)
    ensures Good(d, L, t) ==> Good(d, L, s)
  {
    AlikeInv(L, s, t);
    forall id | id in s.metas
      ensures Flat(L, FileOf(s, id)) == Flat(L, FileOf(t, id))
      ensures (Kept(d, L, FileOf(t, id)) ==> Kept(d, L, FileOf(s, id)))
    {
      assert AlikeAt(L, s, t, id) && GoodFile(L, t, id);
      SameBytesAlike(d, L, FileOf(s, id), FileOf(t, id));
    }
    hide Flat, WellFormed, Kept, Inv, BlobsOf;
  }

  lemma SameBytesAlike(d: Discipline, L: Layout, f: File, g: File)
    requires f.size == g.size && f.blobs == g.blobs && WellFormed(L, f) && WellFormed(L, g)
    ensures Flat(L, f) == Flat(L, g) && (Kept(d, L, g) ==> Kept(d, L, f))
  {
    hide Decoded, DiskSum, CeilDiv;
    SameBytesAt(L, f, g);
    if d == Gapless && Dense(L, g) {
      if 0 < g.n {
        assert Covered(L, g, g.n - 1) && GoodChunk(L, f, g.n - 1);
      }
      forall i: nat | i < f.n ensures Covered(L, f, i) {
        assert Covered(L, g, i);
      }
    }
  }

  lemma SameBytesAt(L: Layout, f: File, g: File)
    requires f.size == g.size && f.blobs == g.blobs
    ensures Flat(L, f) == Flat(L, g) && (CleanTail(L, g) ==> CleanTail(L, f))
    ensures forall i: nat :: Chunk(L, f, i) == Chunk(L, g, i)
  {
    hide Decoded;
    forall p: nat ensures ByteAt(L, f, p) == ByteAt(L, g, p) {
      SameTable(L, f, g, p);
    }
    hide ByteAt;
  }
}
